/**
  The configuration block parser (config.c): a machine over the lines of a file, with a stack of states that block
  directives push and pop, disabled regions, else branches and nested include files.
 */
module MaConfig {
  import opened Bytes

  type RouteId = nat
  type HostId = nat
  type FileId = nat

  /** What the directives do to the server, in order. Directives other than block directives are opaque. */
  datatype Event =
    | Applied(name: string, route: RouteId, host: HostId)
    | Attached(host: HostId)
    | Finalized(route: RouteId)

  /** The server, with the supplies of new routes, hosts and open files. */
  datatype World = World(events: seq<Event>, nextRoute: RouteId, nextHost: HostId, nextFile: FileId)

  /** A MaState. endpoints says of each address of a VirtualHost whether it can be resolved when the block closes. */
  datatype Frame = Frame(enabled: bool, conditional: bool, route: RouteId, host: HostId, file: Option<FileId>,
                         endpoints: seq<bool>, lineNumber: int)

  /** The chain of states ending in top->current, and the server. */
  datatype Machine = Machine(stack: seq<Frame>, world: World)

  /** ok is false for a negative return code. */
  datatype Outcome = Outcome(m: Machine, ok: bool)

  datatype Opener =
    | Route(wellFormed: bool)
    | Reroute(target: Option<RouteId>)
    | VirtualHost(addresses: Option<seq<bool>>)

  datatype Tag = IfTag | RouteTag | RerouteTag | HostTag

  /** A line by the directive it names. A condition is negative when it is unknown. */
  datatype Line =
    | Blank
    | Leaf(name: string, ok: bool)
    | If(cond: int)
    | Else
    | Open(opener: Opener)
    | Close(tag: Tag)
    | Include(files: seq<File>)
    | Unknown(looksConditional: bool)

  datatype File = Missing | Lines(lines: seq<Line>)

  // ---- States ----

  /** Only an enabled state encloses an enabled state, and only a pushed state is conditional. */
  predicate Nested(s: seq<Frame>) {
    && |s| >= 1 && !s[0].conditional
    && forall i :: 0 < i < |s| && s[i].enabled ==> s[i - 1].enabled
  }

  /** s still has the states of base underneath, up to the line number of the last one. */
  predicate Above(base: seq<Frame>, s: seq<Frame>) {
    && |base| <= |s|
    && (forall i :: 0 <= i < |base| - 1 ==> s[i] == base[i])
    && (|base| > 0 ==> s[|base| - 1] == base[|base| - 1].(lineNumber := s[|base| - 1].lineNumber))
  }

  function Current(m: Machine): Frame
    requires m.stack != []
  {
    m.stack[|m.stack| - 1]
  }

  function SetCurrent(m: Machine, f: Frame): Machine
    requires m.stack != []
  {
    m.(stack := m.stack[|m.stack| - 1 := f])
  }

  function NextLine(m: Machine): Machine
    requires m.stack != []
  {
    SetCurrent(m, Current(m).(lineNumber := Current(m).lineNumber + 1))
  }

  function Record(m: Machine, e: Event): Machine {
    m.(world := m.world.(events := m.world.events + [e]))
  }

  /** maPushState. */
  function Push(m: Machine): Machine
    requires m.stack != []
  {
    m.(stack := m.stack + [Current(m).(conditional := false, endpoints := [])])
  }

  /** maPopState of the current state. */
  function Pop(m: Machine): Machine
    requires m.stack != []
  {
    var n := |m.stack| - 1;
    if n == 0 then m
    else m.(stack := m.stack[..n][n - 1 := m.stack[n - 1].(lineNumber := Current(m).lineNumber)])
  }

  // ---- Directives ----

  /** closeDirective. */
  function CloseBlock(m: Machine): Outcome
    requires m.stack != []
  {
    var n := |m.stack| - 1;
    if n == 0 then Outcome(m, false)
    else if m.stack[n].route != m.stack[n - 1].route then Outcome(Pop(Record(m, Finalized(m.stack[n].route))), true)
    else Outcome(Pop(m), true)
  }

  /** How many addresses there are before the first that cannot be resolved. */
  function Resolvable(addresses: seq<bool>): (k: nat)
    ensures k <= |addresses| && (forall i :: 0 <= i < k ==> addresses[i]) && (k < |addresses| ==> !addresses[k])
  {
    if addresses == [] || !addresses[0] then 0 else 1 + Resolvable(addresses[1..])
  }

  /** An event k times over. */
  function Times(k: nat, e: Event): (es: seq<Event>)
    ensures |es| == k && forall i :: 0 <= i < k ==> es[i] == e
  {
    seq(k, i => e)
  }

  /**
    Add a host to each endpoint, up to the first that cannot be resolved: it is attached once to each before that one,
    and it succeeds if there is none.
   */
  function AttachAll(w: World, host: HostId, addresses: seq<bool>): (r: (World, bool))
    ensures r.0 == w.(events := w.events + Times(Resolvable(addresses), Attached(host)))
    ensures r.1 <==> forall i :: 0 <= i < |addresses| ==> addresses[i]
    decreases |addresses|
  {
    if addresses == [] then
      assert w.events + Times(0, Attached(host)) == w.events;
      (w, true)
    else if !addresses[0] then
      assert w.events + Times(0, Attached(host)) == w.events;
      (w, false)
    else
      var k := Resolvable(addresses[1..]);
      assert (w.events + [Attached(host)]) + Times(k, Attached(host)) == w.events + Times(k + 1, Attached(host));
      assert (forall i :: 0 <= i < |addresses| ==> addresses[i]) <==> (forall i :: 0 <= i < |addresses[1..]| ==> addresses[1..][i]) by {
        assert addresses == [addresses[0]] + addresses[1..];
      }
      AttachAll(w.(events := w.events + [Attached(host)]), host, addresses[1..])
  }

  /** closeVirtualHostDirective. The result of closing the block is not looked at. */
  function CloseHost(m: Machine): Outcome
    requires m.stack != []
  {
    var (w, ok) := if Current(m).enabled then AttachAll(m.world, Current(m).host, Current(m).endpoints) else (m.world, true);
    if !ok then Outcome(m.(world := w), false) else Outcome(CloseBlock(m.(world := w)).m, true)
  }

  /** elseDirective. */
  function ElseBlock(m: Machine): Outcome
    requires Nested(m.stack)
  {
    var n := |m.stack| - 1;
    if !m.stack[n].conditional then Outcome(m, false)
    else Outcome(SetCurrent(m, m.stack[n].(enabled := m.stack[n - 1].enabled && !m.stack[n].enabled)), true)
  }

  /** ifDirective. */
  function IfBlock(m: Machine, cond: int): Outcome
    requires m.stack != []
  {
    var q := SetCurrent(Push(m), Current(Push(m)).(conditional := true));
    if !Current(q).enabled then Outcome(q, true)
    else if cond < 0 then Outcome(q, false)
    else Outcome(SetCurrent(q, Current(q).(enabled := cond != 0)), true)
  }

  /** Looking up a route finds one that was created, or none. */
  predicate Exists(w: World, target: Option<RouteId>) {
    target.Some? && target.value < w.nextRoute
  }

  /** routeDirective, rerouteDirective and virtualHostDirective. */
  function OpenBlock(m: Machine, opener: Opener): Outcome
    requires m.stack != []
  {
    var q := Push(m);
    var f, w := Current(q), m.world;
    if !f.enabled then Outcome(q, true)
    else
      match opener
      case Route(wellFormed) =>
        Outcome(SetCurrent(q, f.(route := w.nextRoute)).(world := w.(nextRoute := w.nextRoute + 1)), wellFormed)
      case Reroute(target) =>
        if !Exists(w, target) then Outcome(q, false) else Outcome(SetCurrent(q, f.(route := target.value)), true)
      case VirtualHost(addresses) =>
        var w' := w.(nextRoute := w.nextRoute + 1, nextHost := w.nextHost + 1);
        var f' := f.(route := w.nextRoute, host := w.nextHost);
        if addresses.None? then Outcome(SetCurrent(q, f').(world := w'), false)
        else Outcome(SetCurrent(q, f'.(endpoints := addresses.value)).(world := w'), true)
  }

  /** A disabled block passes over a line, unless it may open, close or turn a conditional block. */
  predicate Skipped(f: Frame, line: Line) {
    || line.Blank?
    || (!f.enabled && !line.If? && !line.Else? && line != Close(IfTag) && line != Unknown(true))
  }

  /** A step of one directive may pop one state and leaves the others below alone. */
  predicate StepKeeps(s: seq<Frame>, t: seq<Frame>) {
    Nested(t) && |s| >= 1 && Above(s[..|s| - 1], t)
  }

  lemma PopKeeps(m: Machine)
    requires Nested(m.stack)
    ensures StepKeeps(m.stack, Pop(m).stack) && StepKeeps(m.stack, m.stack)
  {
  }

  /** Closing a block leaves the states alone or pops one. */
  lemma ClosePops(m: Machine)
    requires m.stack != []
    ensures CloseBlock(m).m.stack == m.stack || CloseBlock(m).m.stack == Pop(m).stack
    ensures CloseHost(m).m.stack == m.stack || CloseHost(m).m.stack == Pop(m).stack
  {
    hide AttachAll;
  }

  lemma CloseKeeps(m: Machine)
    requires Nested(m.stack)
    ensures StepKeeps(m.stack, CloseBlock(m).m.stack) && StepKeeps(m.stack, CloseHost(m).m.stack)
  {
    hide StepKeeps, Pop, CloseBlock, CloseHost;
    PopKeeps(m);
    ClosePops(m);
  }

  lemma ElseKeeps(m: Machine)
    requires Nested(m.stack)
    ensures StepKeeps(m.stack, ElseBlock(m).m.stack)
  {
  }

  /** One state more, which may be conditional, and is enabled only inside an enabled one. */
  lemma PushKeeps(s: seq<Frame>, f: Frame)
    requires Nested(s) && (f.enabled ==> s[|s| - 1].enabled)
    ensures StepKeeps(s, s + [f])
  {
  }

  lemma OpenKeeps(m: Machine, cond: int, opener: Opener)
    requires Nested(m.stack)
    ensures StepKeeps(m.stack, IfBlock(m, cond).m.stack) && StepKeeps(m.stack, OpenBlock(m, opener).m.stack)
  {
    var n := |m.stack|;
    var i, o := IfBlock(m, cond).m.stack, OpenBlock(m, opener).m.stack;
    assert i == m.stack + [i[n]] && o == m.stack + [o[n]];
    PushKeeps(m.stack, i[n]);
    PushKeeps(m.stack, o[n]);
    hide StepKeeps;
  }

  lemma SameKeeps(s: seq<Frame>)
    requires Nested(s)
    ensures StepKeeps(s, s) && s != []
  {
  }

  /** The directive of a line. */
  function Directive(m: Machine, line: Line): (o: Outcome)
    requires Nested(m.stack)
    ensures StepKeeps(m.stack, o.m.stack)
    decreases line, 0
  {
    hide Nested, StepKeeps, Above;
    SameKeeps(m.stack);
    match line
    case Blank => Outcome(m, true)
    case Leaf(name, ok) => if ok then Outcome(Record(m, Applied(name, Current(m).route, Current(m).host)), true) else Outcome(m, false)
    case If(cond) => OpenKeeps(m, cond, Route(true)); IfBlock(m, cond)
    case Else => ElseKeeps(m); ElseBlock(m)
    case Open(opener) => OpenKeeps(m, 0, opener); OpenBlock(m, opener)
    case Close(tag) => CloseKeeps(m); if tag.HostTag? then CloseHost(m) else CloseBlock(m)
    case Include(files) => ParseFiles(m, files)
    case Unknown(_) => Outcome(m, false)
  }

  /** A line that is not skipped is handed to its directive. */
  function Process(m: Machine, line: Line): (o: Outcome)
    requires Nested(m.stack)
    ensures StepKeeps(m.stack, o.m.stack)
    decreases line, 1
  {
    SameKeeps(m.stack);
    if Skipped(Current(m), line) then Outcome(m, true) else Directive(m, line)
  }

  /** The loop of includeDirective. */
  function ParseFiles(m: Machine, files: seq<File>): (o: Outcome)
    requires Nested(m.stack)
    ensures o.m.stack == m.stack
    decreases files
  {
    if files == [] then Outcome(m, true)
    else
      var o := ParseFile(m, files[0]);
      if !o.ok then o else ParseFiles(o.m, files[1..])
  }

  /** maParseFile under a current state: the file has a state of its own, and the line number comes back. */
  function ParseFile(m: Machine, file: File): (o: Outcome)
    requires Nested(m.stack)
    ensures o.m.stack == m.stack
    decreases file
  {
    var n := |m.stack|;
    var o := ParseFileInner(Push(m), file);
    var caller := o.m.stack[n - 1].(lineNumber := Current(m).lineNumber);
    o.(m := o.m.(stack := o.m.stack[..n][n - 1 := caller]))
  }

  predicate Unclosed(m: Machine) {
    |m.stack| >= 2 && m.stack[|m.stack| - 1].file == m.stack[|m.stack| - 2].file
  }

  function OpenFile(m: Machine): Machine
    requires m.stack != []
  {
    SetCurrent(m, Current(m).(file := Some(m.world.nextFile), lineNumber := 1)).(world := m.world.(nextFile := m.world.nextFile + 1))
  }

  /** parseFileInner in the current state, which is the floor. */
  function ParseFileInner(m: Machine, file: File): (o: Outcome)
    requires Nested(m.stack)
    ensures Nested(o.m.stack) && Above(m.stack[..|m.stack| - 1], o.m.stack)
    decreases file, 0
  {
    match file
    case Missing => Outcome(SetCurrent(m, Current(m).(file := None)), false)
    case Lines(lines) =>
      var o := Exec(OpenFile(m), |m.stack| - 1, lines);
      o.(ok := o.ok && !Unclosed(o.m))
  }

  lemma NextLineKeeps(m: Machine, floor: nat)
    requires Nested(m.stack) && floor < |m.stack|
    ensures Nested(NextLine(m).stack) && Above(m.stack[..floor], NextLine(m).stack)
    ensures NextLine(m).stack[..floor] == m.stack[..floor] && |NextLine(m).stack| == |m.stack|
  {
  }

  /** What a directive and the line count leave of the states below the floor. */
  lemma LineKeeps(s: seq<Frame>, floor: nat, t: seq<Frame>)
    requires StepKeeps(s, t) && floor < |s|
    ensures floor <= |t| && Above(s[..floor], t) && Nested(t)
  {
  }

  lemma AboveTrans(base: seq<Frame>, s: seq<Frame>, t: seq<Frame>)
    requires Above(base, s) && Above(s[..|base|], t)
    ensures Above(base, t)
  {
  }

  /** The loop of parseFileInner. The floor has `floor` states below it. */
  function Exec(m: Machine, floor: nat, lines: seq<Line>): (o: Outcome)
    requires Nested(m.stack) && |m.stack| > floor
    ensures Nested(o.m.stack) && Above(m.stack[..floor], o.m.stack)
    ensures o.ok ==> |o.m.stack| > floor
    decreases lines
  {
    hide Nested, Above, StepKeeps, NextLine;
    SameKeeps(m.stack);
    LineKeeps(m.stack, floor, m.stack);
    if lines == [] then Outcome(m, true)
    else
      var o := Process(m, lines[0]);
      LineKeeps(m.stack, floor, o.m.stack);
      if !o.ok || |o.m.stack| == floor then o.(ok := false)
      else
        NextLineKeeps(o.m, floor);
        AboveTrans(m.stack[..floor], o.m.stack, NextLine(o.m).stack);
        var r := Exec(NextLine(o.m), floor, lines[1..]);
        AboveTrans(m.stack[..floor], NextLine(o.m).stack, r.m.stack);
        r
  }
}
