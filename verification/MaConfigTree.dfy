/**
  A configuration as a tree of nested blocks, what the tree means, and the theorem that parsing the lines of a tree
  (MaConfig) does what the tree means.
 */
module MaConfigTree {
  import opened Bytes
  import opened MaConfig

  /** The branches of a conditional are what lies between <If>, each <else> and </If>. */
  datatype Node =
    | Empty
    | Directive(name: string, ok: bool)
    | Conditional(cond: int, first: seq<Node>, others: seq<Branch>)
    | Block(opener: Opener, body: seq<Node>)
    | Includes(files: seq<Source>)

  datatype Branch = Branch(nodes: seq<Node>)

  datatype Source = NoFile | Text(nodes: seq<Node>)

  /** The world after evaluating, and whether there was no error. */
  datatype Result = Result(world: World, ok: bool)

  // ---- The meaning of a tree ----

  /** Each node in turn, up to the first error. Only enabled nodes are evaluated. */
  function Eval(nodes: seq<Node>, route: RouteId, host: HostId, w: World): (r: Result)
    ensures r.world.nextFile >= w.nextFile
    decreases nodes, 0
  {
    if nodes == [] then Result(w, true)
    else
      var r := EvalNode(nodes[0], route, host, w);
      if !r.ok then r else Eval(nodes[1..], route, host, r.world)
  }

  function EvalNode(node: Node, route: RouteId, host: HostId, w: World): (r: Result)
    ensures r.world.nextFile >= w.nextFile
    decreases node
  {
    match node
    case Empty => Result(w, true)
    case Directive(name, ok) => if ok then Result(w.(events := w.events + [Applied(name, route, host)]), true) else Result(w, false)
    case Conditional(cond, first, others) =>
      if cond < 0 then Result(w, false)
      else
        var r := if cond != 0 then Eval(first, route, host, w) else Result(w, true);
        if !r.ok then r else EvalBranches(others, cond == 0, route, host, r.world)
    case Block(opener, body) => EvalBlock(opener, body, route, host, w)
    case Includes(files) => EvalFiles(files, route, host, w)
  }

  /** Every second branch is taken. */
  function EvalBranches(branches: seq<Branch>, taken: bool, route: RouteId, host: HostId, w: World): (r: Result)
    ensures r.world.nextFile >= w.nextFile
    decreases branches
  {
    if branches == [] then Result(w, true)
    else
      var r := if taken then Eval(branches[0].nodes, route, host, w) else Result(w, true);
      if !r.ok then r else EvalBranches(branches[1..], !taken, route, host, r.world)
  }

  function Finish(w: World, route: RouteId, outer: RouteId): World {
    if route == outer then w else w.(events := w.events + [Finalized(route)])
  }

  /**
    The body runs against the block's route, which is finalized after everything in the body. A host is first attached
    to its addresses, in order and up to the first that cannot be resolved; that one is an error.
   */
  function EvalBlock(opener: Opener, body: seq<Node>, route: RouteId, host: HostId, w: World): (r: Result)
    ensures r.world.nextFile >= w.nextFile
    decreases body, 1
  {
    match opener
    case Route(wellFormed) =>
      var w' := w.(nextRoute := w.nextRoute + 1);
      if !wellFormed then Result(w', false)
      else
        var r := Eval(body, w.nextRoute, host, w');
        if !r.ok then r else Result(Finish(r.world, w.nextRoute, route), true)
    case Reroute(target) =>
      if target.None? || target.value >= w.nextRoute then Result(w, false)
      else
        var r := Eval(body, target.value, host, w);
        if !r.ok then r else Result(Finish(r.world, target.value, route), true)
    case VirtualHost(addresses) =>
      var w' := w.(nextRoute := w.nextRoute + 1, nextHost := w.nextHost + 1);
      if addresses.None? then Result(w', false)
      else
        var r := Eval(body, w.nextRoute, w.nextHost, w');
        if !r.ok then r
        else
          var k := Resolvable(addresses.value);
          var w2 := r.world.(events := r.world.events + Times(k, Attached(w.nextHost)));
          if k < |addresses.value| then Result(w2, false) else Result(Finish(w2, w.nextRoute, route), true)
  }

  function EvalFiles(files: seq<Source>, route: RouteId, host: HostId, w: World): (r: Result)
    ensures r.world.nextFile >= w.nextFile
    decreases files
  {
    if files == [] then Result(w, true)
    else
      var r := EvalFile(files[0], route, host, w);
      if !r.ok then r else EvalFiles(files[1..], route, host, r.world)
  }

  function EvalFile(file: Source, route: RouteId, host: HostId, w: World): (r: Result)
    ensures r.world.nextFile >= w.nextFile
    decreases file
  {
    match file
    case NoFile => Result(w, false)
    case Text(nodes) => Eval(nodes, route, host, w.(nextFile := w.nextFile + 1))
  }

  // ---- The lines of a tree ----

  function TagOf(opener: Opener): Tag {
    match opener
    case Route(_) => RouteTag
    case Reroute(_) => RerouteTag
    case VirtualHost(_) => HostTag
  }

  function Write(nodes: seq<Node>): seq<Line>
    decreases nodes
  {
    if nodes == [] then [] else WriteNode(nodes[0]) + Write(nodes[1..])
  }

  function WriteNode(node: Node): seq<Line>
    decreases node
  {
    match node
    case Empty => [Blank]
    case Directive(name, ok) => [Leaf(name, ok)]
    case Conditional(cond, first, others) => [If(cond)] + (Write(first) + (WriteBranches(others) + [Close(IfTag)]))
    case Block(opener, body) => [Open(opener)] + (Write(body) + [Close(TagOf(opener))])
    case Includes(files) => [Include(WriteFiles(files))]
  }

  function WriteBranches(branches: seq<Branch>): seq<Line>
    decreases branches
  {
    if branches == [] then [] else [Else] + (Write(branches[0].nodes) + WriteBranches(branches[1..]))
  }

  function WriteFiles(files: seq<Source>): seq<File>
    decreases files
  {
    if files == [] then [] else [WriteFile(files[0])] + WriteFiles(files[1..])
  }

  function WriteFile(file: Source): File
    decreases file
  {
    match file
    case NoFile => Missing
    case Text(nodes) => Lines(Write(nodes))
  }

  // ---- Running lines one part after the other ----

  lemma {:induction false} ExecAppend(m: Machine, floor: nat, a: seq<Line>, b: seq<Line>)
    requires Nested(m.stack) && |m.stack| > floor
    ensures var o := Exec(m, floor, a);
            Exec(m, floor, a + b) == if o.ok then Exec(o.m, floor, b) else o
    decreases |a|
  {
    hide Nested, Above, StepKeeps, NextLine, Process;
    if a == [] {
      assert a + b == b;
    } else {
      assert (a + b)[0] == a[0] && (a + b)[1..] == a[1..] + b;
      var o := Process(m, a[0]);
      LineKeeps(m.stack, floor, o.m.stack);
      if o.ok && |o.m.stack| != floor {
        NextLineKeeps(o.m, floor);
        ExecAppend(NextLine(o.m), floor, a[1..], b);
      }
    }
  }

  lemma ExecOne(m: Machine, floor: nat, line: Line)
    requires Nested(m.stack) && |m.stack| > floor
    ensures var o := Process(m, line);
            Exec(m, floor, [line]) == if o.ok && |o.m.stack| != floor then Outcome(NextLine(o.m), true) else o.(ok := false)
  {
    hide Nested, Above, StepKeeps, NextLine, Process;
    LineKeeps(m.stack, floor, Process(m, line).m.stack);
    assert [line][1..] == [];
  }

  lemma ExecThree(m: Machine, floor: nat, a: seq<Line>, b: seq<Line>, c: seq<Line>)
    requires Nested(m.stack) && |m.stack| > floor
    ensures var o := Exec(m, floor, a);
            var p := if o.ok then Exec(o.m, floor, b) else o;
            Exec(m, floor, a + (b + c)) == if p.ok then Exec(p.m, floor, c) else p
  {
    hide Nested, Above, Exec;
    ExecAppend(m, floor, a, b + c);
    var o := Exec(m, floor, a);
    if o.ok {
      ExecAppend(o.m, floor, b, c);
    }
  }

  // ---- Entering and leaving a block ----

  /** The machine inside a block with state f. */
  function Inside(m: Machine, f: Frame): Machine {
    m.(stack := m.stack + [f])
  }

  function Advance(m: Machine, n: nat): Machine
    requires m.stack != []
  {
    SetCurrent(m, Current(m).(lineNumber := Current(m).lineNumber + n))
  }

  /** The current state's file, if any, was opened before. */
  predicate FileKnown(m: Machine)
    requires m.stack != []
  {
    Current(m).file.Some? ==> Current(m).file.value < m.world.nextFile
  }

  predicate Ready(m: Machine, floor: nat) {
    Nested(m.stack) && |m.stack| > floor && FileKnown(m)
  }

  lemma InsideReady(m: Machine, floor: nat, f: Frame)
    requires Ready(m, floor) && (f.enabled ==> Current(m).enabled) && f.file == Current(m).file
    ensures Ready(Inside(m, f), floor) && Current(Inside(m, f)) == f
  {
  }

  lemma AdvanceReady(m: Machine, floor: nat, n: nat)
    requires Ready(m, floor)
    ensures Ready(Advance(m, n), floor) && NextLine(m) == Advance(m, 1)
    ensures Current(Advance(m, n)) == Current(m).(lineNumber := Current(m).lineNumber + n)
  {
  }

  lemma AdvanceTwice(m: Machine, a: nat, b: nat)
    requires m.stack != []
    ensures Advance(Advance(m, a), b) == Advance(m, a + b)
  {
  }

  lemma AdvanceInside(m: Machine, f: Frame, n: nat)
    ensures Advance(Inside(m, f), n) == Inside(m, f.(lineNumber := f.lineNumber + n))
  {
  }

  /** The state of a new block, one line further. */
  function Entered(m: Machine): Frame
    requires m.stack != []
  {
    Current(m).(conditional := false, endpoints := [], lineNumber := Current(m).lineNumber + 1)
  }

  lemma EnterIf(m: Machine, floor: nat, cond: int)
    requires Ready(m, floor)
    ensures var o := Exec(m, floor, [If(cond)]);
            if Current(m).enabled && cond < 0 then !o.ok && o.m.world == m.world
            else o == Outcome(Inside(m, Entered(m).(conditional := true, enabled := Current(m).enabled && cond != 0)), true)
  {
    ExecOne(m, floor, If(cond));
    hide Exec, Nested;
  }

  /** The state around a block, at the line where the block was left, and the server with the block's route finalized. */
  function Left(m: Machine, f: Frame, w: World): Machine
    requires m.stack != []
  {
    SetCurrent(m, Current(m).(lineNumber := f.lineNumber)).(world := Finish(w, f.route, Current(m).route))
  }

  lemma CloseInside(m: Machine, f: Frame)
    requires m.stack != []
    ensures CloseBlock(Inside(m, f)) == Outcome(Left(m, f, m.world), true)
  {
    var n := |m.stack|;
    assert Inside(m, f).stack[..n] == m.stack;
    assert Inside(m, f).stack[n] == f;
  }

  lemma CloseHostInside(m: Machine, f: Frame)
    requires m.stack != [] && f.enabled
    ensures var (w, ok) := AttachAll(m.world, f.host, f.endpoints);
            CloseHost(Inside(m, f)) == if ok then Outcome(Left(m, f, w), true) else Outcome(Inside(m, f).(world := w), false)
  {
    hide CloseBlock, Left;
    var w := AttachAll(m.world, f.host, f.endpoints).0;
    CloseInside(m.(world := w), f);
    assert Current(Inside(m, f)) == f;
    LeftOfWorld(m, f, w);
  }

  lemma LeftOfWorld(m: Machine, f: Frame, w: World)
    requires m.stack != []
    ensures Left(m.(world := w), f, w) == Left(m, f, w)
  {
  }

  lemma LeftNext(m: Machine, f: Frame, w: World)
    requires m.stack != []
    ensures NextLine(Left(m, f, w)) == SetCurrent(m, Current(m).(lineNumber := f.lineNumber + 1)).(world := Finish(w, f.route, Current(m).route))
    ensures |Left(m, f, w).stack| == |m.stack|
  {
  }

  lemma ProcessClose(m: Machine, tag: Tag)
    requires Nested(m.stack) && m.stack != [] && (Current(m).enabled || tag.IfTag?)
    ensures Process(m, Close(tag)) == if tag.HostTag? then CloseHost(m) else CloseBlock(m)
  {
    hide CloseHost, CloseBlock;
  }

  /** A closing line ends the block and comes back to the state around it. */
  lemma Leave(m: Machine, floor: nat, f: Frame, tag: Tag)
    requires Ready(m, floor) && Nested(Inside(m, f).stack) && (f.enabled || tag.IfTag?) && !tag.HostTag?
    ensures Exec(Inside(m, f), floor, [Close(tag)])
            == Outcome(SetCurrent(m, Current(m).(lineNumber := f.lineNumber + 1)).(world := Finish(m.world, f.route, Current(m).route)), true)
  {
    hide Exec, Nested, Process, CloseBlock, CloseHost, Left, NextLine;
    ExecOne(Inside(m, f), floor, Close(tag));
    assert Current(Inside(m, f)) == f;
    ProcessClose(Inside(m, f), tag);
    CloseInside(m, f);
    LeftNext(m, f, m.world);
  }

  lemma LeaveHost(m: Machine, floor: nat, f: Frame)
    requires Ready(m, floor) && Nested(Inside(m, f).stack) && f.enabled
    ensures var (w, ok) := AttachAll(m.world, f.host, f.endpoints);
            var o := Exec(Inside(m, f), floor, [Close(HostTag)]);
            && o.ok == ok && (!ok ==> o.m.world == w)
            && (ok ==> o.m == SetCurrent(m, Current(m).(lineNumber := f.lineNumber + 1)).(world := Finish(w, f.route, Current(m).route)))
  {
    hide Exec, Nested, Process, CloseBlock, CloseHost, Left, NextLine;
    ExecOne(Inside(m, f), floor, Close(HostTag));
    assert Current(Inside(m, f)) == f;
    ProcessClose(Inside(m, f), HostTag);
    CloseHostInside(m, f);
    LeftNext(m, f, AttachAll(m.world, f.host, f.endpoints).0);
  }

  /** <else> turns a branch on or off; in a disabled enclosing block it stays off. */
  lemma Turn(m: Machine, floor: nat, f: Frame)
    requires Ready(m, floor) && Nested(Inside(m, f).stack) && f.conditional
    ensures Exec(Inside(m, f), floor, [Else])
            == Outcome(Inside(m, f.(enabled := Current(m).enabled && !f.enabled, lineNumber := f.lineNumber + 1)), true)
  {
    ExecOne(Inside(m, f), floor, Else);
    hide Exec;
  }

  /** The opening line of a block in an enabled state. */
  lemma EnterBlock(m: Machine, floor: nat, opener: Opener)
    requires Ready(m, floor) && Current(m).enabled
    ensures var o := Exec(m, floor, [Open(opener)]);
            var f := Entered(m);
            match opener
            case Route(wellFormed) =>
              o.ok == wellFormed && o.m.world == m.world.(nextRoute := m.world.nextRoute + 1)
              && (o.ok ==> o.m.stack == Inside(m, f.(route := m.world.nextRoute)).stack)
            case Reroute(target) =>
              o.ok == Exists(m.world, target) && o.m.world == m.world
              && (o.ok ==> o.m.stack == Inside(m, f.(route := target.value)).stack)
            case VirtualHost(addresses) =>
              o.ok == addresses.Some? && o.m.world == m.world.(nextRoute := m.world.nextRoute + 1, nextHost := m.world.nextHost + 1)
              && (o.ok ==> o.m.stack == Inside(m, f.(route := m.world.nextRoute, host := m.world.nextHost,
                                                     endpoints := addresses.value)).stack)
    ensures var o := Exec(m, floor, [Open(opener)]);
            !o.ok ==> |o.m.stack| == |m.stack| + 1 && o.m.stack[..|m.stack|] == m.stack
  {
    ExecOne(m, floor, Open(opener));
    hide Exec, Nested;
  }

  /** A line that a disabled state passes over. */
  lemma PassOver(m: Machine, floor: nat, line: Line)
    requires Ready(m, floor) && Skipped(Current(m), line)
    ensures Exec(m, floor, [line]) == Outcome(Advance(m, 1), true) && Advance(m, 1).world == m.world
  {
    hide Exec, Nested;
    ExecOne(m, floor, line);
    AdvanceReady(m, floor, 1);
  }

  // ---- Disabled blocks ----

  /** The lines of a tree leave a disabled state as it was, further on, and do nothing to the server. */
  lemma {:induction false} SkipNodes(m: Machine, floor: nat, nodes: seq<Node>)
    requires Ready(m, floor) && !Current(m).enabled
    ensures Exec(m, floor, Write(nodes)) == Outcome(Advance(m, |Write(nodes)|), true)
    decreases nodes, 0
  {
    hide Exec, Nested, Advance;
    AdvanceNone(m, floor);
    if nodes != [] {
      ExecAppend(m, floor, WriteNode(nodes[0]), Write(nodes[1..]));
      SkipNode(m, floor, nodes[0]);
      AdvanceReady(m, floor, |WriteNode(nodes[0])|);
      SkipNodes(Advance(m, |WriteNode(nodes[0])|), floor, nodes[1..]);
      AdvanceTwice(m, |WriteNode(nodes[0])|, |Write(nodes[1..])|);
    }
  }

  lemma AdvanceNone(m: Machine, floor: nat)
    requires Ready(m, floor)
    ensures Exec(m, floor, []) == Outcome(Advance(m, 0), true) && Advance(m, 0) == m
  {
    assert m.stack[|m.stack| - 1 := Current(m)] == m.stack;
  }

  lemma {:induction false} SkipNode(m: Machine, floor: nat, node: Node)
    requires Ready(m, floor) && !Current(m).enabled
    ensures Exec(m, floor, WriteNode(node)) == Outcome(Advance(m, |WriteNode(node)|), true)
    decreases node, 1
  {
    hide Exec, Nested, Advance, Write, WriteBranches;
    match node
    case Empty => PassOver(m, floor, Blank);
    case Directive(name, ok) => PassOver(m, floor, Leaf(name, ok));
    case Includes(files) => PassOver(m, floor, Include(WriteFiles(files)));
    case Block(opener, body) =>
      var k := |Write(body)|;
      PassOver(m, floor, Open(opener));
      AdvanceReady(m, floor, 1);
      SkipNodes(Advance(m, 1), floor, body);
      AdvanceTwice(m, 1, k);
      AdvanceReady(m, floor, 1 + k);
      PassOver(Advance(m, 1 + k), floor, Close(TagOf(opener)));
      AdvanceTwice(m, 1 + k, 1);
      ExecThree(m, floor, [Open(opener)], Write(body), [Close(TagOf(opener))]);
    case Conditional(_, _, _) => SkipConditional(m, floor, node);
  }

  lemma {:induction false} SkipConditional(m: Machine, floor: nat, node: Node)
    requires Ready(m, floor) && !Current(m).enabled && node.Conditional?
    ensures Exec(m, floor, WriteNode(node)) == Outcome(Advance(m, |WriteNode(node)|), true)
    decreases node, 0
  {
    hide Exec, Nested, Advance, Write, WriteBranches;
    var Conditional(cond, first, others) := node;
    var f := Entered(m).(conditional := true);
    var k, n := |Write(first)|, |WriteBranches(others)|;
    EnterIf(m, floor, cond);
    InsideReady(m, floor, f);
    SkipNodes(Inside(m, f), floor, first);
    AdvanceInside(m, f, k);
    var g := f.(lineNumber := f.lineNumber + k);
    InsideReady(m, floor, g);
    SkipBranches(m, floor, g, others);
    var h := g.(lineNumber := g.lineNumber + n);
    InsideReady(m, floor, h);
    Leave(m, floor, h, IfTag);
    assert Advance(m, 1 + k + n + 1) == SetCurrent(m, Current(m).(lineNumber := h.lineNumber + 1)) by { AdvanceIs(m, 1 + k + n + 1); }
    ExecThree(m, floor, [If(cond)], Write(first), WriteBranches(others) + [Close(IfTag)]);
    ExecAppend(Inside(m, g), floor, WriteBranches(others), [Close(IfTag)]);
  }

  lemma AdvanceIs(m: Machine, n: nat)
    requires m.stack != []
    ensures Advance(m, n) == SetCurrent(m, Current(m).(lineNumber := Current(m).lineNumber + n))
  {
  }

  lemma {:induction false} SkipBranches(m: Machine, floor: nat, f: Frame, branches: seq<Branch>)
    requires Ready(m, floor) && !Current(m).enabled && !f.enabled && f.conditional && f.file == Current(m).file
    ensures Exec(Inside(m, f), floor, WriteBranches(branches))
            == Outcome(Inside(m, f.(lineNumber := f.lineNumber + |WriteBranches(branches)|)), true)
    decreases branches
  {
    hide Exec, Nested, Advance, Write;
    InsideReady(m, floor, f);
    if branches == [] {
      AdvanceNone(Inside(m, f), floor);
      AdvanceInside(m, f, 0);
    } else {
      var k := |Write(branches[0].nodes)|;
      var g := f.(lineNumber := f.lineNumber + 1);
      var h := g.(lineNumber := g.lineNumber + k);
      Turn(m, floor, f);
      InsideReady(m, floor, g);
      SkipNodes(Inside(m, g), floor, branches[0].nodes);
      AdvanceInside(m, g, k);
      SkipBranches(m, floor, h, branches[1..]);
      ExecThree(Inside(m, f), floor, [Else], Write(branches[0].nodes), WriteBranches(branches[1..]));
    }
  }

  // ---- Enabled blocks ----

  /** The parser and the evaluator agree: same success, same world, and the same state n lines further. */
  ghost predicate Agrees(m: Machine, o: Outcome, r: Result, n: nat)
    requires m.stack != []
  {
    o.ok == r.ok && o.m.world == r.world && (o.ok ==> o.m.stack == Advance(m, n).stack)
  }

  /** Inside a block with state f, likewise; the branch being on or off is left open. */
  ghost predicate AgreesInside(m: Machine, f: Frame, o: Outcome, r: Result, n: nat) {
    && o.ok == r.ok && o.m.world == r.world
    && (o.ok ==> o.m.stack != []
                 && o.m.stack == Inside(m, f.(enabled := Current(o.m).enabled, lineNumber := f.lineNumber + n)).stack)
  }

  lemma {:induction false} RunNodes(m: Machine, floor: nat, nodes: seq<Node>)
    requires Ready(m, floor) && Current(m).enabled
    ensures Agrees(m, Exec(m, floor, Write(nodes)), Eval(nodes, Current(m).route, Current(m).host, m.world), |Write(nodes)|)
    decreases nodes, 0
  {
    hide Exec, Nested, Advance;
    AdvanceNone(m, floor);
    if nodes != [] {
      var k := |WriteNode(nodes[0])|;
      ExecAppend(m, floor, WriteNode(nodes[0]), Write(nodes[1..]));
      RunNode(m, floor, nodes[0]);
      var o := Exec(m, floor, WriteNode(nodes[0]));
      if o.ok {
        WithWorld(m, floor, o.m, k);
        RunNodes(o.m, floor, nodes[1..]);
        AdvanceTwice(m, k, |Write(nodes[1..])|);
        AdvanceStack(o.m, Advance(m, k), |Write(nodes[1..])|);
      }
    }
  }

  lemma AdvanceStack(p: Machine, q: Machine, n: nat)
    requires p.stack == q.stack && p.stack != []
    ensures Advance(p, n).stack == Advance(q, n).stack
  {
  }

  lemma WithWorld(m: Machine, floor: nat, p: Machine, n: nat)
    requires Ready(m, floor) && p.stack == Advance(m, n).stack && p.world.nextFile >= m.world.nextFile
    ensures Ready(p, floor) && Current(p) == Current(m).(lineNumber := Current(m).lineNumber + n)
  {
    AdvanceReady(m, floor, n);
  }

  lemma {:induction false} RunNode(m: Machine, floor: nat, node: Node)
    requires Ready(m, floor) && Current(m).enabled
    ensures Agrees(m, Exec(m, floor, WriteNode(node)), EvalNode(node, Current(m).route, Current(m).host, m.world), |WriteNode(node)|)
    decreases node, 1
  {
    hide Exec, Nested, Advance, Write, WriteBranches;
    match node
    case Empty => PassOver(m, floor, Blank);
    case Directive(name, ok) => RunDirective(m, floor, name, ok);
    case Includes(files) => RunIncludes(m, floor, node);
    case Block(_, _) => RunBlock(m, floor, node);
    case Conditional(_, _, _) => RunConditional(m, floor, node);
  }

  lemma RunDirective(m: Machine, floor: nat, name: string, ok: bool)
    requires Ready(m, floor) && Current(m).enabled
    ensures Agrees(m, Exec(m, floor, [Leaf(name, ok)]),
                   EvalNode(Directive(name, ok), Current(m).route, Current(m).host, m.world), 1)
  {
    hide Exec, Nested;
    ExecOne(m, floor, Leaf(name, ok));
  }

  lemma {:induction false} RunConditional(m: Machine, floor: nat, node: Node)
    requires Ready(m, floor) && Current(m).enabled && node.Conditional?
    ensures Agrees(m, Exec(m, floor, WriteNode(node)), EvalNode(node, Current(m).route, Current(m).host, m.world), |WriteNode(node)|)
    decreases node, 0
  {
    hide Exec, Nested, Advance, Write, WriteBranches, WriteNode, Eval, EvalNode, EvalBranches;
    ConditionalUnfolds(node, Current(m).route, Current(m).host, m.world);
    var Conditional(cond, first, others) := node;
    EnterIf(m, floor, cond);
    ExecThree(m, floor, [If(cond)], Write(first), WriteBranches(others) + [Close(IfTag)]);
    if cond >= 0 {
      var f := Entered(m).(conditional := true, enabled := cond != 0);
      var k, n := |Write(first)|, |WriteBranches(others)|;
      InsideReady(m, floor, f);
      RunFirst(m, floor, f, first);
      var o := Exec(Inside(m, f), floor, Write(first));
      if o.ok {
        var m2 := m.(world := o.m.world);
        var g := f.(lineNumber := f.lineNumber + k);
        assert o.m == Inside(m2, g);
        SameStack(m, m2, floor);
        RunOthers(m2, floor, g, others, cond == 0);
        AdvanceIs(m, 1 + k + n + 1);
      }
    }
  }

  /** The branches behind the first one, and the closing line. */
  lemma {:induction false} RunOthers(m: Machine, floor: nat, f: Frame, others: seq<Branch>, taken: bool)
    requires Ready(m, floor) && Current(m).enabled && f.conditional && f.enabled == !taken && f.file == Current(m).file
    requires f.route == Current(m).route
    ensures Ready(Inside(m, f), floor)
    ensures var o := Exec(Inside(m, f), floor, WriteBranches(others) + [Close(IfTag)]);
            var r := EvalBranches(others, taken, f.route, f.host, m.world);
            && o.ok == r.ok && o.m.world == r.world
            && (o.ok ==> o.m.stack == SetCurrent(m, Current(m).(lineNumber := f.lineNumber + |WriteBranches(others)| + 1)).stack)
    decreases others, 1
  {
    hide Exec, Nested, Advance, Write, WriteBranches, Eval, EvalBranches;
    RunBranches(m, floor, f, others, taken);
    ExecAppend(Inside(m, f), floor, WriteBranches(others), [Close(IfTag)]);
    LeaveConditional(m, floor, f, others, |WriteBranches(others)|);
  }

  lemma ConditionalUnfolds(node: Node, route: RouteId, host: HostId, w: World)
    requires node.Conditional?
    ensures WriteNode(node) == [If(node.cond)] + (Write(node.first) + (WriteBranches(node.others) + [Close(IfTag)]))
    ensures var r := if node.cond != 0 then Eval(node.first, route, host, w) else Result(w, true);
            EvalNode(node, route, host, w) ==
            if node.cond < 0 then Result(w, false)
            else if !r.ok then r
            else EvalBranches(node.others, node.cond == 0, route, host, r.world)
  {
  }

  lemma BranchesUnfold(branches: seq<Branch>, taken: bool, route: RouteId, host: HostId, w: World)
    requires branches != []
    ensures WriteBranches(branches) == [Else] + (Write(branches[0].nodes) + WriteBranches(branches[1..]))
    ensures var r := if taken then Eval(branches[0].nodes, route, host, w) else Result(w, true);
            EvalBranches(branches, taken, route, host, w) ==
            if !r.ok then r else EvalBranches(branches[1..], !taken, route, host, r.world)
  {
  }

  lemma SameStack(m: Machine, p: Machine, floor: nat)
    requires Ready(m, floor) && p.stack == m.stack && p.world.nextFile >= m.world.nextFile
    ensures Ready(p, floor) && Current(p) == Current(m)
  {
  }

  lemma LeaveConditional(m: Machine, floor: nat, f: Frame, others: seq<Branch>, n: nat)
    requires Ready(m, floor) && Current(m).enabled && f.conditional && f.route == Current(m).route && f.file == Current(m).file
    requires Ready(Inside(m, f), floor)
    requires var o := Exec(Inside(m, f), floor, WriteBranches(others));
             o.ok ==> o.m.stack != []
                      && o.m.stack == Inside(m, f.(enabled := Current(o.m).enabled, lineNumber := f.lineNumber + n)).stack
    requires Exec(Inside(m, f), floor, WriteBranches(others)).m.world.nextFile >= m.world.nextFile
    ensures var o := Exec(Inside(m, f), floor, WriteBranches(others));
            o.ok ==> |o.m.stack| > floor && Nested(o.m.stack)
                     && Exec(o.m, floor, [Close(IfTag)])
                        == Outcome(SetCurrent(m, Current(m).(lineNumber := f.lineNumber + n + 1)).(world := o.m.world), true)
  {
    hide Exec, Nested;
    var o := Exec(Inside(m, f), floor, WriteBranches(others));
    if o.ok {
      var m2 := m.(world := o.m.world);
      var g := f.(enabled := Current(o.m).enabled, lineNumber := f.lineNumber + n);
      assert o.m == Inside(m2, g);
      SameStack(m, m2, floor);
      InsideReady(m2, floor, g);
      Leave(m2, floor, g, IfTag);
    }
  }

  /** The first branch of a conditional. */
  lemma {:induction false} RunFirst(m: Machine, floor: nat, f: Frame, nodes: seq<Node>)
    requires Ready(m, floor) && Current(m).enabled && f.file == Current(m).file
    ensures Ready(Inside(m, f), floor)
    ensures var o := Exec(Inside(m, f), floor, Write(nodes));
            var r := if f.enabled then Eval(nodes, f.route, f.host, m.world) else Result(m.world, true);
            o.ok == r.ok && o.m.world == r.world
            && (o.ok ==> o.m.stack == Inside(m, f.(lineNumber := f.lineNumber + |Write(nodes)|)).stack)
    decreases nodes, 1
  {
    hide Exec, Nested, Advance, Write;
    InsideReady(m, floor, f);
    AdvanceInside(m, f, |Write(nodes)|);
    if f.enabled {
      RunNodes(Inside(m, f), floor, nodes);
    } else {
      SkipNodes(Inside(m, f), floor, nodes);
    }
  }

  lemma {:induction false} RunBranches(m: Machine, floor: nat, f: Frame, branches: seq<Branch>, taken: bool)
    requires Ready(m, floor) && Current(m).enabled && f.conditional && f.enabled == !taken && f.file == Current(m).file
    ensures Ready(Inside(m, f), floor)
    ensures AgreesInside(m, f, Exec(Inside(m, f), floor, WriteBranches(branches)),
                         EvalBranches(branches, taken, f.route, f.host, m.world), |WriteBranches(branches)|)
    decreases branches, 0
  {
    hide Exec, Nested, Advance, Write;
    InsideReady(m, floor, f);
    if branches == [] {
      AdvanceNone(Inside(m, f), floor);
      AdvanceInside(m, f, 0);
    } else {
      BranchesUnfold(branches, taken, f.route, f.host, m.world);
      hide WriteBranches, Eval, EvalBranches;
      var nodes := branches[0].nodes;
      var k := |Write(nodes)|;
      var g := f.(enabled := taken, lineNumber := f.lineNumber + 1);
      Turn(m, floor, f);
      RunFirst(m, floor, g, nodes);
      ExecThree(Inside(m, f), floor, [Else], Write(nodes), WriteBranches(branches[1..]));
      var o := Exec(Inside(m, g), floor, Write(nodes));
      if o.ok {
        var m2 := m.(world := o.m.world);
        var h := g.(lineNumber := g.lineNumber + k);
        assert o.m == Inside(m2, h);
        SameStack(m, m2, floor);
        RunBranches(m2, floor, h, branches[1..], !taken);
      }
    }
  }

  lemma {:induction false} RunBlock(m: Machine, floor: nat, node: Node)
    requires Ready(m, floor) && Current(m).enabled && node.Block?
    ensures Agrees(m, Exec(m, floor, WriteNode(node)), EvalNode(node, Current(m).route, Current(m).host, m.world), |WriteNode(node)|)
    decreases node, 0
  {
    hide Exec, Nested, Advance, Write;
    var Block(opener, body) := node;
    var route, host, k := Current(m).route, Current(m).host, |Write(body)|;
    var tag := TagOf(opener);
    EnterBlock(m, floor, opener);
    ExecThree(m, floor, [Open(opener)], Write(body), [Close(tag)]);
    var i := Exec(m, floor, [Open(opener)]);
    if i.ok {
      var m1 := m.(world := i.m.world);
      SameStack(m, m1, floor);
      var f := i.m.stack[|m.stack|];
      assert i.m == Inside(m1, f);
      RunBody(m1, floor, f, body, tag);
      AdvanceIs(m, 1 + k + 1);
    }
  }

  /** The body and the closing line of a block with state f. */
  lemma {:induction false} RunBody(m: Machine, floor: nat, f: Frame, body: seq<Node>, tag: Tag)
    requires Ready(m, floor) && Current(m).enabled && f.enabled && f.file == Current(m).file && !tag.IfTag?
    ensures Ready(Inside(m, f), floor)
    ensures var b := Exec(Inside(m, f), floor, Write(body));
            var o := if b.ok then Exec(b.m, floor, [Close(tag)]) else b;
            var r := Eval(body, f.route, f.host, m.world);
            var a := if tag.HostTag? then AttachAll(r.world, f.host, f.endpoints) else (r.world, true);
            && b.ok == r.ok && (!b.ok ==> b.m.world == r.world)
            && (b.ok ==> o.ok == a.1)
            && (b.ok && !o.ok ==> o.m.world == a.0)
            && (b.ok && o.ok ==>
                  o.m.world == Finish(a.0, f.route, Current(m).route)
                  && o.m.stack == SetCurrent(m, Current(m).(lineNumber := f.lineNumber + |Write(body)| + 1)).stack)
    decreases body, 1
  {
    hide Exec, Nested, Advance, Write;
    InsideReady(m, floor, f);
    AdvanceInside(m, f, |Write(body)|);
    RunNodes(Inside(m, f), floor, body);
    var b := Exec(Inside(m, f), floor, Write(body));
    if b.ok {
      var m2 := m.(world := b.m.world);
      var g := f.(lineNumber := f.lineNumber + |Write(body)|);
      assert b.m == Inside(m2, g);
      SameStack(m, m2, floor);
      InsideReady(m2, floor, g);
      if tag.HostTag? {
        LeaveHost(m2, floor, g);
      } else {
        Leave(m2, floor, g, tag);
      }
    }
  }

  // ---- Include files ----

  lemma {:induction false} RunIncludes(m: Machine, floor: nat, node: Node)
    requires Ready(m, floor) && Current(m).enabled && node.Includes?
    ensures Agrees(m, Exec(m, floor, WriteNode(node)), EvalNode(node, Current(m).route, Current(m).host, m.world), |WriteNode(node)|)
    decreases node, 0
  {
    hide Exec, Nested, Advance, ParseFiles, WriteFiles;
    ExecOne(m, floor, Include(WriteFiles(node.files)));
    RunFiles(m, floor, node.files);
    AdvanceOfStack(m, ParseFiles(m, WriteFiles(node.files)).m);
  }

  lemma AdvanceOfStack(m: Machine, p: Machine)
    requires m.stack != [] && p.stack == m.stack
    ensures NextLine(p).stack == Advance(m, 1).stack && NextLine(p).world == p.world
  {
  }

  lemma {:induction false} RunFiles(m: Machine, floor: nat, files: seq<Source>)
    requires Ready(m, floor) && Current(m).enabled
    ensures var r := EvalFiles(files, Current(m).route, Current(m).host, m.world);
            ParseFiles(m, WriteFiles(files)) == Outcome(m.(world := r.world), r.ok)
    decreases files
  {
    hide Nested, ParseFile;
    if files != [] {
      RunFile(m, floor, files[0]);
      var o := ParseFile(m, WriteFile(files[0]));
      assert WriteFiles(files)[1..] == WriteFiles(files[1..]);
      if o.ok {
        SameStack(m, o.m, floor);
        RunFiles(o.m, floor, files[1..]);
      }
    }
  }

  /** The main result: parsing the lines of a tree does what the tree means, and leaves the stack as it was. */
  lemma {:induction false} RunFile(m: Machine, floor: nat, file: Source)
    requires Ready(m, floor) && Current(m).enabled
    ensures var r := EvalFile(file, Current(m).route, Current(m).host, m.world);
            ParseFile(m, WriteFile(file)) == Outcome(m.(world := r.world), r.ok)
    decreases file
  {
    hide Nested, Exec, Advance;
    var n := |m.stack|;
    match file
    case NoFile => ParseRestores(m, WriteFile(file));
    case Text(nodes) =>
      ParseRestores(m, WriteFile(file));
      var f := Entered(m).(file := Some(m.world.nextFile), lineNumber := 1);
      var m1 := m.(world := m.world.(nextFile := m.world.nextFile + 1));
      SameStack(m, m1, floor);
      FileReady(m1, n, f);
      assert OpenFile(Push(m)) == Inside(m1, f);
      RunNodes(Inside(m1, f), n, nodes);
      AdvanceInside(m1, f, |Write(nodes)|);
  }

  lemma FileReady(m: Machine, floor: nat, f: Frame)
    requires Nested(m.stack) && |m.stack| == floor && f.enabled == Current(m).enabled
    requires f.file.Some? ==> f.file.value < m.world.nextFile
    ensures Ready(Inside(m, f), floor) && Current(Inside(m, f)) == f
  {
  }

  lemma ParseRestores(m: Machine, file: File)
    requires Nested(m.stack)
    ensures Nested(Push(m).stack)
    ensures ParseFile(m, file) == ParseFileInner(Push(m), file).(m := m.(world := ParseFileInner(Push(m), file).m.world))
  {
  }
}
