/**
  The configuration parser itself (config.c): states are objects linked by prev, the innermost one is top->current, and
  directives push, pop and change them in place. Every procedure is proved to do what MaConfig says of the chain.
 */
module MaConfigParser {
  import opened Bytes
  import opened MaConfig

  /** A MaState. Its enclosing state never changes. */
  class MaState {
    const prev: MaState?
    var enabled: bool
    var conditional: bool
    var route: RouteId
    var host: HostId
    var file: Option<FileId>
    var endpoints: seq<bool>
    var lineNumber: int

    constructor (prev: MaState?, f: Frame)
      ensures this.prev == prev && AsFrame() == f
    {
      this.prev := prev;
      enabled, conditional, route, host := f.enabled, f.conditional, f.route, f.host;
      file, endpoints, lineNumber := f.file, f.endpoints, f.lineNumber;
    }

    function AsFrame(): Frame
      reads this
    {
      Frame(enabled, conditional, route, host, file, endpoints, lineNumber)
    }

    method Set(f: Frame)
      modifies this
      ensures AsFrame() == f
    {
      enabled, conditional, route, host := f.enabled, f.conditional, f.route, f.host;
      file, endpoints, lineNumber := f.file, f.endpoints, f.lineNumber;
    }
  }

  ghost function Frames(chain: seq<MaState>): (s: seq<Frame>)
    reads chain
    ensures |s| == |chain| && forall i :: 0 <= i < |chain| ==> s[i] == chain[i].AsFrame()
  {
    seq(|chain|, i requires 0 <= i < |chain| reads chain => chain[i].AsFrame())
  }

  /** States linked by prev from the outermost one, each its own object. */
  ghost predicate Linked(chain: seq<MaState>) {
    && |chain| > 0 && chain[0].prev == null
    && (forall i :: 0 < i < |chain| ==> chain[i].prev == chain[i - 1])
    && (forall i, j :: 0 <= i < j < |chain| ==> chain[i] != chain[j])
  }

  class ConfigParser {
    /** top->current, and the server. */
    var current: MaState
    var world: World
    /** The states from the outermost to the current one. */
    ghost var chain: seq<MaState>

    ghost predicate Valid()
      reads this
    {
      Linked(chain) && current == chain[|chain| - 1]
    }

    ghost function View(): Machine
      reads this, chain
    {
      Machine(Frames(chain), world)
    }

    /** createState. */
    constructor (route: RouteId, host: HostId, world: World)
      ensures Valid() && fresh(chain) && View() == Machine([Frame(true, false, route, host, None, [], 0)], world)
    {
      var state := new MaState(null, Frame(true, false, route, host, None, [], 0));
      current, chain, this.world := state, [state], world;
    }

    lemma StateFacts()
      requires Valid()
      ensures View().stack != [] && current.AsFrame() == Current(View()) && View().world == world && |View().stack| == |chain|
    {
    }

    lemma EnclosingFacts()
      requires Valid()
      ensures |View().stack| > 0 && (current.prev == null <==> |View().stack| == 1)
      ensures current.prev != null ==> current.prev.AsFrame() == View().stack[|View().stack| - 2]
    {
      ChainFacts(chain);
    }

    method SetState(f: Frame)
      requires Valid()
      modifies current
      ensures Valid() && View().stack != [] && old(View()).stack != [] && View() == SetCurrent(old(View()), f)
    {
      current.Set(f);
    }

    method SetWorld(w: World)
      requires Valid()
      modifies this`world
      ensures Valid() && View() == old(View()).(world := w)
    {
      world := w;
    }

    method MaPushState()
      requires Valid()
      modifies this`current, this`chain
      ensures Valid() && fresh(current) && chain == old(chain) + [current] && world == old(world) && Kept(old(chain), chain)
      ensures old(View()).stack != [] && View() == Push(old(View()))
    {
      var state := new MaState(current, current.AsFrame().(conditional := false, endpoints := []));
      current := state;
      chain := chain + [state];
    }

    /** maPopState of the current state. */
    method MaPopState()
      requires Valid()
      modifies this`current, this`chain, chain
      ensures Valid() && world == old(world) && Popped(old(chain), chain)
      ensures old(View()).stack != [] && View() == Pop(old(View()))
    {
      ChainFacts(chain);
      if current.prev == null {
        return;
      }
      var line := current.lineNumber;
      chain := chain[..|chain| - 1];
      current := current.prev;
      current.lineNumber := line;
    }

    method CloseDirective() returns (ok: bool)
      requires Valid()
      modifies this, chain
      ensures Valid() && Popped(old(chain), chain)
      ensures old(View()).stack != [] && Outcome(View(), ok) == CloseBlock(old(View()))
    {
      hide Linked, Frames, View, Popped;
      StateFacts();
      PoppedItself(chain);
      EnclosingFacts();
      if current.prev == null {
        return false;
      }
      if current.route != current.prev.route {
        SetWorld(world.(events := world.events + [Finalized(current.route)]));
      }
      MaPopState();
      return true;
    }

    method CloseVirtualHostDirective() returns (ok: bool)
      requires Valid()
      modifies this, chain
      ensures Valid() && Popped(old(chain), chain)
      ensures old(View()).stack != [] && Outcome(View(), ok) == CloseHost(old(View()))
    {
      hide Linked, Frames, View, Popped;
      StateFacts();
      PoppedItself(chain);
      if current.enabled {
        ok := AttachHost(current.host, current.endpoints);
        if !ok {
          return false;
        }
      }
      var ignored := CloseDirective();
      return true;
    }

    /** Add the host to each endpoint, up to the first that cannot be resolved. */
    method AttachHost(host: HostId, endpoints: seq<bool>) returns (ok: bool)
      requires Valid()
      modifies this`world
      ensures Valid() && (world, ok) == AttachAll(old(world), host, endpoints)
      ensures View() == old(View()).(world := world)
    {
      var i := 0;
      while i < |endpoints|
        invariant 0 <= i <= |endpoints|
        invariant AttachAll(old(world), host, endpoints) == AttachAll(world, host, endpoints[i..])
      {
        assert endpoints[i..][1..] == endpoints[i + 1..];
        if !endpoints[i] {
          return false;
        }
        world := world.(events := world.events + [Attached(host)]);
        i := i + 1;
      }
      return true;
    }

    method ElseDirective() returns (ok: bool)
      requires Valid() && Nested(View().stack)
      modifies current
      ensures Valid() && Outcome(View(), ok) == ElseBlock(old(View()))
    {
      hide Linked, Frames, View;
      StateFacts();
      EnclosingFacts();
      if !current.conditional {
        return false;
      }
      SetState(current.AsFrame().(enabled := current.prev.enabled && !current.enabled));
      return true;
    }

    method IfDirective(cond: int) returns (ok: bool)
      requires Valid()
      modifies this`current, this`chain
      ensures Valid() && Kept(old(chain), chain) && world == old(world)
      ensures old(View()).stack != [] && Outcome(View(), ok) == IfBlock(old(View()), cond)
    {
      hide Linked, Frames, View, Kept;
      MaPushState();
      StateFacts();
      var f := current.AsFrame();
      SetState(f.(conditional := true));
      if f.enabled {
        if cond < 0 {
          return false;
        }
        SetState(f.(conditional := true, enabled := cond != 0));
      }
      return true;
    }

    /** routeDirective, rerouteDirective and virtualHostDirective. */
    method BlockDirective(opener: Opener) returns (ok: bool)
      requires Valid()
      modifies this
      ensures Valid() && Kept(old(chain), chain)
      ensures old(View()).stack != [] && Outcome(View(), ok) == OpenBlock(old(View()), opener)
    {
      hide Linked, Frames, View, Kept;
      MaPushState();
      StateFacts();
      var f := current.AsFrame();
      if !f.enabled {
        return true;
      }
      match opener {
        case Route(wellFormed) =>
          SetState(f.(route := world.nextRoute));
          SetWorld(world.(nextRoute := world.nextRoute + 1));
          ok := wellFormed;
        case Reroute(target) =>
          ok := Exists(world, target);
          if ok {
            SetState(f.(route := target.value));
          }
        case VirtualHost(addresses) =>
          f := f.(route := world.nextRoute, host := world.nextHost);
          SetState(if addresses.Some? then f.(endpoints := addresses.value) else f);
          SetWorld(world.(nextRoute := world.nextRoute + 1, nextHost := world.nextHost + 1));
          ok := addresses.Some?;
      }
    }

    twostate lemma KeptPopped()
      requires Valid() && Popped(old(chain), chain)
      ensures Kept(old(chain), chain)
    {
    }

    twostate lemma KeptItself()
      requires Valid() && chain == old(chain)
      ensures Kept(old(chain), chain)
    {
      assert chain[..|chain| - 1] <= chain;
    }

    /** The directive of a line. */
    method RunDirective(line: Line) returns (ok: bool)
      requires Valid() && Nested(View().stack)
      modifies this, chain
      ensures Valid() && Kept(old(chain), chain) && Outcome(View(), ok) == Directive(old(View()), line)
      decreases line, 0
    {
      hide Linked, Frames, View, Kept, Nested;
      KeptItself();
      match line {
        case Blank => ok := true;
        case Leaf(name, works) =>
          StateFacts();
          if works {
            SetWorld(world.(events := world.events + [Applied(name, current.route, current.host)]));
          }
          ok := works;
        case If(cond) => ok := IfDirective(cond);
        case Else => ok := ElseDirective();
        case Open(opener) => ok := BlockDirective(opener);
        case Close(tag) =>
          if tag.HostTag? {
            ok := CloseVirtualHostDirective();
          } else {
            ok := CloseDirective();
          }
          KeptPopped();
        case Include(files) => ok := IncludeDirective(files);
        case Unknown(_) => ok := false;
      }
    }

    method IncludeDirective(files: seq<File>) returns (ok: bool)
      requires Valid() && Nested(View().stack)
      modifies this, chain
      ensures Valid() && chain == old(chain) && Kept(old(chain), chain) && Outcome(View(), ok) == ParseFiles(old(View()), files)
      decreases files
    {
      hide Linked, Frames, View, Kept, Nested, ParseFile;
      var i := 0;
      ghost var start := View();
      assert files[0..] == files;
      KeptItself();
      while i < |files|
        invariant 0 <= i <= |files| && Valid() && chain == old(chain) && Nested(View().stack)
        invariant ParseFiles(start, files) == ParseFiles(View(), files[i..])
      {
        assert files[i..][0] == files[i] && files[i..][1..] == files[i + 1..];
        ok := MaParseFile(files[i]);
        if !ok {
          KeptItself();
          return;
        }
        i := i + 1;
      }
      KeptItself();
      return true;
    }

    /** maParseFile under a current state: the file's state is popped, whatever the current one is by then. */
    method MaParseFile(file: File) returns (ok: bool)
      requires Valid() && Nested(View().stack)
      modifies this, chain
      ensures Valid() && chain == old(chain) && Outcome(View(), ok) == ParseFile(old(View()), file)
      decreases file, 2
    {
      hide Nested, Linked, Frames, View, ParseFileInner;
      StateFacts();
      ghost var outer, was := chain, View();
      var lineNumber := current.lineNumber;
      MaPushState();
      PushNested(was);
      var state := current;
      StateBelow(outer);
      ok := ParseFileInto(file);
      StateFacts();
      PopFileState(state, outer, lineNumber);
      StateFacts();
    }

    lemma StateBelow(outer: seq<MaState>)
      requires Valid() && chain == outer + [current] && outer != []
      ensures current.prev == outer[|outer| - 1] && chain[..|chain| - 1] == outer && outer[|outer| - 1] in outer
    {
      assert chain[|outer|].prev == chain[|outer| - 1];
    }

    /** maPopState of a file's own state, and the line number of the state around it. */
    method PopFileState(state: MaState, ghost outer: seq<MaState>, lineNumber: int)
      requires Valid() && outer != [] && outer <= chain && state.prev == outer[|outer| - 1]
      modifies this`current, this`chain, outer[|outer| - 1]
      ensures Valid() && chain == outer && world == old(world)
      ensures var n := |outer|;
              var s := old(View()).stack;
              |s| >= n && View().stack == s[..n][n - 1 := s[n - 1].(lineNumber := lineNumber)]
    {
      state.prev.lineNumber := state.lineNumber;
      current := state.prev;
      chain := outer;
      current.lineNumber := lineNumber;
    }

    lemma PushNested(m: Machine)
      requires Nested(m.stack)
      ensures Nested(Push(m).stack)
    {
    }

    /** parseFileInner; the current state is the floor. */
    method ParseFileInto(file: File) returns (ok: bool)
      requires Valid() && Nested(View().stack)
      modifies this, chain
      ensures Valid() && Kept(old(chain), chain) && Outcome(View(), ok) == ParseFileInner(old(View()), file)
      decreases file, 1
    {
      hide Linked, Frames, View, Nested, Exec;
      StateFacts();
      OpenNested(View());
      var f := current.AsFrame();
      match file {
        case Missing =>
          SetState(f.(file := None));
          return false;
        case Lines(lines) =>
          SetState(f.(file := Some(world.nextFile), lineNumber := 1));
          SetWorld(world.(nextFile := world.nextFile + 1));
          FloorFacts(|chain| - 1);
          ok := RunLines(lines, current, |chain| - 1);
          StateFacts();
          EnclosingFacts();
          if ok && current.prev != null && current.file == current.prev.file {
            ok := false;
          }
      }
    }

    lemma OpenNested(m: Machine)
      requires Nested(m.stack) && m.stack != []
      ensures Nested(OpenFile(m).stack)
    {
    }

    /** The loop of parseFileInner. The floor has n states below it. */
    method RunLines(lines: seq<Line>, floor: MaState, ghost n: nat) returns (ok: bool)
      requires Valid() && Nested(View().stack) && n < |chain| && floor.prev == (if n == 0 then null else chain[n - 1])
      modifies this, chain
      ensures Valid() && KeptFrom(old(chain), n, chain)
      ensures |old(View()).stack| > n && Outcome(View(), ok) == Exec(old(View()), n, lines)
      decreases lines
    {
      hide Nested, Exec, Process, Linked, Frames, View, NextLine;
      ghost var start, before := View(), chain;
      StateFacts();
      var i := 0;
      assert lines[0..] == lines;
      while i < |lines|
        invariant 0 <= i <= |lines| && Valid() && Nested(View().stack) && |chain| > n && |View().stack| > n
        invariant before[..n] <= chain && forall k :: 0 <= k < |chain| ==> chain[k] in before || fresh(chain[k])
        invariant Exec(start, n, lines) == Exec(View(), n, lines[i..])
      {
        ExecStep(View(), n, lines, i);
        ghost var mid := chain;
        ok := PassLine(lines[i], floor, n);
        forall k | 0 <= k < |chain| ensures chain[k] in before || fresh(chain[k]) {
          assert chain[k] in chain;
          if chain[k] in mid {
            var j :| 0 <= j < |mid| && mid[j] == chain[k];
          }
        }
        if !ok {
          return;
        }
        StateFacts();
        i := i + 1;
      }
      ExecEnd(View(), n, lines);
      return true;
    }

    /** One line, and the line count unless the line failed or closed the file's own state. */
    method PassLine(line: Line, floor: MaState, ghost n: nat) returns (ok: bool)
      requires Valid() && Nested(View().stack) && n < |chain| && floor.prev == (if n == 0 then null else chain[n - 1])
      modifies this, chain
      ensures Valid() && KeptFrom(old(chain), n, chain) && (ok ==> |chain| > n)
      ensures var o := Process(old(View()), line);
              if !o.ok || |o.m.stack| == n then !ok && View() == o.m else ok && o.m.stack != [] && View() == NextLine(o.m)
      decreases line, 2
    {
      hide Nested, Process, Linked, Frames, View;
      ghost var before := chain;
      ok := RunLine(line);
      StateFacts();
      BackAtFloor(before, n, floor);
      if !ok || current == floor.prev {
        return false;
      }
      assert current in chain;
      SetState(current.AsFrame().(lineNumber := current.lineNumber + 1));
    }

    method RunLine(line: Line) returns (ok: bool)
      requires Valid() && Nested(View().stack)
      modifies this, chain
      ensures Valid() && Kept(old(chain), chain) && Outcome(View(), ok) == Process(old(View()), line)
      decreases line, 1
    {
      hide Linked, Frames, View, Kept, Nested;
      KeptItself();
      StateFacts();
      if Skipped(current.AsFrame(), line) {
        return true;
      }
      ok := RunDirective(line);
    }

    lemma FloorFacts(n: nat)
      requires Valid() && n < |chain|
      ensures |View().stack| == |chain| && chain[n].prev == (if n == 0 then null else chain[n - 1])
    {
    }

    /** The current state is the one below the floor exactly when all states of the file have been popped. */
    lemma BackAtFloor(before: seq<MaState>, n: nat, floor: MaState)
      requires Valid() && n < |before| && before[..n] <= chain && floor.prev == (if n == 0 then null else before[n - 1])
      ensures current == floor.prev <==> |chain| == n
    {
      if n > 0 {
        assert chain[n - 1] == before[..n][n - 1] == floor.prev;
      }
    }
  }

  /** At most the current state is gone. */
  ghost predicate Popped(before: seq<MaState>, after: seq<MaState>) {
    |before| > 0 && before[..|before| - 1] <= after <= before
  }

  lemma PoppedItself(chain: seq<MaState>)
    requires chain != []
    ensures Popped(chain, chain)
  {
  }

  /** The first n states are kept, and any state that is added is new. */
  twostate predicate KeptFrom(before: seq<MaState>, n: nat, new after: seq<MaState>) {
    n <= |before| && before[..n] <= after && forall s <- after :: s in before || fresh(s)
  }

  /** A directive keeps the states below the current one. */
  twostate predicate Kept(before: seq<MaState>, new after: seq<MaState>) {
    |before| > 0 && KeptFrom(before, |before| - 1, after)
  }

  lemma ExecStep(m: Machine, floor: nat, lines: seq<Line>, i: nat)
    requires Nested(m.stack) && |m.stack| > floor && i < |lines|
    ensures var o := Process(m, lines[i]);
            && o.m.stack != [] && Nested(o.m.stack) && floor <= |o.m.stack|
            && (|o.m.stack| > floor ==> Nested(NextLine(o.m).stack))
            && Exec(m, floor, lines[i..])
               == if !o.ok || |o.m.stack| == floor then o.(ok := false) else Exec(NextLine(o.m), floor, lines[i + 1..])
  {
    hide Process;
    var o := Process(m, lines[i]);
    LineKeeps(m.stack, floor, o.m.stack);
    if |o.m.stack| > floor {
      NextLineKeeps(o.m, floor);
    }
    hide Nested, Above, StepKeeps, NextLine;
    assert lines[i..][0] == lines[i] && lines[i..][1..] == lines[i + 1..];
  }

  lemma ExecEnd(m: Machine, floor: nat, lines: seq<Line>)
    requires Nested(m.stack) && |m.stack| > floor
    ensures Exec(m, floor, lines[|lines|..]) == Outcome(m, true)
  {
  }

  lemma ChainFacts(chain: seq<MaState>)
    requires Linked(chain)
    ensures chain != [] && (chain[|chain| - 1].prev == null <==> |chain| == 1)
    ensures |chain| > 1 ==> chain[|chain| - 1].prev == chain[|chain| - 2]
  {
    if |chain| == 1 {
      assert chain[|chain| - 1] == chain[0];
    } else {
      var n := |chain| - 1;
      assert chain[n].prev == chain[n - 1];
    }
  }
}
