/**
  Which files the configuration parser accepts, whatever their lines: openers and closers that are processed never go
  below the file's floor and come back to it. The one exception is a </VirtualHost> in an outermost file.
 */
module MaConfigAcceptance {
  import opened Bytes
  import opened MaConfig
  import opened MaConfigTree

  // ---- Each line ----

  /** Blocks opened by a line that is processed. */
  function Delta(f: Frame, line: Line): int {
    if Skipped(f, line) then 0
    else
      match line
      case If(_) => 1
      case Open(_) => 1
      case Close(_) => -1
      case _ => 0
  }

  /** What a processed line does to the depth, the line number and the files of the states. */
  ghost predicate Effect(m: Machine, o: Outcome, d: int)
    requires m.stack != []
  {
    && o.m.stack != []
    && (forall i :: 0 <= i < |o.m.stack| ==>
          o.m.stack[i].file == m.stack[if i < |m.stack| then i else |m.stack| - 1].file)
    && (o.ok ==> Current(o.m).lineNumber == Current(m).lineNumber && |o.m.stack| == |m.stack| + d)
  }

  lemma SameEffect(m: Machine, o: Outcome)
    requires m.stack != [] && o.m.stack == m.stack
    ensures Effect(m, o, 0)
  {
  }

  lemma OpenEffect(m: Machine, cond: int, opener: Opener)
    requires m.stack != []
    ensures Effect(m, IfBlock(m, cond), 1) && Effect(m, OpenBlock(m, opener), 1)
  {
  }

  lemma CloseBlockEffect(m: Machine)
    requires m.stack != []
    ensures Effect(m, CloseBlock(m), -1) && (|m.stack| == 1 ==> CloseBlock(m) == Outcome(m, false))
  {
  }

  /** Closing a virtual host's block with its result dropped. */
  lemma HostEffect(m: Machine, w: World)
    requires m.stack != []
    ensures Effect(m, Outcome(CloseBlock(m.(world := w)).m, true), if |m.stack| == 1 then 0 else -1)
    ensures Effect(m, Outcome(m.(world := w), false), if |m.stack| == 1 then 0 else -1)
  {
    CloseBlockEffect(m.(world := w));
    hide CloseBlock;
  }

  lemma CloseEffect(m: Machine)
    requires m.stack != []
    ensures Effect(m, CloseBlock(m), -1) && Effect(m, CloseHost(m), if |m.stack| == 1 then 0 else -1)
  {
    hide CloseBlock, AttachAll, Effect;
    CloseBlockEffect(m);
    var w := (if Current(m).enabled then AttachAll(m.world, Current(m).host, Current(m).endpoints) else (m.world, true)).0;
    HostEffect(m, w);
  }

  lemma ElseEffect(m: Machine)
    requires Nested(m.stack)
    ensures Effect(m, ElseBlock(m), 0)
  {
  }

  lemma IncludeEffect(m: Machine, files: seq<File>)
    requires Nested(m.stack)
    ensures m.stack != [] && Effect(m, ParseFiles(m, files), 0)
  {
    SameEffect(m, ParseFiles(m, files));
  }

  lemma PlainLine(m: Machine, line: Line)
    requires Nested(m.stack) && (line.Blank? || line.Leaf? || line.Unknown?)
    ensures Process(m, line).m.stack == m.stack && Delta(Current(m), line) == 0
  {
  }

  lemma LineEffect(m: Machine, line: Line)
    requires Nested(m.stack)
    ensures m.stack != []
    ensures Effect(m, Process(m, line), if line == Close(HostTag) && |m.stack| == 1 then 0 else Delta(Current(m), line))
  {
    SameKeeps(m.stack);
    hide Nested, StepKeeps, ParseFiles, Effect, IfBlock, OpenBlock, CloseBlock, CloseHost, ElseBlock;
    match line
    case If(cond) => OpenEffect(m, cond, Route(true));
    case Open(opener) => OpenEffect(m, 0, opener);
    case Close(_) =>
      CloseEffect(m);
      SameEffect(m, Outcome(m, true));
    case Else => ElseEffect(m);
    case Include(files) =>
      IncludeEffect(m, files);
      SameEffect(m, Outcome(m, true));
    case _ =>
      PlainLine(m, line);
      SameEffect(m, Process(m, line));
  }

  /** The openers less the closers that the loop has processed. */
  function Balance(m: Machine, floor: nat, lines: seq<Line>): int
    requires Nested(m.stack) && |m.stack| > floor
    decreases |lines|
  {
    hide Nested, Above, StepKeeps, NextLine;
    if lines == [] then 0
    else
      var o := Process(m, lines[0]);
      var d := Delta(Current(m), lines[0]);
      LineKeeps(m.stack, floor, o.m.stack);
      if !o.ok || |o.m.stack| == floor then d
      else
        NextLineKeeps(o.m, floor);
        d + Balance(NextLine(o.m), floor, lines[1..])
  }

  // ---- Whole files ----

  /** The states of the file being parsed are those at or above the floor. */
  predicate OneFile(s: seq<Frame>, floor: nat, id: FileId) {
    (forall i :: floor <= i < |s| ==> s[i].file == Some(id)) && (0 < floor <= |s| ==> s[floor - 1].file != Some(id))
  }

  lemma NextLineEffect(m: Machine)
    requires m.stack != []
    ensures |NextLine(m).stack| == |m.stack| && Current(NextLine(m)).lineNumber == Current(m).lineNumber + 1
    ensures forall i :: 0 <= i < |m.stack| ==> NextLine(m).stack[i].file == m.stack[i].file
    ensures NextLine(m).world == m.world
  {
  }

  /**
    The loop counts its lines, keeps the states of other files apart, and its depth is the balance of what it has
    processed. An outermost file may ignore a </VirtualHost>, so there the balance is not the depth.
   */
  lemma {:induction false} ExecEffect(m: Machine, floor: nat, lines: seq<Line>, id: FileId)
    requires Nested(m.stack) && |m.stack| > floor && OneFile(m.stack, floor, id)
    ensures var o := Exec(m, floor, lines);
            && (o.ok ==> OneFile(o.m.stack, floor, id) && Current(o.m).lineNumber == Current(m).lineNumber + |lines|)
            && (o.ok && floor > 0 ==> |o.m.stack| == |m.stack| + Balance(m, floor, lines))
    decreases |lines|
  {
    hide Nested, Above, StepKeeps, NextLine, Process, Delta;
    if lines != [] {
      var o := Process(m, lines[0]);
      LineEffect(m, lines[0]);
      LineKeeps(m.stack, floor, o.m.stack);
      if o.ok && |o.m.stack| != floor {
        NextLineKeeps(o.m, floor);
        NextLineEffect(o.m);
        ExecEffect(NextLine(o.m), floor, lines[1..], id);
      }
    }
  }

  // ---- Prefixes ----

  lemma PrefixOk(m: Machine, floor: nat, lines: seq<Line>, k: nat)
    requires Nested(m.stack) && |m.stack| > floor && k < |lines|
    ensures var p := Exec(m, floor, lines[..k]);
            && Exec(m, floor, lines[..k + 1])
               == (if !p.ok then p
                   else
                     var o := Process(p.m, lines[k]);
                     if o.ok && |o.m.stack| != floor then Outcome(NextLine(o.m), true) else o.(ok := false))
            && (Exec(m, floor, lines).ok ==> Exec(m, floor, lines[..k + 1]).ok)
  {
    hide Nested, Exec, NextLine, Process;
    assert lines[..k + 1] == lines[..k] + [lines[k]];
    assert lines == lines[..k + 1] + lines[k + 1..];
    ExecAppend(m, floor, lines[..k], [lines[k]]);
    ExecAppend(m, floor, lines[..k + 1], lines[k + 1..]);
    var p := Exec(m, floor, lines[..k]);
    if p.ok {
      ExecOne(p.m, floor, lines[k]);
    }
  }

  /** Balances add up along the file, as far as it runs. */
  lemma {:induction false} BalanceAppend(m: Machine, floor: nat, a: seq<Line>, b: seq<Line>)
    requires Nested(m.stack) && |m.stack| > floor
    ensures var o := Exec(m, floor, a);
            Balance(m, floor, a + b) == Balance(m, floor, a) + if o.ok then Balance(o.m, floor, b) else 0
    decreases |a|
  {
    hide Nested, Above, StepKeeps, NextLine, Process, Delta;
    if a == [] {
      assert a + b == b;
    } else {
      assert (a + b)[0] == a[0] && (a + b)[1..] == a[1..] + b;
      var o := Process(m, a[0]);
      LineKeeps(m.stack, floor, o.m.stack);
      if o.ok && |o.m.stack| != floor {
        NextLineKeeps(o.m, floor);
        BalanceAppend(NextLine(o.m), floor, a[1..], b);
      }
    }
  }

  lemma BalanceOne(m: Machine, floor: nat, line: Line)
    requires Nested(m.stack) && |m.stack| > floor
    ensures Balance(m, floor, [line]) == Delta(Current(m), line)
  {
    hide Nested, Process, Delta;
    LineKeeps(m.stack, floor, Process(m, line).m.stack);
    NextLineKeeps(Process(m, line).m, 0);
    assert [line][1..] == [];
  }

  lemma PrefixBalance(m: Machine, floor: nat, lines: seq<Line>, k: nat)
    requires Nested(m.stack) && |m.stack| > floor && k < |lines|
    ensures var p := Exec(m, floor, lines[..k]);
            p.ok ==> Balance(m, floor, lines[..k + 1]) == Balance(m, floor, lines[..k]) + Delta(Current(p.m), lines[k])
  {
    hide Nested, Exec, Balance, Delta;
    assert lines[..k + 1] == lines[..k] + [lines[k]];
    BalanceAppend(m, floor, lines[..k], [lines[k]]);
    var p := Exec(m, floor, lines[..k]);
    if p.ok {
      BalanceOne(p.m, floor, lines[k]);
    }
  }

  /** Line k's directive succeeds, if the loop reaches it. */
  ghost predicate LineSucceeds(m: Machine, floor: nat, lines: seq<Line>, k: nat)
    requires Nested(m.stack) && |m.stack| > floor && k < |lines|
  {
    Exec(m, floor, lines[..k]).ok ==> Process(Exec(m, floor, lines[..k]).m, lines[k]).ok
  }

  /** The first k lines do not close more than they open. */
  ghost predicate NotBelow(m: Machine, floor: nat, lines: seq<Line>, k: nat)
    requires Nested(m.stack) && |m.stack| > floor && k <= |lines|
  {
    Balance(m, floor, lines[..k]) >= 0
  }

  /** A line of an included file is passed exactly when its directive succeeds and the balance stays at zero or above. */
  lemma LinePasses(m: Machine, floor: nat, lines: seq<Line>, k: nat, id: FileId)
    requires Nested(m.stack) && |m.stack| == floor + 1 && floor > 0 && OneFile(m.stack, floor, id) && k < |lines|
    requires Exec(m, floor, lines[..k]).ok
    ensures var o := Process(Exec(m, floor, lines[..k]).m, lines[k]);
            && (Exec(m, floor, lines[..k + 1]).ok <==> o.ok && |o.m.stack| != floor)
            && (o.ok ==> |o.m.stack| == floor + 1 + Balance(m, floor, lines[..k + 1]) >= floor)
  {
    hide Nested, Exec, Balance, Delta, Process;
    var p := Exec(m, floor, lines[..k]);
    ExecEffect(m, floor, lines[..k], id);
    PrefixOk(m, floor, lines, k);
    PrefixBalance(m, floor, lines, k);
    LineEffect(p.m, lines[k]);
    LineKeeps(p.m.stack, floor, Process(p.m, lines[k]).m.stack);
  }

  lemma OneMoreLine(m: Machine, floor: nat, lines: seq<Line>, k: nat, id: FileId)
    requires Nested(m.stack) && |m.stack| == floor + 1 && floor > 0 && OneFile(m.stack, floor, id) && k < |lines|
    ensures Exec(m, floor, lines[..k + 1]).ok
            <==> Exec(m, floor, lines[..k]).ok && LineSucceeds(m, floor, lines, k) && NotBelow(m, floor, lines, k + 1)
  {
    hide Nested, Exec, Balance, Process;
    PrefixOk(m, floor, lines, k);
    if Exec(m, floor, lines[..k]).ok {
      LinePasses(m, floor, lines, k, id);
    }
  }

  lemma NoLines(m: Machine, floor: nat, lines: seq<Line>)
    requires Nested(m.stack) && |m.stack| > floor
    ensures Exec(m, floor, lines[..0]).ok && NotBelow(m, floor, lines, 0)
  {
  }

  /** The loop gets to the end exactly when no directive fails and no prefix closes more than it opened. */
  lemma {:induction false} ExecSucceeds(m: Machine, floor: nat, lines: seq<Line>, id: FileId, n: nat)
    requires Nested(m.stack) && |m.stack| == floor + 1 && floor > 0 && OneFile(m.stack, floor, id) && n <= |lines|
    ensures Exec(m, floor, lines[..n]).ok
            <==> (forall k :: 0 <= k < n ==> LineSucceeds(m, floor, lines, k))
                 && (forall k :: 0 <= k <= n ==> NotBelow(m, floor, lines, k))
    decreases n
  {
    hide LineSucceeds, NotBelow, Exec, Nested;
    if n == 0 {
      NoLines(m, floor, lines);
    } else {
      ExecSucceeds(m, floor, lines, id, n - 1);
      OneMoreLine(m, floor, lines, n - 1, id);
    }
  }

  /**
    A file that was included, or parsed by maParseConfig, is accepted exactly when no directive fails, the closers
    never outnumber the openers, and at its end they are equal. Whatever happens, the caller's states come back.
   */
  lemma AcceptedIffBalanced(m: Machine, lines: seq<Line>)
    requires Nested(m.stack) && FileKnown(m)
    ensures var q, floor := OpenFile(Push(m)), |m.stack|;
            && Nested(q.stack) && |q.stack| > floor
            && (ParseFile(m, Lines(lines)).ok
                <==> (forall k :: 0 <= k < |lines| ==> LineSucceeds(q, floor, lines, k))
                     && (forall k :: 0 <= k <= |lines| ==> NotBelow(q, floor, lines, k))
                     && Balance(q, floor, lines) == 0)
            && ParseFile(m, Lines(lines)).m.stack == m.stack
  {
    hide Exec, Balance, Process, OpenFile, FileKnown, LineSucceeds, NotBelow, ParseFile, ParseFileInner, Unclosed;
    var q, floor := OpenFile(Push(m)), |m.stack|;
    var id := m.world.nextFile;
    ParseOk(m, lines);
    ExecSucceeds(q, floor, lines, id, |lines|);
    assert lines[..|lines|] == lines;
    ExecEffect(q, floor, lines, id);
    var o := Exec(q, floor, lines);
    if o.ok {
      EndOfFile(o.m, floor, id);
    }
  }

  /** Opening a file and running its lines to the end. */
  lemma ParseOk(m: Machine, lines: seq<Line>)
    requires Nested(m.stack) && FileKnown(m)
    ensures var q, floor := OpenFile(Push(m)), |m.stack|;
            && Nested(q.stack) && |q.stack| == floor + 1 && floor > 0 && OneFile(q.stack, floor, m.world.nextFile)
            && (ParseFile(m, Lines(lines)).ok <==> Exec(q, floor, lines).ok && !Unclosed(Exec(q, floor, lines).m))
            && ParseFile(m, Lines(lines)).m == m.(world := Exec(q, floor, lines).m.world)
  {
    hide Exec, Unclosed, ParseFile, ParseFileInner;
    ParseRestores(m, Lines(lines));
    OpenedFile(m);
    InnerIs(Push(m), lines);
    hide OpenFile, Push, Nested, FileKnown;
  }

  lemma OpenedFile(m: Machine)
    requires Nested(m.stack) && FileKnown(m)
    ensures var q, floor := OpenFile(Push(m)), |m.stack|;
            Nested(q.stack) && |q.stack| == floor + 1 && floor > 0 && OneFile(q.stack, floor, m.world.nextFile)
  {
  }

  lemma InnerIs(m: Machine, lines: seq<Line>)
    requires Nested(m.stack)
    ensures Nested(OpenFile(m).stack) && |OpenFile(m).stack| == |m.stack| > 0
    ensures var o := Exec(OpenFile(m), |m.stack| - 1, lines);
            ParseFileInner(m, Lines(lines)) == o.(ok := o.ok && !Unclosed(o.m))
  {
    hide Exec, Unclosed;
  }

  /** At the end of a file two states of it on top mean an unclosed block. */
  lemma EndOfFile(m: Machine, floor: nat, id: FileId)
    requires |m.stack| > floor > 0 && OneFile(m.stack, floor, id)
    ensures Unclosed(m) <==> |m.stack| > floor + 1
  {
  }

  /** Line k of a file is processed with line number k + 1, through every block and include before it. */
  lemma LineNumbers(m: Machine, lines: seq<Line>, k: nat)
    requires Nested(m.stack) && FileKnown(m) && k < |lines|
    ensures var q := OpenFile(Push(m));
            && Nested(q.stack) && |q.stack| > |m.stack|
            && var o := Exec(q, |m.stack|, lines[..k]);
               o.ok ==> Current(o.m).lineNumber == k + 1
  {
    var q, id := OpenFile(Push(m)), m.world.nextFile;
    assert Nested(q.stack) && OneFile(q.stack, |m.stack|, id);
    ExecEffect(q, |m.stack|, lines[..k], id);
  }

  /** An enabled state has only enabled states around it, at every point of a run. */
  lemma {:induction false} EnabledAllTheWayDown(s: seq<Frame>, i: nat, j: nat)
    requires Nested(s) && i <= j < |s| && s[j].enabled
    ensures s[i].enabled
    decreases j
  {
    if i < j {
      EnabledAllTheWayDown(s, i, j - 1);
    }
  }

  // ---- One closer too many ----

  /**
    A closer with no block of its file open is refused, except for </VirtualHost> in a file that was given no
    enclosing state: closeVirtualHostDirective drops the error and the line does nothing.
   */
  lemma OneCloserTooMany(m: Machine, floor: nat, tag: Tag)
    requires Nested(m.stack) && |m.stack| == floor + 1 && Current(m).enabled
    ensures var o := Exec(m, floor, [Close(tag)]);
            && (o.ok <==> floor == 0 && tag.HostTag? && forall i :: 0 <= i < |Current(m).endpoints| ==> Current(m).endpoints[i])
            && (o.ok ==> o.m.stack == NextLine(m).stack)
  {
    ExecOne(m, floor, Close(tag));
  }

  /** The outermost state of createState. */
  const TOP := Frame(true, false, 0, 0, None, [], 0)

  /** The same file, one stray line, parsed with and without an enclosing state. */
  lemma StrayHostCloser(tag: Tag, w: World)
    ensures ParseFileInner(Machine([TOP], w), Lines([Close(tag)])).ok <==> tag.HostTag?
    ensures !ParseFile(Machine([TOP], w), Lines([Close(tag)])).ok
  {
    var m := Machine([TOP], w);
    OneCloserTooMany(OpenFile(m), 0, tag);
    OneCloserTooMany(OpenFile(Push(m)), 1, tag);
  }

  // ---- The kind of a closer ----

  /** <Route> closed by </If>: accepted, and the route is finalized. */
  lemma RouteClosedByIf(w: World)
    requires w.nextRoute > 0
    ensures var o := ParseFile(Machine([TOP], w), Lines([Open(Route(true)), Close(IfTag)]));
            o.ok && o.m.world.events == w.events + [Finalized(w.nextRoute)]
  {
    hide Exec, ParseFile, OpenFile, Nested, Unclosed;
    var m := Machine([TOP], w);
    TopIsReady(w);
    ParseOk(m, [Open(Route(true)), Close(IfTag)]);
    RouteThenIf(OpenFile(Push(m)));
  }

  lemma TopIsReady(w: World)
    ensures var m := Machine([TOP], w);
            && Nested(m.stack) && FileKnown(m)
            && var q := OpenFile(Push(m));
               Ready(q, 1) && |q.stack| == 2 && Current(q).enabled && Current(q).route == 0 && Current(q).file != q.stack[0].file
               && q.world == w.(nextFile := w.nextFile + 1)
  {
  }

  lemma RouteThenIf(q: Machine)
    requires Ready(q, 1) && Current(q).enabled && Current(q).route < q.world.nextRoute
    requires |q.stack| == 2 && Current(q).file != q.stack[0].file
    ensures var o := Exec(q, 1, [Open(Route(true)), Close(IfTag)]);
            o.ok && !Unclosed(o.m) && o.m.world.events == q.world.events + [Finalized(q.world.nextRoute)]
  {
    hide Exec, Nested, Ready;
    ReadyIsNested(q);
    var v := q.(world := q.world.(nextRoute := q.world.nextRoute + 1));
    var f := Entered(q).(route := q.world.nextRoute);
    var lines := [Open(Route(true)), Close(IfTag)];
    assert lines == [lines[0]] + [lines[1]];
    ExecAppend(q, 1, [lines[0]], [lines[1]]);
    EnterBlock(q, 1, Route(true));
    assert Exec(q, 1, [lines[0]]) == Outcome(Inside(v, f), true);
    InsideAgain(q, v, f);
    Leave(v, 1, f, IfTag);
  }

  lemma ReadyIsNested(q: Machine)
    requires Ready(q, 1)
    ensures Nested(q.stack) && |q.stack| > 1
  {
  }

  lemma InsideAgain(q: Machine, v: Machine, f: Frame)
    requires Ready(q, 1) && v.stack == q.stack && v.world.nextFile == q.world.nextFile && f.enabled && Current(q).enabled
    ensures Ready(v, 1) && Nested(Inside(v, f).stack)
  {
  }

  /** A closer of a block other than a virtual host, or of a virtual host without endpoints that has a state below it. */
  predicate PlainCloser(m: Machine, line: Line)
    requires m.stack != []
  {
    line.Close? && (line.tag.HostTag? ==> |m.stack| > 1 && Current(m).endpoints == [])
  }

  /**
    Two plain closers do the same exactly in an enabled block, or when both or neither are </If>: in a disabled block
    only </If> is seen.
   */
  lemma TagMattersIff(m: Machine, t: Tag, t': Tag)
    requires Nested(m.stack) && m.stack != [] && PlainCloser(m, Close(t)) && PlainCloser(m, Close(t'))
    ensures Process(m, Close(t)) == Process(m, Close(t')) <==> Current(m).enabled || (t.IfTag? <==> t'.IfTag?)
  {
    hide Nested, StepKeeps;
    CloseShrinks(m);
  }

  lemma CloseShrinks(m: Machine)
    requires m.stack != []
    ensures CloseBlock(m) != Outcome(m, true)
    ensures Current(m).endpoints == [] && |m.stack| > 1 ==> CloseHost(m) == CloseBlock(m)
  {
  }

  /** Line k of a file is reached with state m, where its closer may be exchanged for another. */
  ghost predicate SameButTag(m: Machine, a: Line, b: Line)
    requires m.stack != []
  {
    a == b || (PlainCloser(m, a) && PlainCloser(m, b) && (Current(m).enabled || (a.tag.IfTag? <==> b.tag.IfTag?)))
  }

  /** Exchanging closers where their kind does not matter gives the same run, so the same acceptance and events. */
  lemma {:induction false} TagsAreNotMatched(m: Machine, floor: nat, a: seq<Line>, b: seq<Line>)
    requires Nested(m.stack) && |m.stack| > floor && |a| == |b|
    requires forall k :: 0 <= k < |a| && Exec(m, floor, a[..k]).ok ==> SameButTag(Exec(m, floor, a[..k]).m, a[k], b[k])
    ensures Exec(m, floor, a) == Exec(m, floor, b)
    decreases |a|
  {
    hide Nested, Process, SameButTag;
    if a != [] {
      var n := |a| - 1;
      forall k | 0 <= k < n && Exec(m, floor, a[..n][..k]).ok ensures SameButTag(Exec(m, floor, a[..n][..k]).m, a[..n][k], b[..n][k]) {
        assert a[..n][..k] == a[..k];
      }
      TagsAreNotMatched(m, floor, a[..n], b[..n]);
      PrefixOk(m, floor, a, n);
      PrefixOk(m, floor, b, n);
      assert a[..n + 1] == a && b[..n + 1] == b;
      var p := Exec(m, floor, a[..n]);
      hide Exec;
      if p.ok {
        SameLine(p.m, a[n], b[n]);
      }
    }
  }

  lemma SameLine(m: Machine, a: Line, b: Line)
    requires Nested(m.stack) && m.stack != [] && SameButTag(m, a, b)
    ensures Process(m, a) == Process(m, b)
  {
    hide Process, Nested;
    if a != b {
      TagMattersIff(m, a.tag, b.tag);
    }
  }
}
