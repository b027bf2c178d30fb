/**
  Exactly when what a CGI program's client gets depends on how the program's output is cut into reads and callbacks. The
  pieces of OutputCuts are the reads: after the same pieces both gateways have the same of the output.
 */
module CgiReads {
  import opened Bytes
  import opened CgiText
  import opened CgiResponse
  import opened FastGateway
  import opened FastSegmentation
  import opened OutputAnswers
  import opened OutputCuts
  import opened CutExamples
  import Cgi = CgiOutput

  /** What one read asks for at most. */
  const ME_BUFSIZE: nat := 4096

  /** What the client sees. Truncated: an error behind body that had been forwarded; Failure: an error instead. */
  datatype Seen =
    | Failure
    | Truncated(ops: seq<Op>, body: seq<byte>)
    | Redirection(ops: seq<Op>)
    | Document(ops: seq<Op>, body: seq<byte>, complete: bool)

  function SeenBy(s: Cgi.Reply): Seen {
    if s.error then if s.body == [] then Failure else Truncated(s.ops, s.body)
    else if s.redirected then Redirection(s.ops)
    else Document(s.ops, s.body, s.finalized)
  }

  /** The same as a client of this gateway sees it. */
  function SeenAs(v: View): Seen {
    match v
    case ErrorReply => Failure
    case Aborted(ops, body) => Truncated(ops, body)
    case Reply(ops, body, complete) => if Redirects(ops) then Redirection(ops) else Document(ops, body, complete)
  }

  /** What a program's whole output means: its header fields must be complete and its length what it declared. */
  function Meant(output: seq<byte>): Seen {
    match Parse(output, false)
    case NeedMore => Failure
    case Fail(_) => Failure
    case Done(ops, body) =>
      if Redirects(ops) then Redirection(ops)
      else if Declared(ops, None).None? || Declared(ops, None).value == |body| then Document(ops, body, true)
      else if body == [] || Declared(ops, None).value < |body| then Failure
      else Truncated(ops, body)
  }

  // ---- What a run has read ----

  function DataOf(channel: Cgi.Channel, r: Cgi.ReadResult): seq<seq<byte>> {
    if channel.Stdout? && r.Bytes? then [r.data] else []
  }

  /** What the loop reads from stdout. Results behind the point where it stops are not asked for. */
  function LoopPieces(s: Cgi.Reply, channel: Cgi.Channel, rs: seq<Cgi.ReadResult>): seq<seq<byte>>
    decreases |rs|
  {
    if rs == [] || !Cgi.IsOpen(s, channel) || s.finalized then []
    else
      var p := Cgi.OneRead(s, channel, rs[0]);
      DataOf(channel, rs[0]) + if p.more then LoopPieces(p.s, channel, rs[1..]) else []
  }

  function CallbackPieces(s: Cgi.Reply, e: Cgi.Event): seq<seq<byte>> {
    match e
    case Readable(channel, rs, _) => LoopPieces(if s.finalized then Cgi.Close(s, channel) else s, channel, rs)
    case Exited(_, _) => []
  }

  function RunPieces(s: Cgi.Reply, es: seq<Cgi.Event>): seq<seq<byte>>
    decreases |es|
  {
    if es == [] then [] else CallbackPieces(s, es[0]) + RunPieces(Cgi.Callback(s, es[0]), es[1..])
  }

  /** A program that exits well and whose output has neither ended nor failed. Reads may block or be interrupted. */
  predicate Clean(e: Cgi.Event) {
    match e
    case Readable(channel, rs, _) => channel.Stdout? ==> forall r <- rs :: !r.Failed? && !r.EndOfFile?
    case Exited(badStatus, _) => !badStatus
  }

  /**
    A run that reads the output o, at most k bytes at a time: all of it, or a first part if the response is final before
    the output ends.
   */
  ghost predicate IsRunOf(es: seq<Cgi.Event>, o: seq<byte>, k: nat) {
    var pieces := RunPieces(Cgi.START, es);
    && (forall e <- es :: Clean(e)) && (forall i :: 0 <= i < |pieces| ==> |pieces[i]| <= k)
    && Flatten(pieces) <= o && (Cgi.CallbackAll(Cgi.START, es).finalized || Flatten(pieces) == o)
  }

  /** What the client sees when the output has ended behind the run. */
  function SeenOf(es: seq<Cgi.Event>, complete: bool): Seen {
    SeenBy(Cgi.CallbackAll(Cgi.START, es + [Cgi.Readable(Cgi.Stdout, [Cgi.EndOfFile], complete)]))
  }

  // ---- The two gateways side by side ----

  /** The response of this gateway and of the FastCGI gateway after the same pieces. */
  predicate Twin(s: Cgi.Reply, t: Response) {
    if t.error then
      s.error && s.finalized && t.finalized && s.body == t.body && (t.body != [] ==> t.parsed && s.ops == t.ops)
    else if t.finalized then
      && !s.error && s.ops == t.ops && Redirects(t.ops) && t.parsed && s.seenHeader
      && (if s.location then !s.redirected && !s.finalized && s.stdoutOpen else s.redirected && s.finalized)
    else
      && !Redirects(t.ops) && (if t.parsed then t.held.None? else t == BEGIN.(held := t.held))
      && s == Cgi.START.(seenHeader := t.parsed, held := t.held, ops := t.ops, declared := t.declared, bodyBytes := t.bodyBytes,
                         body := t.body, stderrOpen := s.stderrOpen)
  }

  lemma HeaderTwins(s: Cgi.Reply, t: Response, b: seq<byte>, outcome: Outcome)
    requires t == BEGIN.(held := t.held) && s == Cgi.START.(held := t.held, stderrOpen := s.stderrOpen)
    ensures Twin(Cgi.Header(s, b, outcome).s, StdoutHeader(t, b, outcome))
  {
    hide Redirects, Declared;
    RedirectsOfNone();
    match outcome
    case Done(ops, rest) => assert [] + ops == ops && [] + rest == rest;
    case _ =>
  }

  lemma RedirectsOfNone()
    ensures !Redirects([])
  {
  }

  lemma OutputTwins(s: Cgi.Reply, t: Response, c: seq<byte>)
    requires Twin(s, t) && !s.finalized
    ensures Twin(Cgi.Output(s, c).s, Stdout(t, c))
  {
    hide Parse, Redirects, Declared;
    if !t.finalized && !t.parsed {
      HeaderTwins(s, t, Cgi.HeldBytes(s) + c, Parse(Cgi.HeldBytes(s) + c, false));
      hide Cgi.Header, StdoutHeader, Twin;
    }
  }

  /** Reading or closing stderr does not matter. */
  lemma StderrTwins(s: Cgi.Reply, t: Response, open: bool)
    requires Twin(s, t)
    ensures Twin(s.(stderrOpen := open), t)
  {
  }

  lemma OneReadTwins(s: Cgi.Reply, t: Response, channel: Cgi.Channel, r: Cgi.ReadResult)
    requires Twin(s, t) && !s.finalized && (channel.Stdout? ==> !r.Failed? && !r.EndOfFile?)
    ensures Twin(Cgi.OneRead(s, channel, r).s, Feed(t, DataOf(channel, r)))
  {
    hide Twin, Cgi.Output, Stdout;
    if channel.Stdout? {
      if r.Bytes? {
        OutputTwins(s, t, r.data);
        FeedOne(t, r.data);
      }
    } else {
      StderrTwins(s, t, false);
    }
  }

  lemma LoopStep(s: Cgi.Reply, channel: Cgi.Channel, rs: seq<Cgi.ReadResult>)
    requires rs != [] && Cgi.IsOpen(s, channel) && !s.finalized
    ensures var p := Cgi.OneRead(s, channel, rs[0]);
            && LoopPieces(s, channel, rs) == DataOf(channel, rs[0]) + (if p.more then LoopPieces(p.s, channel, rs[1..]) else [])
            && Cgi.Reads(s, channel, rs) == if p.more then Cgi.Reads(p.s, channel, rs[1..]) else p.s
  {
    hide Cgi.OneRead;
  }

  lemma {:induction false} LoopTwins(s: Cgi.Reply, t: Response, channel: Cgi.Channel, rs: seq<Cgi.ReadResult>)
    requires Twin(s, t) && (channel.Stdout? ==> forall r <- rs :: !r.Failed? && !r.EndOfFile?)
    ensures Twin(Cgi.Reads(s, channel, rs), Feed(t, LoopPieces(s, channel, rs)))
    decreases |rs|
  {
    hide Twin, Cgi.OneRead, DataOf, Stdout;
    if rs != [] && Cgi.IsOpen(s, channel) && !s.finalized {
      LoopStep(s, channel, rs);
      hide LoopPieces, Cgi.Reads;
      var p := Cgi.OneRead(s, channel, rs[0]);
      var c := DataOf(channel, rs[0]);
      var rest := if p.more then LoopPieces(p.s, channel, rs[1..]) else [];
      OneReadTwins(s, t, channel, rs[0]);
      FeedAppend(t, c, rest);
      if p.more {
        LoopTwins(p.s, Feed(t, c), channel, rs[1..]);
      }
    }
  }

  /** The end of a callback turns a waiting redirection into one. */
  lemma SettleTwins(s: Cgi.Reply, t: Response, complete: bool)
    requires Twin(s, t) && (complete ==> !s.stdoutOpen)
    ensures Twin(Cgi.Settle(s, complete), t) && !Cgi.Settle(s, complete).location
  {
    hide Redirects;
  }

  lemma CloseTwins(s: Cgi.Reply, t: Response, channel: Cgi.Channel)
    requires Twin(s, t) && s.finalized
    ensures Twin(Cgi.Close(s, channel), t)
  {
    hide Redirects;
  }

  lemma CallbackTwins(s: Cgi.Reply, t: Response, e: Cgi.Event)
    requires Twin(s, t) && Clean(e)
    ensures Twin(Cgi.Callback(s, e), Feed(t, CallbackPieces(s, e))) && !Cgi.Callback(s, e).location
  {
    hide Twin, Cgi.Settle, Cgi.Reads, LoopPieces, Stdout;
    match e
    case Readable(channel, rs, complete) =>
      if s.finalized {
        CloseTwins(s, t, channel);
      }
      LoopTwins(if s.finalized then Cgi.Close(s, channel) else s, t, channel, rs);
      var u := Cgi.ReadFromCgi(s, channel, rs);
      SettleTwins(u, Feed(t, CallbackPieces(s, e)), complete && !u.stdoutOpen);
    case Exited(badStatus, complete) => SettleTwins(s, t, complete && !s.stdoutOpen);
  }

  /** After any such events this gateway is where the FastCGI gateway is after the same pieces. */
  lemma {:induction false} RunTwins(s: Cgi.Reply, t: Response, es: seq<Cgi.Event>)
    requires Twin(s, t) && !s.location && forall e <- es :: Clean(e)
    ensures Twin(Cgi.CallbackAll(s, es), Feed(t, RunPieces(s, es))) && !Cgi.CallbackAll(s, es).location
    decreases |es|
  {
    hide Twin, Cgi.Callback, CallbackPieces, Clean, Stdout;
    if es != [] {
      CallbackTwins(s, t, es[0]);
      FeedAppend(t, CallbackPieces(s, es[0]), RunPieces(Cgi.Callback(s, es[0]), es[1..]));
      RunTwins(Cgi.Callback(s, es[0]), Feed(t, CallbackPieces(s, es[0])), es[1..]);
    }
  }

  // ---- The end of the output ----

  /** Whether the parser has answered. */
  predicate Answered(t: Response) {
    t.parsed || t.error
  }

  lemma EndTwins(s: Cgi.Reply, t: Response, complete: bool)
    requires Twin(s, t) && !s.location
    ensures SeenBy(Cgi.Callback(s, Cgi.Readable(Cgi.Stdout, [Cgi.EndOfFile], complete)))
            == if Answered(t) then SeenAs(ClientView(CloseOutput(t))) else Failure
  {
    hide Parse, Redirects;
    var rs := [Cgi.EndOfFile];
    assert rs[1..] == [];
    if t.error {
      FailedCloses(t);
      BrokenCloses(t);
    }
  }

  /** What is final stays final. */
  lemma BrokenCloses(t: Response)
    requires t.error && t.finalized
    ensures t.parsed ==> CloseOutput(t) == t
  {
  }

  /** More output behind a final response changes nothing. */
  lemma {:induction false} FinalStays(s: Cgi.Reply, t: Response, chunks: seq<seq<byte>>)
    requires Twin(s, t) && t.finalized
    ensures var u := Feed(t, chunks);
            Twin(s, u) && u.finalized && Answered(u) && ClientView(CloseOutput(u)) == ClientView(CloseOutput(t))
    decreases |chunks|
  {
    if chunks != [] {
      OneMoreStays(s, t, chunks[0]);
      hide Twin, Stdout, CloseOutput, ClientView;
      FinalStays(s, Stdout(t, chunks[0]), chunks[1..]);
    }
  }

  lemma OneMoreStays(s: Cgi.Reply, t: Response, c: seq<byte>)
    requires Twin(s, t) && t.finalized
    ensures var u := Stdout(t, c);
            Twin(s, u) && u.finalized && ClientView(CloseOutput(u)) == ClientView(CloseOutput(t))
  {
    hide Parse, Redirects, Declared;
    if t.error && !t.parsed {
      FailedStays(t, c);
      FailedCloses(t);
      FailedCloses(Stdout(t, c));
      hide Stdout, CloseOutput;
    }
  }

  /** What a run of the output shows is what a cut into pieces shows, or a failure if no header was complete. */
  lemma RunShows(es: seq<Cgi.Event>, o: seq<byte>, k: nat, complete: bool) returns (chunks: seq<seq<byte>>)
    requires k > 0 && IsRunOf(es, o, k)
    ensures IsCut(chunks, o, k) && RunPieces(Cgi.START, es) <= chunks
    ensures Flatten(RunPieces(Cgi.START, es)) == o ==> chunks == RunPieces(Cgi.START, es)
    ensures SeenOf(es, complete) == if First(o) > |o| then Failure else SeenAs(FedView(chunks))
  {
    hide Twin, Cgi.Callback, Stdout, CloseOutput, ClientView, First, IsCut, SeenBy, SeenAs, Clean, RunPieces, Pieces;
    var pieces, s := RunPieces(Cgi.START, es), Cgi.CallbackAll(Cgi.START, es);
    var t := Feed(BEGIN, pieces);
    TwinsStart();
    RunTwins(Cgi.START, BEGIN, es);
    EndTwins(s, t, complete);
    EndBehind(es, complete);
    var rest := o[|Flatten(pieces)|..];
    assert Flatten(pieces) + rest == o;
    PiecesFit(pieces, k);
    if rest == [] {
      chunks := pieces;
      assert Flatten(pieces) == o;
    } else {
      chunks := pieces + Pieces(rest, k);
      PiecesCut(rest, k);
      CutAppend(pieces, Pieces(rest, k), Flatten(pieces), rest, k);
      FeedAppend(BEGIN, pieces, Pieces(rest, k));
      assert s.finalized;
      TwinFinal(s, t);
      FinalStays(s, t, Pieces(rest, k));
    }
    AnsweredIff(chunks, o, k);
  }

  lemma PiecesFit(pieces: seq<seq<byte>>, k: nat)
    requires forall i :: 0 <= i < |pieces| ==> |pieces[i]| <= k
    ensures IsCut(pieces, Flatten(pieces), k)
  {
  }

  lemma TwinsStart()
    ensures Twin(Cgi.START, BEGIN)
  {
    RedirectsOfNone();
  }

  lemma TwinFinal(s: Cgi.Reply, t: Response)
    requires Twin(s, t) && s.finalized
    ensures t.finalized && Answered(t)
  {
  }

  lemma EndBehind(es: seq<Cgi.Event>, complete: bool)
    ensures var last := Cgi.Readable(Cgi.Stdout, [Cgi.EndOfFile], complete);
            Cgi.CallbackAll(Cgi.START, es + [last]) == Cgi.Callback(Cgi.CallbackAll(Cgi.START, es), last)
  {
    hide Cgi.Callback;
    var last := Cgi.Readable(Cgi.Stdout, [Cgi.EndOfFile], complete);
    CallbackAllAppend(Cgi.START, es, [last]);
    assert [last][1..] == [];
  }

  /** The parser has answered exactly if the output holds a header end or fills the buffer. */
  lemma AnsweredIff(chunks: seq<seq<byte>>, o: seq<byte>, k: nat)
    requires IsCut(chunks, o, k)
    ensures Answered(Feed(BEGIN, chunks)) <==> First(o) <= |o|
  {
    hide Stdout, Answer, First, Parse;
    assert [] + Flatten(chunks) == o;
    FirstPositive(o);
    StartWaits();
    if First(o) <= |o| {
      var d := FeedCut(BEGIN, [], chunks, o, k);
    } else {
      FeedWaiting(BEGIN, [], chunks, o);
    }
  }

  lemma {:induction false} CallbackAllAppend(s: Cgi.Reply, a: seq<Cgi.Event>, b: seq<Cgi.Event>)
    ensures Cgi.CallbackAll(s, a + b) == Cgi.CallbackAll(Cgi.CallbackAll(s, a), b)
    decreases |a|
  {
    hide Cgi.Callback;
    if a == [] {
      assert a + b == b;
    } else {
      assert (a + b)[1..] == a[1..] + b;
      CallbackAllAppend(Cgi.Callback(s, a[0]), a[1..], b);
    }
  }

  // ---- Stable output ----

  /**
    For any callbacks on both channels with any reads, blocked and interrupted ones included: when stable output ends,
    the client sees what the whole of it means, unless its body runs over the length it declares: then it has a part of
    the body within that length, or nothing, and an error.
   */
  lemma ReadsDoNotMatter(es: seq<Cgi.Event>, o: seq<byte>, k: nat, complete: bool)
    requires k > 0 && IsRunOf(es, o, k) && Stable(o)
    ensures if !Overruns(Parse(o, false)) then SeenOf(es, complete) == Meant(o)
            else exists v :: BrokenOff(v, Parse(o, false)) && SeenOf(es, complete) == SeenAs(v)
  {
    hide Stable, AtPrefix, IsCut, Parse, ClientView, CloseOutput, Stdout, SeenOf, IsRunOf;
    var chunks := RunShows(es, o, k, complete);
    FlatCut(chunks, o, k);
    AtStart();
    assert [] + o == o;
    StableFeed(BEGIN, [], chunks, o);
    StableDecided(o);
    if First(o) <= |o| {
      AtAnswer(Feed(BEGIN, chunks), o);
      CloseReached(Feed(BEGIN, chunks), Parse(o, false));
      if !Overruns(Parse(o, false)) {
        MeantIs(o);
      } else {
        assert BrokenOff(FedView(chunks), Parse(o, false));
      }
    }
  }

  lemma StableDecided(o: seq<byte>)
    ensures Parse(o, false).NeedMore? <==> First(o) > |o|
  {
    hide Parse, First;
    DecidedIff(o, |o|);
    assert o[..|o|] == o;
  }

  lemma AtAnswer(s: Response, o: seq<byte>)
    requires AtPrefix(s, o) && !Parse(o, false).NeedMore?
    ensures Reached(s, Parse(o, false))
  {
    hide Parse, Reached;
  }

  lemma MeantIs(o: seq<byte>)
    requires !Overruns(Parse(o, false)) && !Parse(o, false).NeedMore?
    ensures Meant(o) == SeenAs(EndView(Parse(o, false)))
  {
    hide Parse, Redirects, Declared;
  }

  // ---- Any output ----

  /** Pieces as reads, one to a callback. */
  function AsReads(chunks: seq<seq<byte>>): seq<Cgi.Event> {
    if chunks == [] then [] else [Cgi.Readable(Cgi.Stdout, [Cgi.Bytes(chunks[0])], false)] + AsReads(chunks[1..])
  }

  lemma OneReadRuns(s: Cgi.Reply, t: Response, c: seq<byte>)
    requires Twin(s, t)
    ensures var e := Cgi.Readable(Cgi.Stdout, [Cgi.Bytes(c)], false);
            Clean(e) && CallbackPieces(s, e) == if s.finalized then [] else [c]
    ensures !s.finalized ==> s.stdoutOpen
  {
    var rs := [Cgi.Bytes(c)];
    assert rs[1..] == [] && [c] + [] == [c];
    if !s.finalized {
      LoopStep(s, Cgi.Stdout, rs);
      assert LoopPieces(Cgi.OneRead(s, Cgi.Stdout, rs[0]).s, Cgi.Stdout, []) == [];
    }
    hide Cgi.OneRead, Redirects;
  }

  /** The reads are asked for in order, all of them unless the response is final first. */
  lemma {:induction false} ReadsRun(s: Cgi.Reply, t: Response, chunks: seq<seq<byte>>)
    requires Twin(s, t) && !s.location
    ensures forall e <- AsReads(chunks) :: Clean(e)
    ensures var pieces := RunPieces(s, AsReads(chunks));
            pieces <= chunks && (Cgi.CallbackAll(s, AsReads(chunks)).finalized || pieces == chunks)
    decreases |chunks|
  {
    hide Twin, Cgi.Callback, CallbackPieces, Clean, Stdout;
    if chunks != [] {
      var e := Cgi.Readable(Cgi.Stdout, [Cgi.Bytes(chunks[0])], false);
      var es := AsReads(chunks);
      assert es[1..] == AsReads(chunks[1..]) && es[0] == e;
      OneReadRuns(s, t, chunks[0]);
      CallbackTwins(s, t, e);
      ReadsRun(Cgi.Callback(s, e), Feed(t, CallbackPieces(s, e)), chunks[1..]);
      if s.finalized {
        FinalRuns(s, t, chunks);
      } else {
        assert RunPieces(s, es) == [chunks[0]] + RunPieces(Cgi.Callback(s, e), es[1..]);
        assert chunks == [chunks[0]] + chunks[1..];
      }
    }
  }

  lemma {:induction false} FinalRuns(s: Cgi.Reply, t: Response, chunks: seq<seq<byte>>)
    requires Twin(s, t) && s.finalized && !s.location
    ensures RunPieces(s, AsReads(chunks)) == [] && Cgi.CallbackAll(s, AsReads(chunks)).finalized
    decreases |chunks|
  {
    hide Twin, CallbackPieces, Clean, Stdout;
    if chunks != [] {
      var e := Cgi.Readable(Cgi.Stdout, [Cgi.Bytes(chunks[0])], false);
      var es := AsReads(chunks);
      assert es[1..] == AsReads(chunks[1..]) && es[0] == e;
      OneReadRuns(s, t, chunks[0]);
      CallbackTwins(s, t, e);
      assert Cgi.Callback(s, e).finalized;
      FinalRuns(Cgi.Callback(s, e), Feed(t, CallbackPieces(s, e)), chunks[1..]);
    }
  }

  /** Every cut into pieces is one into reads, and shows what the pieces do. */
  lemma PiecesAsReads(chunks: seq<seq<byte>>, o: seq<byte>, k: nat, complete: bool)
    requires k > 0 && IsCut(chunks, o, k)
    ensures IsRunOf(AsReads(chunks), o, k)
    ensures SeenOf(AsReads(chunks), complete) == if First(o) > |o| then Failure else SeenAs(FedView(chunks))
  {
    hide Twin, SeenOf, First, SeenAs, Clean, RunPieces, CloseOutput, ClientView, Stdout;
    var es := AsReads(chunks);
    var pieces, s := RunPieces(Cgi.START, es), Cgi.CallbackAll(Cgi.START, es);
    TwinsStart();
    ReadsRun(Cgi.START, BEGIN, chunks);
    var rest := chunks[|pieces|..];
    assert pieces + rest == chunks;
    FlattenAppend(pieces, rest);
    var other := RunShows(es, o, k, complete);
    if s.finalized {
      RunTwins(Cgi.START, BEGIN, es);
      TwinFinal(s, Feed(BEGIN, pieces));
      FeedAppend(BEGIN, pieces, rest);
      FinalStays(s, Feed(BEGIN, pieces), rest);
      var more := other[|pieces|..];
      assert pieces + more == other;
      FeedAppend(BEGIN, pieces, more);
      FinalStays(s, Feed(BEGIN, pieces), more);
    } else {
      assert pieces == chunks == other;
    }
  }

  // ---- The theorem ----

  /** Whatever the reads and callbacks, the client sees the same. */
  ghost predicate ReadsAgree(o: seq<byte>, k: nat) {
    forall es, es', c, c' :: IsRunOf(es, o, k) && IsRunOf(es', o, k) ==> SeenOf(es, c) == SeenOf(es', c')
  }

  /** A complete reply; a redirection has no body. */
  predicate IsFinal(v: View) {
    v.Reply? ==> v.complete && (Redirects(v.ops) ==> v.body == [])
  }

  lemma FedIsFinal(chunks: seq<seq<byte>>, o: seq<byte>, k: nat)
    requires IsCut(chunks, o, k)
    ensures IsFinal(FedView(chunks))
  {
    hide Answer, Parse, FedView, First, IsCut, Redirects, Declared;
    var d := ViewOfCut(chunks, o, k);
  }

  lemma SeenAsTellsApart(v: View, w: View)
    requires IsFinal(v) && IsFinal(w)
    ensures SeenAs(v) == SeenAs(w) <==> v == w
  {
    hide Redirects;
  }

  /** What the client sees depends on the reads exactly when the output does not meet the condition. */
  lemma ReadsAgreeIffCutFree(o: seq<byte>, k: nat)
    requires k >= 2
    ensures ReadsAgree(o, k) <==> CutFree(o, k)
  {
    hide IsRunOf, SeenOf, IsCut, FedView, CutFree, First, SeenAs, IsFinal;
    CutsAgreeIffCutFree(o, k);
    if ReadsAgree(o, k) {
      forall a, b | IsCut(a, o, k) && IsCut(b, o, k) ensures FedView(a) == FedView(b) {
        PiecesAsReads(a, o, k, true);
        PiecesAsReads(b, o, k, true);
        if First(o) > |o| {
          var d := ViewOfCut(a, o, k);
          var d' := ViewOfCut(b, o, k);
        } else {
          FedIsFinal(a, o, k);
          FedIsFinal(b, o, k);
          SeenAsTellsApart(FedView(a), FedView(b));
        }
      }
    }
    if CutsAgree(o, k) {
      forall es, es', c, c' | IsRunOf(es, o, k) && IsRunOf(es', o, k) ensures SeenOf(es, c) == SeenOf(es', c') {
        var a := RunShows(es, o, k, c);
        var b := RunShows(es', o, k, c');
      }
    }
  }

  /** LF LF and CRLF CRLF in one output: two ways of reading it, two documents. */
  lemma MixedReadsDiffer(complete: bool)
    ensures var a, b := AsReads(CutAt(MIXED, ME_BUFSIZE, 5)), AsReads(CutAt(MIXED, ME_BUFSIZE, 10));
            && IsRunOf(a, MIXED, ME_BUFSIZE) && IsRunOf(b, MIXED, ME_BUFSIZE)
            && SeenOf(a, complete) == Document([SetHeader([65], [98])], [88, 13, 10, 13, 10], true)
            && SeenOf(b, complete) == Document([SetHeader([65], [98])], [], true)
  {
    hide CutAt, IsRunOf, SeenOf, IsCut, FedView, Arrival;
    MixedPieces(ME_BUFSIZE);
    MixedArrivals();
    assert First(MIXED) == 5;
    PiecesAsReads(CutAt(MIXED, ME_BUFSIZE, 5), MIXED, ME_BUFSIZE, complete);
    PiecesAsReads(CutAt(MIXED, ME_BUFSIZE, 10), MIXED, ME_BUFSIZE, complete);
  }

  /**
    One byte is declared and two come. Read between them, the whole declared body is forwarded without an error, and
    then the reply breaks off; read at once, the client has an error instead.
   */
  lemma OverrunReadsDiffer(complete: bool)
    ensures var o, ops := OneByteDeclared([97, 98]), [ContentLength(1)];
            var a, b := AsReads([OneByteDeclared([97]), [98]]), AsReads([o]);
            var s := Cgi.CallbackAll(Cgi.START, a[..1]);
            && IsRunOf(a, o, ME_BUFSIZE) && IsRunOf(b, o, ME_BUFSIZE)
            && !s.error && s.declared == Some(1) && s.body == [97]
            && SeenOf(a, complete) == Truncated(ops, [97]) && SeenOf(b, complete) == Failure
  {
    hide IsRunOf, SeenOf, IsCut, FedView, First, OneByteDeclared, Parse;
    var first, second: seq<byte> := OneByteDeclared([97]), [98];
    var o := OneByteDeclared([97, 98]);
    OverrunPieces(ME_BUFSIZE);
    OneByteIsDecided([97, 98]);
    PiecesAsReads([first, second], o, ME_BUFSIZE, complete);
    PiecesAsReads([o], o, ME_BUFSIZE, complete);
    FirstByteForwarded(AsReads([first, second]));
  }

  lemma OneByteIsDecided(body: seq<byte>)
    ensures First(OneByteDeclared(body)) <= |OneByteDeclared(body)|
  {
    hide OneByteDeclared, Parse, First;
    OneByteParses(body);
    StableDecided(OneByteDeclared(body));
  }

  lemma FirstByteForwarded(es: seq<Cgi.Event>)
    requires es == AsReads([OneByteDeclared([97]), [98]])
    ensures var s := Cgi.CallbackAll(Cgi.START, es[..1]); !s.error && s.declared == Some(1) && s.body == [97]
  {
    hide OneByteDeclared, Parse;
    var first := OneByteDeclared([97]);
    var e := Cgi.Readable(Cgi.Stdout, [Cgi.Bytes(first)], false);
    assert es[..1] == [e] && [e][1..] == [];
    OneByteParses([97]);
    OneDeclared();
    assert [] + first == first && [] + [ContentLength(1)] == [ContentLength(1)] && [] + [97] == [97];
    LoopStep(Cgi.START, Cgi.Stdout, [Cgi.Bytes(first)]);
    assert [Cgi.Bytes(first)][1..] == [];
    var s := Cgi.OneRead(Cgi.START, Cgi.Stdout, Cgi.Bytes(first)).s;
    assert !s.error && s.declared == Some(1) && s.body == [97] && !s.location;
    assert Cgi.Reads(s, Cgi.Stdout, []) == s;
    assert Cgi.Callback(Cgi.START, e) == s;
  }
}
