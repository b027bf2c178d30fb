/**
  Exactly when the client's response depends on how a program's output is cut into pieces. Output is decided at the
  first boundary between pieces where its header end, or the header limit, has arrived; what follows is body.
 */
module OutputCuts {
  import opened Bytes
  import opened CgiText
  import opened CgiResponse
  import opened FastGateway
  import opened FastSegmentation
  import opened OutputAnswers

  /** The output in pieces of at most k bytes. */
  ghost predicate IsCut(chunks: seq<seq<byte>>, o: seq<byte>, k: nat) {
    Flatten(chunks) == o && forall i :: 0 <= i < |chunks| ==> |chunks[i]| <= k
  }

  /** What the client has got of the output in these pieces when it has ended. */
  function FedView(chunks: seq<seq<byte>>): View {
    ClientView(CloseOutput(Feed(BEGIN, chunks)))
  }

  /** The boundaries at which some cut decides the output. */
  predicate Possible(o: seq<byte>, k: nat, d: nat) {
    First(o) <= d <= |o| && d < First(o) + k
  }

  /** The last of them. */
  function Last(o: seq<byte>, k: nat): nat
    requires k > 0
  {
    Least(|o|, First(o) + k - 1)
  }

  lemma PossibleIff(o: seq<byte>, k: nat, d: nat)
    requires k > 0
    ensures Possible(o, k, d) <==> First(o) <= d <= Last(o, k)
  {
  }

  // ---- What a cut shows ----

  /** Before the decision everything is held. */
  lemma {:induction false} FeedWaiting(s: Response, b: seq<byte>, chunks: seq<seq<byte>>, o: seq<byte>)
    requires Waiting(s, b) && b + Flatten(chunks) <= o && |b + Flatten(chunks)| < First(o)
    ensures Waiting(Feed(s, chunks), b + Flatten(chunks))
    decreases |chunks|
  {
    hide Stdout, Waiting, First;
    if chunks == [] {
      assert b + [] == b;
    } else {
      var c := b + chunks[0];
      assert b + Flatten(chunks) == c + Flatten(chunks[1..]);
      assert o[..|c|] == c;
      FirstAnswer(s, b, chunks[0]);
      DecidedIff(o, |c|);
      FeedWaiting(Stdout(s, chunks[0]), c, chunks[1..], o);
    }
  }

  /** Every cut decides the output at one of its boundaries, less than a piece behind the first chance. */
  lemma {:induction false} FeedCut(s: Response, b: seq<byte>, chunks: seq<seq<byte>>, o: seq<byte>, k: nat) returns (d: nat)
    requires Waiting(s, b) && b + Flatten(chunks) == o && |b| < First(o) <= |o|
    requires forall i :: 0 <= i < |chunks| ==> |chunks[i]| <= k
    ensures Possible(o, k, d) && Reached(Feed(s, chunks), Answer(o, d))
    decreases |chunks|
  {
    hide Stdout, Waiting, First, Reached, Answer;
    assert b + [] == b;
    var c := b + chunks[0];
    assert b + Flatten(chunks) == c + Flatten(chunks[1..]);
    assert o[..|c|] == c && o[|c|..] == Flatten(chunks[1..]);
    FirstAnswer(s, b, chunks[0]);
    DecidedIff(o, |c|);
    if Decided(o, |c|) {
      d := |c|;
      FeedReached(Stdout(s, chunks[0]), Parse(c, false), chunks[1..]);
      AnswerIs(o, d);
    } else {
      d := FeedCut(Stdout(s, chunks[0]), c, chunks[1..], o, k);
    }
  }

  /** What a cut shows is what the parser's answer at a possible boundary means, broken off somewhere if its body runs over. */
  lemma ViewOfCut(chunks: seq<seq<byte>>, o: seq<byte>, k: nat) returns (d: nat)
    requires IsCut(chunks, o, k)
    ensures First(o) > |o| ==> FedView(chunks) == EndView(Parse(o, true))
    ensures First(o) <= |o| ==>
              && Possible(o, k, d)
              && if Overruns(Answer(o, d)) then BrokenOff(FedView(chunks), Answer(o, d)) else FedView(chunks) == EndView(Answer(o, d))
  {
    hide Stdout, Answer, Reached, First, Parse, Overruns, BrokenOff, EndView, ClientView, CloseOutput;
    assert [] + Flatten(chunks) == o;
    FirstPositive(o);
    d := 0;
    if First(o) <= |o| {
      d := FeedCut(BEGIN, [], chunks, o, k);
      CloseReached(Feed(BEGIN, chunks), Answer(o, d));
    } else {
      FeedWaiting(BEGIN, [], chunks, o);
      DecidedIff(o, |o|);
      assert o[..|o|] == o;
      CloseWaiting(Feed(BEGIN, chunks), o);
    }
  }

  // ---- A cut for every possible decision ----

  /** Bytes in pieces of the largest size. */
  function Pieces(b: seq<byte>, k: nat): seq<seq<byte>>
    requires k > 0
    decreases |b|
  {
    if |b| <= k then [b] else [b[..k]] + Pieces(b[k..], k)
  }

  lemma {:induction false} PiecesCut(b: seq<byte>, k: nat)
    requires k > 0
    ensures IsCut(Pieces(b, k), b, k)
    decreases |b|
  {
    if |b| <= k {
      OneCut(b, k);
    } else {
      PiecesCut(b[k..], k);
      OneCut(b[..k], k);
      CutAppend([b[..k]], Pieces(b[k..], k), b[..k], b[k..], k);
      assert b[..k] + b[k..] == b;
    }
  }

  lemma OneCut(b: seq<byte>, k: nat)
    requires |b| <= k
    ensures IsCut([b], b, k)
  {
    assert [b][1..] == [] && b + [] == b;
  }

  lemma CutAppend(a: seq<seq<byte>>, b: seq<seq<byte>>, x: seq<byte>, y: seq<byte>, k: nat)
    requires IsCut(a, x, k) && IsCut(b, y, k)
    ensures IsCut(a + b, x + y, k)
  {
    FlattenAppend(a, b);
  }

  lemma {:induction false} FeedAppend(s: Response, a: seq<seq<byte>>, b: seq<seq<byte>>)
    ensures Feed(s, a + b) == Feed(Feed(s, a), b)
    decreases |a|
  {
    hide Stdout;
    if a == [] {
      assert a + b == b;
    } else {
      assert (a + b)[1..] == a[1..] + b;
      FeedAppend(Stdout(s, a[0]), a[1..], b);
    }
  }

  lemma FeedOne(s: Response, c: seq<byte>)
    ensures Feed(s, [c]) == Stdout(s, c)
  {
    hide Stdout;
    assert [c][1..] == [];
  }

  /** The output up to boundary d in pieces with no earlier boundary that decides it. */
  function UpTo(o: seq<byte>, k: nat, d: nat): seq<seq<byte>>
    requires k > 0 && d <= |o|
  {
    var before := if d > k then d - k else 0;
    Pieces(o[..before], k) + [o[before..d]]
  }

  lemma UpToReaches(o: seq<byte>, k: nat, d: nat)
    requires k > 0 && Possible(o, k, d)
    ensures IsCut(UpTo(o, k, d), o[..d], k) && Reached(Feed(BEGIN, UpTo(o, k, d)), Parse(o[..d], false))
  {
    hide IsCut, Stdout, Waiting, Reached, Parse, First, Pieces;
    var before := if d > k then d - k else 0;
    var a, c := Pieces(o[..before], k), o[before..d];
    assert o[..before] + c == o[..d];
    PiecesCut(o[..before], k);
    OneCut(c, k);
    CutAppend(a, [c], o[..before], c, k);
    FlatCut(a, o[..before], k);
    DecidedIff(o, d);
    assert [] + Flatten(a) == o[..before];
    assert Waiting(BEGIN, []) by { StartWaits(); }
    FeedWaiting(BEGIN, [], a, o);
    FeedAppend(BEGIN, a, [c]);
    FeedOne(Feed(BEGIN, a), c);
    FirstAnswer(Feed(BEGIN, a), o[..before], c);
  }

  lemma StartWaits()
    ensures Waiting(BEGIN, [])
  {
  }

  lemma FlatCut(chunks: seq<seq<byte>>, o: seq<byte>, k: nat)
    requires IsCut(chunks, o, k)
    ensures Flatten(chunks) == o
  {
  }

  /** A cut that decides the output at d and goes on with the given pieces. */
  lemma CutThrough(o: seq<byte>, k: nat, d: nat, rest: seq<seq<byte>>)
    requires k > 0 && Possible(o, k, d) && IsCut(rest, o[d..], k)
    ensures IsCut(UpTo(o, k, d) + rest, o, k)
    ensures Feed(BEGIN, UpTo(o, k, d) + rest) == Feed(Feed(BEGIN, UpTo(o, k, d)), rest)
  {
    hide IsCut, Stdout, UpTo, Reached, Parse;
    UpToReaches(o, k, d);
    CutAppend(UpTo(o, k, d), rest, o[..d], o[d..], k);
    assert o[..d] + o[d..] == o;
    FeedAppend(BEGIN, UpTo(o, k, d), rest);
  }

  function CutAt(o: seq<byte>, k: nat, d: nat): seq<seq<byte>>
    requires k > 0 && d <= |o|
  {
    UpTo(o, k, d) + Pieces(o[d..], k)
  }

  /** For every possible boundary there is a cut that shows what the answer there means. */
  lemma ViewAt(o: seq<byte>, k: nat, d: nat)
    requires k > 0 && Possible(o, k, d)
    ensures IsCut(CutAt(o, k, d), o, k)
    ensures !Overruns(Answer(o, d)) ==> FedView(CutAt(o, k, d)) == EndView(Answer(o, d))
  {
    hide IsCut, UpTo, Pieces, Reached, Parse, Overruns, BrokenOff, EndView, ClientView, CloseOutput, Stdout;
    var rest := Pieces(o[d..], k);
    PiecesCut(o[d..], k);
    FlatCut(rest, o[d..], k);
    UpToReaches(o, k, d);
    CutThrough(o, k, d, rest);
    FeedReached(Feed(BEGIN, UpTo(o, k, d)), Parse(o[..d], false), rest);
    CloseReached(Feed(BEGIN, CutAt(o, k, d)), Answer(o, d));
  }

  // ---- A body that runs over the declared length ----

  /** A reply that runs over can be decided where its body starts. */
  lemma OverrunStarts(o: seq<byte>, k: nat, d: nat) returns (e: nat)
    requires Possible(o, k, d) && Overruns(Answer(o, d))
    ensures Possible(o, k, e) && Answer(o, e) == Answer(o, d) && Answer(o, d).body == o[e..]
    ensures Parse(o[..e], false) == Done(Answer(o, d).ops, [])
  {
    hide Find, Terminator, Answer, LinesOf, StartsWith, StartsWithHeader, Parse, First, Arrival;
    DecidedIff(o, d);
    AnswersWhen(o[..d]);
    if Terminator(o[..d]).None? {
      NothingDeclared(o, d);
    }
    var (p, len) := Terminator(o[..d]).value;
    AnswerOfHeader(o, d, p, len);
    e := p + len;
    StartsAt(o, d, p, len);
    DecidedIff(o, e);
    AnswersWhen(o[..e]);
    AnswerStays(o, e, d);
    AnswerIs(o, e);
    NothingLeft(Parse(o[..e], false), o[e..]);
  }

  /** Output answered without a header end declares nothing, and neither does body-only output. */
  lemma NothingDeclared(o: seq<byte>, d: nat)
    requires d <= |o| && Terminator(o[..d]).None? && d >= ME_MAX_HEADERS
    ensures !Overruns(Answer(o, d)) && !Overruns(Done([], o))
  {
    hide Terminator, ParseStatusLine, Answer;
    assert Declared([], None).None?;
    if StartsWith(o, HTTP_1) {
      AnswerOfStatus(o, d);
      if ParseStatusLine(o[..d]).Some? {
        var code := ParseStatusLine(o[..d]).value.0;
        assert [SetStatus(code)][1..] == [];
      }
    } else {
      AnswerOfLimit(o, d);
    }
  }

  lemma BodyOnlyDeclaresNothing(o: seq<byte>)
    ensures !Overruns(Done([], o))
  {
    assert Declared([], None).None?;
  }

  lemma StartsAt(o: seq<byte>, d: nat, p: nat, len: nat)
    requires d <= |o| && Terminator(o[..d]) == Some((p, len))
    ensures p + len <= d && p + len >= First(o) && Terminator(o[..p + len]) == Terminator(o[..d])
  {
    hide Find;
    TerminatorArrives(o, d);
    ArrivalsInside(o);
    TerminatorArrives(o, p + len);
  }

  lemma NothingLeft(a: Outcome, more: seq<byte>)
    requires Extend(a, more).Done? && Extend(a, more).body == more
    ensures a == Done(Extend(a, more).ops, [])
  {
    assert |a.body| == 0;
  }

  /** Two cuts of the body: m bytes of it, and then more in one piece than the declared length n has room for. */
  function OverrunCut(o: seq<byte>, k: nat, e: nat, n: nat, m: nat): seq<seq<byte>>
    requires k > 0 && m <= n && e + n < |o|
  {
    UpTo(o, k, e) + (Pieces(o[e..e + m], k) + ([o[e + m..e + n + 1]] + Pieces(o[e + n + 1..], k)))
  }

  lemma OverrunIsCut(o: seq<byte>, k: nat, e: nat, n: nat, m: nat)
    requires k > 0 && m <= n && e + n < |o| && n + 1 - m <= k
    ensures IsCut(Pieces(o[e..e + m], k) + ([o[e + m..e + n + 1]] + Pieces(o[e + n + 1..], k)), o[e..], k)
  {
    hide IsCut, Pieces;
    var x, y, z := o[e..e + m], o[e + m..e + n + 1], o[e + n + 1..];
    PiecesCut(x, k);
    OneCut(y, k);
    PiecesCut(z, k);
    CutAppend([y], Pieces(z, k), y, z, k);
    CutAppend(Pieces(x, k), [y] + Pieces(z, k), x, y + z, k);
    assert x + (y + z) == o[e..];
  }

  /** Body within the declared length is forwarded; a piece that runs over it is not, and nothing is after it. */
  lemma BreaksOff(s: Response, ops: seq<Op>, x: seq<byte>, y: seq<byte>, rest: seq<seq<byte>>)
    requires Reached(s, Done(ops, x)) && !Redirects(ops) && Declared(ops, None).Some?
    requires |x| <= Declared(ops, None).value < |x + y|
    ensures ClientView(CloseOutput(Feed(Stdout(s, y), rest))) == Broken(ops, x)
  {
    hide Parse, Redirects, Declared;
    assert [] + ops == ops;
    var t := Stdout(s, y);
    assert t.parsed && t.error && t.finalized && t.ops == ops && t.body == x;
    StaysBroken(t, rest);
  }

  lemma {:induction false} StaysBroken(s: Response, chunks: seq<seq<byte>>)
    requires s.parsed && s.error && s.finalized
    ensures Feed(s, chunks) == s && CloseOutput(s) == s
    decreases |chunks|
  {
    if chunks != [] {
      StaysBroken(s, chunks[1..]);
    }
  }

  /** Such a cut breaks the reply off behind the m bytes. */
  lemma OverrunView(o: seq<byte>, k: nat, e: nat, ops: seq<Op>, n: nat, m: nat)
    requires k > 0 && Possible(o, k, e) && Parse(o[..e], false) == Done(ops, [])
    requires !Redirects(ops) && Declared(ops, None) == Some(n) && m <= n && e + n < |o| && n + 1 - m <= k
    ensures IsCut(OverrunCut(o, k, e, n, m), o, k) && FedView(OverrunCut(o, k, e, n, m)) == Broken(ops, o[e..e + m])
  {
    hide IsCut, UpTo, Pieces, Reached, Parse, ClientView, CloseOutput, Stdout, Redirects, Declared, Possible;
    var x, y, z := o[e..e + m], o[e + m..e + n + 1], o[e + n + 1..];
    var last := [y] + Pieces(z, k);
    OverrunIsCut(o, k, e, n, m);
    CutThrough(o, k, e, Pieces(x, k) + last);
    UpToReaches(o, k, e);
    var s := Feed(BEGIN, UpTo(o, k, e));
    FeedAppend(s, Pieces(x, k), last);
    PiecesCut(x, k);
    FlatCut(Pieces(x, k), x, k);
    FeedReached(s, Done(ops, []), Pieces(x, k));
    assert [] + x == x;
    var t := Feed(s, Pieces(x, k));
    FeedAppend(t, [y], Pieces(z, k));
    FeedOne(t, y);
    BreaksOff(t, ops, x, y, Pieces(z, k));
  }

  // ---- The theorem ----

  /** Whatever the cut, the client sees the same. */
  ghost predicate CutsAgree(o: seq<byte>, k: nat) {
    forall a, b :: IsCut(a, o, k) && IsCut(b, o, k) ==> FedView(a) == FedView(b)
  }

  /** The answers at the possible boundaries mean the same response, and none of them runs over its declared length. */
  ghost predicate AnswersAgree(o: seq<byte>, k: nat) {
    forall d :: Possible(o, k, d) ==> !Overruns(Answer(o, d)) && EndView(Answer(o, d)) == EndView(Answer(o, First(o)))
  }

  /**
    The response depends on the cut exactly when the parser's answers at the possible boundaries mean different
    responses, or one of them leaves more body than it declares: a cut can then be felt in how much is forwarded.
   */
  lemma CutsAgreeIff(o: seq<byte>, k: nat)
    requires k >= 2
    ensures CutsAgree(o, k) <==> AnswersAgree(o, k)
  {
    hide Answer, First, IsCut, FedView, EndView, Parse, Overruns;
    if CutsAgree(o, k) {
      forall d | Possible(o, k, d) ensures !Overruns(Answer(o, d)) {
        if Overruns(Answer(o, d)) {
          OverrunCutsDiffer(o, k, d);
        }
      }
      forall d | Possible(o, k, d) ensures EndView(Answer(o, d)) == EndView(Answer(o, First(o))) {
        assert Possible(o, k, First(o));
        ViewAt(o, k, d);
        ViewAt(o, k, First(o));
      }
    }
    if AnswersAgree(o, k) {
      forall a, b | IsCut(a, o, k) && IsCut(b, o, k) ensures FedView(a) == FedView(b) {
        var d := ViewOfCut(a, o, k);
        var d' := ViewOfCut(b, o, k);
      }
    }
  }

  lemma OverrunCutsDiffer(o: seq<byte>, k: nat, d: nat)
    requires k >= 2 && Possible(o, k, d) && Overruns(Answer(o, d))
    ensures !CutsAgree(o, k)
  {
    hide Answer, IsCut, FedView, Parse, First;
    var e := OverrunStarts(o, k, d);
    var ops, n := Answer(o, d).ops, Declared(Answer(o, d).ops, None).value;
    OverrunView(o, k, e, ops, n, n);
    OverrunView(o, k, e, ops, n, n - 1);
    assert |o[e..e + n]| == n && |o[e..e + (n - 1)]| == n - 1;
  }

  // ---- The condition on the output alone ----

  /** A reply that runs over: lines that declare less than the n bytes of body behind them, but not nothing. */
  predicate RunsOver(fields: Fields, n: nat) {
    && fields.ok && !Redirects(fields.ops) && Declared(fields.ops, None).Some?
    && 0 < Declared(fields.ops, None).value < n
  }

  /** Lines and n bytes of body of which some cut shows more than an error. */
  predicate Shown(fields: Fields, n: nat) {
    && fields.ok
    && (Redirects(fields.ops) || Declared(fields.ops, None).None? || (Declared(fields.ops, None).value == 0 <==> n == 0))
  }

  /** What the parser answers for lines and the body behind them. */
  function OutcomeOf(fields: Fields, body: seq<byte>): Outcome {
    if fields.ok then Done(fields.ops, body) else Fail(fields.ops)
  }

  lemma OutcomeShows(fields: Fields, body: seq<byte>)
    ensures Overruns(OutcomeOf(fields, body)) <==> RunsOver(fields, |body|)
    ensures Overruns(OutcomeOf(fields, body)) || EndView(OutcomeOf(fields, body)) != ErrorReply <==> Shown(fields, |body|)
  {
  }

  /** The lines in front of a header end at e, of the given length, run over. */
  predicate HeadRunsOver(o: seq<byte>, e: nat, len: nat)
    requires 1 <= len <= e <= |o|
  {
    HasLines(o, e - len) && RunsOver(LinesOf(o[..e - 1]), |o| - e)
  }

  /**
    LF LF at l and CRLF CRLF at c end the same lines, which do not run over: do they leave different responses? They do
    unless a length of zero is declared and there is body behind both. A status line without a space in front of LF LF
    is refused there and goes on to CRLF CRLF.
   */
  predicate EndsDiffer(o: seq<byte>, l: nat, c: nat)
    requires 2 <= l <= |o| && 1 <= c <= |o|
  {
    if StartsWith(o, HTTP_1) && Find(o[..l - 1], [SPACE]).None? then Shown(LinesOf(o[..c - 1]), |o| - c)
    else
      var fields := LinesOf(o[..l - 1]);
      && HasLines(o, l - 2) && fields.ok && !Redirects(fields.ops)
      && (Declared(fields.ops, None) == Some(0) ==> c == |o|)
  }

  /** The answer at a header end, as the lines in front of it have it. */
  lemma AnswerAt(o: seq<byte>, d: nat, p: nat, len: nat)
    requires d <= |o| && Terminator(o[..d]) == Some((p, len))
    ensures 1 <= len && p + len <= d
    ensures Answer(o, d) == if !HasLines(o, p) then Done([], o) else OutcomeOf(LinesOf(o[..p + len - 1]), o[p + len..])
    ensures Overruns(Answer(o, d)) <==> HeadRunsOver(o, p + len, len)
  {
    hide Terminator, LinesOf, Answer, HasLines, Overruns, RunsOver;
    AnswerOfHeader(o, d, p, len);
    BodyOnlyDeclaresNothing(o);
    OutcomeShows(LinesOf(o[..p + len - 1]), o[p + len..]);
  }

  /** The two header ends of mixed output, LF LF first. */
  lemma MixedAnswers(o: seq<byte>, l: nat, c: nat)
    requires l == Arrival(o, LFLF) < c == Arrival(o, CRLFCRLF) <= |o|
    ensures 2 <= l
    ensures Overruns(Answer(o, l)) <==> HeadRunsOver(o, l, 2)
    ensures !Overruns(Answer(o, l)) ==>
              (Overruns(Answer(o, c)) || EndView(Answer(o, l)) != EndView(Answer(o, c)) <==> EndsDiffer(o, l, c))
  {
    hide Find, LinesOf, StartsWithHeader, Terminator, Answer, EndView, Redirects, Declared, NulFree, StartsWith, Shown, Overruns;
    hide RunsOver;
    ArrivalsInside(o);
    TerminatorArrives(o, l);
    TerminatorArrives(o, c);
    AnswerAt(o, l, l - 2, 2);
    AnswerAt(o, c, c - 4, 4);
    AnswerOfHeader(o, l, l - 2, 2);
    AnswerOfHeader(o, c, c - 4, 4);
    HeaderSettled(o, l - 2, c - 4);
    BodyOnlyDeclaresNothing(o);
    if HasLines(o, l - 2) {
      if StartsWith(o, HTTP_1) && Find(o[..l - 1], [SPACE]).None? {
        NoSpaceNoStatus(o[..l - 1]);
        FailIsError([]);
        OutcomeShows(LinesOf(o[..c - 1]), o[c..]);
      } else {
        SameLines(o, l, c);
        BodiesDiffer(LinesOf(o[..l - 1]), o[l..], o[c..]);
      }
    }
  }

  lemma FailIsError(ops: seq<Op>)
    ensures EndView(Fail(ops)) == ErrorReply
  {
  }

  /** The same fields with a longer and a shorter body. */
  lemma BodiesDiffer(fields: Fields, a: seq<byte>, b: seq<byte>)
    requires |a| > |b|
    ensures !Overruns(OutcomeOf(fields, a)) ==>
              (Overruns(OutcomeOf(fields, b)) || EndView(OutcomeOf(fields, a)) != EndView(OutcomeOf(fields, b))
               <==> fields.ok && !Redirects(fields.ops) && (Declared(fields.ops, None) == Some(0) ==> b == []))
  {
  }

  /**
    Output with a status line that reaches the limit first. A status line that is good at the limit makes all that is
    behind it body, so no header may end in reach; one that has no end there must not be cut again. One that is refused
    at the limit and has no end there must stay refused as it goes on, or the lines up to a header end in reach.
   */
  predicate StatusFree(o: seq<byte>, k: nat)
    requires k > 0 && First(o) <= |o|
  {
    var b := o[..First(o)];
    if ParseStatusLine(b).Some? then if StatusEnds(b) then Terminator(o[..Last(o, k)]).None? else Last(o, k) == First(o)
    else StatusEnds(b) || StaysRefused(o, k)
  }

  /** No good status code is completed in reach, and the lines up to a header end in reach show nothing. */
  predicate StaysRefused(o: seq<byte>, k: nat)
    requires k > 0
  {
    var l, c := Arrival(o, LFLF), Arrival(o, CRLFCRLF);
    && (CodeEnd(o).Some? && First(o) <= CodeEnd(o).value <= Last(o, k) ==> Least(l, c) <= CodeEnd(o).value)
    && (1 <= l <= Last(o, k) && l < c ==> !Shown(LinesOf(o[..l - 1]), |o| - l))
    && (1 <= c <= Last(o, k) ==> !Shown(LinesOf(o[..c - 1]), |o| - c))
  }

  /**
    The condition on the output: nothing is decided; or CRLF CRLF comes first and its lines do not run over; or LF LF
    comes first, its lines do not run over and no CRLF CRLF in reach leaves another response; or the limit comes first
    and no header lines end in reach.
   */
  predicate CutFree(o: seq<byte>, k: nat)
    requires k > 0
  {
    var f, l, c := First(o), Arrival(o, LFLF), Arrival(o, CRLFCRLF);
    if f > |o| then true
    else if f == c then 4 <= c && !HeadRunsOver(o, c, 4)
    else if f == l then 2 <= l && !HeadRunsOver(o, l, 2) && (c > Last(o, k) || !EndsDiffer(o, l, c))
    else if StartsWith(o, HTTP_1) then StatusFree(o, k)
    else !HasHeader(o, Last(o, k))
  }

  /** CRLF CRLF first: every boundary behind it gives the same answer. */
  lemma CrlfFirst(o: seq<byte>, d: nat)
    requires First(o) == Arrival(o, CRLFCRLF) <= d <= |o|
    ensures Answer(o, d) == Answer(o, First(o))
  {
    hide Answer, Find, Terminator;
    TerminatorArrives(o, First(o));
    TerminatorArrives(o, d);
    AnswerStays(o, First(o), d);
  }

  /** LF LF first: the boundaries before CRLF CRLF give one answer, those behind it another. */
  lemma LfFirst(o: seq<byte>, d: nat)
    requires First(o) == Arrival(o, LFLF) <= d <= |o| && Arrival(o, LFLF) < Arrival(o, CRLFCRLF)
    ensures Answer(o, d) == if d < Arrival(o, CRLFCRLF) then Answer(o, First(o)) else Answer(o, Arrival(o, CRLFCRLF))
  {
    hide Answer, Find, Terminator;
    TerminatorArrives(o, First(o));
    TerminatorArrives(o, d);
    if d < Arrival(o, CRLFCRLF) {
      AnswerStays(o, First(o), d);
    } else {
      TerminatorArrives(o, Arrival(o, CRLFCRLF));
      AnswerStays(o, Arrival(o, CRLFCRLF), d);
    }
  }

  /** The limit first: a boundary with a header in reach gives another response than the limit's. */
  lemma LimitFirst(o: seq<byte>, d: nat)
    requires First(o) == ME_MAX_HEADERS <= d <= |o| && !StartsWith(o, HTTP_1)
    requires ME_MAX_HEADERS < Arrival(o, LFLF) && ME_MAX_HEADERS < Arrival(o, CRLFCRLF)
    ensures EndView(Answer(o, d)) == EndView(Answer(o, First(o))) <==> !HasHeader(o, d)
    ensures !HasHeader(o, d) ==> !Overruns(Answer(o, d))
  {
    hide Answer, Find, Terminator, StartsWithHeader, ParseFields;
    TerminatorArrives(o, First(o));
    AnswerOfLimit(o, First(o));
    TerminatorInside(o[..d]);
    BodyOnlyDeclaresNothing(o);
    if Terminator(o[..d]).None? {
      AnswerOfLimit(o, d);
    } else {
      var (p, len) := Terminator(o[..d]).value;
      assert o[..d][..p] == o[..p];
      AnswerOfHeader(o, d, p, len);
      assert |o[p + len..]| < |o|;
    }
  }

  lemma LimitCase(o: seq<byte>, k: nat)
    requires k > 0 && First(o) == ME_MAX_HEADERS <= |o| && !StartsWith(o, HTTP_1)
    requires ME_MAX_HEADERS < Arrival(o, LFLF) && ME_MAX_HEADERS < Arrival(o, CRLFCRLF)
    ensures AnswersAgree(o, k) <==> !HasHeader(o, Last(o, k))
  {
    hide Answer, EndView, StartsWith, HasHeader, Arrival, Overruns;
    PossibleIff(o, k, Last(o, k));
    LimitFirst(o, Last(o, k));
    forall d | Possible(o, k, d)
      ensures EndView(Answer(o, d)) == EndView(Answer(o, First(o))) <==> !HasHeader(o, d)
      ensures !HasHeader(o, d) ==> !Overruns(Answer(o, d))
    {
      LimitFirst(o, d);
    }
    forall d | Possible(o, k, d) && HasHeader(o, d) ensures HasHeader(o, Last(o, k)) {
      PossibleIff(o, k, d);
      HeaderStays(o, d, Last(o, k));
    }
  }

  /** The response depends on the cut exactly when the output does not meet the condition. */
  lemma CutsAgreeIffCutFree(o: seq<byte>, k: nat)
    requires k >= 2
    ensures CutsAgree(o, k) <==> CutFree(o, k)
  {
    hide Answer, Arrival, EndView, StartsWith, CutsAgree, EndsDiffer, HasHeader, Overruns, HeadRunsOver, StatusFree;
    CutsAgreeIff(o, k);
    ArrivalsInside(o);
    var f, l, c := First(o), Arrival(o, LFLF), Arrival(o, CRLFCRLF);
    if f <= |o| {
      if f == c {
        CrlfCase(o, k);
      } else if f == l {
        LfCase(o, k);
      } else if StartsWith(o, HTTP_1) {
        StatusCase(o, k);
      } else {
        LimitCase(o, k);
      }
    }
  }

  lemma CrlfCase(o: seq<byte>, k: nat)
    requires k > 0 && First(o) == Arrival(o, CRLFCRLF) <= |o|
    ensures 4 <= Arrival(o, CRLFCRLF) && (AnswersAgree(o, k) <==> !HeadRunsOver(o, Arrival(o, CRLFCRLF), 4))
  {
    hide Answer, Find, EndView, Overruns, HeadRunsOver, Terminator;
    var c := Arrival(o, CRLFCRLF);
    ArrivalsInside(o);
    TerminatorArrives(o, c);
    AnswerAt(o, c, c - 4, 4);
    hide First, Arrival;
    forall d | Possible(o, k, d) ensures Answer(o, d) == Answer(o, c) {
      CrlfFirst(o, d);
    }
    assert Possible(o, k, c);
  }

  lemma LfCase(o: seq<byte>, k: nat)
    requires k > 0 && First(o) == Arrival(o, LFLF) <= |o| && Arrival(o, LFLF) < Arrival(o, CRLFCRLF)
    ensures var l, c := Arrival(o, LFLF), Arrival(o, CRLFCRLF);
            2 <= l && (AnswersAgree(o, k) <==> !HeadRunsOver(o, l, 2) && (c > Last(o, k) || !EndsDiffer(o, l, c)))
  {
    hide Answer, Find, EndView, Overruns, HeadRunsOver, Terminator, EndsDiffer;
    var l, c := Arrival(o, LFLF), Arrival(o, CRLFCRLF);
    ArrivalsInside(o);
    TerminatorArrives(o, l);
    AnswerAt(o, l, l - 2, 2);
    forall d: nat | Possible(o, k, d) ensures Answer(o, d) == if d < c then Answer(o, l) else Answer(o, c) {
      LfFirst(o, d);
    }
    PossibleIff(o, k, c);
    assert Possible(o, k, l);
    if c <= Last(o, k) {
      MixedAnswers(o, l, c);
    }
  }

  // ---- A status line that reaches the limit ----

  /** The reply at the limit, and any other answer that leaves less body, differ. */
  lemma LessBody(code: nat, body: seq<byte>, o: Outcome)
    requires o.Done? ==> |o.body| < |body|
    ensures EndView(o) != EndView(Done([SetStatus(code)], body))
  {
    assert !Redirects([SetStatus(code)]);
    assert Declared([SetStatus(code)], None).None? by {
      assert [SetStatus(code)][1..] == [] && Declared([], None).None?;
    }
  }

  /** A header end behind the limit leaves less body than the limit. */
  lemma HeaderLeavesLess(o: seq<byte>, d: nat)
    requires First(o) <= d <= |o| && StartsWith(o, HTTP_1) && Terminator(o[..d]).Some?
    requires First(o) < Arrival(o, LFLF) && First(o) < Arrival(o, CRLFCRLF)
    ensures Answer(o, d).Done? ==> |Answer(o, d).body| < |o| - First(o)
    ensures StatusEnds(o[..First(o)]) && ParseStatusLine(o[..First(o)]).None? ==> Answer(o, d).Fail?
  {
    hide Answer, Find, ParseFields, StartsWith, StatusEnds, ParseStatusLine;
    TerminatorArrives(o, d);
    hide Terminator;
    var (p, len) := Terminator(o[..d]).value;
    AnswerOfHeader(o, d, p, len);
    ArrivalsInside(o);
    if StatusEnds(o[..First(o)]) {
      StatusStays(o, First(o), p + len - 1);
    }
  }

  /** Behind a status line that has ended, the response changes exactly where a header end is in reach. */
  lemma StatusEnded(o: seq<byte>, d: nat)
    requires First(o) == ME_MAX_HEADERS <= d <= |o| && StartsWith(o, HTTP_1) && StatusEnds(o[..First(o)])
    requires First(o) < Arrival(o, LFLF) && First(o) < Arrival(o, CRLFCRLF)
    ensures EndView(Answer(o, d)) == EndView(Answer(o, First(o)))
            <==> ParseStatusLine(o[..First(o)]).None? || Terminator(o[..d]).None?
    ensures ParseStatusLine(o[..First(o)]).None? || Terminator(o[..d]).None? ==> !Overruns(Answer(o, d))
  {
    hide Answer, Find, StartsWith, StatusEnds, ParseStatusLine, Redirects, Declared;
    TerminatorArrives(o, First(o));
    var f := First(o);
    AnswerOfStatus(o, f);
    hide Terminator, First, Arrival;
    if Terminator(o[..d]).Some? {
      HeaderLeavesLess(o, d);
      if ParseStatusLine(o[..f]).Some? {
        var (code, rest) := ParseStatusLine(o[..f]).value;
        LessBody(code, rest + o[f..], Answer(o, d));
      }
    } else {
      NothingDeclared(o, d);
      AnswerOfStatus(o, d);
      StatusStays(o, f, d);
      assert ParseStatusLine(o[..f]).Some? ==>
          var rest := ParseStatusLine(o[..f]).value.1; (rest + o[f..d]) + o[d..] == rest + o[f..] by {
        assert o[f..d] + o[d..] == o[f..];
      }
    }
  }

  /** A status line that is good at the limit and has not ended gives another response one byte later. */
  lemma StatusGoesOn(o: seq<byte>)
    requires First(o) == ME_MAX_HEADERS < |o| && StartsWith(o, HTTP_1)
    requires First(o) < Arrival(o, LFLF) && First(o) < Arrival(o, CRLFCRLF)
    requires !StatusEnds(o[..First(o)]) && ParseStatusLine(o[..First(o)]).Some?
    ensures EndView(Answer(o, First(o) + 1)) != EndView(Answer(o, First(o)))
  {
    hide Answer, Find, StartsWith, StatusEnds, ParseStatusLine, EndView;
    TerminatorArrives(o, First(o));
    var f := First(o);
    AnswerOfStatus(o, f);
    NothingBehind(o, f);
    hide Terminator, First, Arrival;
    if Terminator(o[..f + 1]).Some? {
      HeaderLeavesLess(o, f + 1);
    } else {
      AnswerOfStatus(o, f + 1);
    }
    var (code, rest) := ParseStatusLine(o[..f]).value;
    LessBody(code, rest + o[f..], Answer(o, f + 1));
  }

  lemma EndedCase(o: seq<byte>, k: nat)
    requires k > 0 && First(o) == ME_MAX_HEADERS <= |o| && StartsWith(o, HTTP_1) && StatusEnds(o[..First(o)])
    requires First(o) < Arrival(o, LFLF) && First(o) < Arrival(o, CRLFCRLF)
    ensures AnswersAgree(o, k) <==> ParseStatusLine(o[..First(o)]).None? || Terminator(o[..Last(o, k)]).None?
  {
    hide Answer, StartsWith, Arrival, StatusEnds, ParseStatusLine, Terminator, EndView, First, Overruns;
    PossibleIff(o, k, Last(o, k));
    StatusEnded(o, Last(o, k));
    forall d: nat | Possible(o, k, d) && (ParseStatusLine(o[..First(o)]).None? || Terminator(o[..Last(o, k)]).None?)
      ensures EndView(Answer(o, d)) == EndView(Answer(o, First(o))) && !Overruns(Answer(o, d))
    {
      PossibleIff(o, k, d);
      StatusEnded(o, d);
      if Terminator(o[..Last(o, k)]).None? {
        NoHeaderBefore(o, d, Last(o, k));
      }
    }
  }

  lemma OpenCase(o: seq<byte>, k: nat)
    requires k > 0 && First(o) == ME_MAX_HEADERS <= |o| && StartsWith(o, HTTP_1) && !StatusEnds(o[..First(o)])
    requires First(o) < Arrival(o, LFLF) && First(o) < Arrival(o, CRLFCRLF)
    ensures ParseStatusLine(o[..First(o)]).Some? ==> (AnswersAgree(o, k) <==> Last(o, k) == First(o))
    ensures ParseStatusLine(o[..First(o)]).None? ==> EndView(Answer(o, First(o))) == ErrorReply
  {
    hide Answer, StartsWith, StatusEnds, ParseStatusLine;
    var f := First(o);
    TerminatorArrives(o, f);
    hide Terminator, Arrival;
    AnswerOfStatus(o, f);
    NothingDeclared(o, f);
    if ParseStatusLine(o[..f]).Some? && f < Last(o, k) {
      StatusGoesOn(o);
      assert Possible(o, k, f + 1);
    }
  }

  /** Which answers at and behind the limit show anything, for a status line. */
  lemma StatusAnswer(o: seq<byte>, d: nat)
    requires First(o) == ME_MAX_HEADERS <= d <= |o| && StartsWith(o, HTTP_1)
    requires First(o) < Arrival(o, LFLF) && First(o) < Arrival(o, CRLFCRLF)
    ensures var l, c := Arrival(o, LFLF), Arrival(o, CRLFCRLF);
            Overruns(Answer(o, d)) || EndView(Answer(o, d)) != ErrorReply <==>
            if d >= c then Shown(LinesOf(o[..c - 1]), |o| - c)
            else if d >= l then Shown(LinesOf(o[..l - 1]), |o| - l)
            else ParseStatusLine(o[..d]).Some?
  {
    hide Answer, Find, StartsWith, ParseStatusLine, LinesOf, Shown, EndView, Overruns;
    TerminatorArrives(o, d);
    ArrivalsInside(o);
    hide Terminator, First, Arrival;
    FailIsError([]);
    if Terminator(o[..d]).Some? {
      var (p, len) := Terminator(o[..d]).value;
      AnswerOfHeader(o, d, p, len);
      OutcomeShows(LinesOf(o[..p + len - 1]), o[p + len..]);
    } else {
      AnswerOfStatus(o, d);
      NothingDeclared(o, d);
      if ParseStatusLine(o[..d]).Some? {
        var (code, rest) := ParseStatusLine(o[..d]).value;
        LessBody(code, rest + o[d..], Fail([]));
      }
    }
  }

  lemma RefusedCase(o: seq<byte>, k: nat)
    requires k > 0 && First(o) == ME_MAX_HEADERS <= |o| && StartsWith(o, HTTP_1) && !StatusEnds(o[..First(o)])
    requires First(o) < Arrival(o, LFLF) && First(o) < Arrival(o, CRLFCRLF) && ParseStatusLine(o[..First(o)]).None?
    ensures AnswersAgree(o, k) <==> StaysRefused(o, k)
  {
    OpenCase(o, k);
    hide Answer, StartsWith, StatusEnds, ParseStatusLine, EndView, First, Last, Arrival, Possible, LinesOf, Shown, Overruns, CodeEnd;
    var f, l, c, last := First(o), Arrival(o, LFLF), Arrival(o, CRLFCRLF), Last(o, k);
    PossibleIff(o, k, last);
    PossibleIff(o, k, f);
    var e := Least(Least(l, c), last + 1);
    if AnswersAgree(o, k) {
      forall d: nat | f <= d <= last ensures EndView(Answer(o, d)) == ErrorReply && !Overruns(Answer(o, d)) {
        PossibleIff(o, k, d);
      }
      if l <= last { StatusAnswer(o, l); }
      if c <= last { StatusAnswer(o, c); }
      forall d: nat | f <= d < e ensures ParseStatusLine(o[..d]).None? {
        StatusAnswer(o, d);
      }
      GoodCodeIff(o, f, e);
    } else {
      var d :| Possible(o, k, d) && !(!Overruns(Answer(o, d)) && EndView(Answer(o, d)) == EndView(Answer(o, f)));
      PossibleIff(o, k, d);
      StatusAnswer(o, d);
      GoodCodeIff(o, f, e);
    }
  }

  lemma StatusCase(o: seq<byte>, k: nat)
    requires k > 0 && First(o) == ME_MAX_HEADERS <= |o| && StartsWith(o, HTTP_1)
    requires First(o) < Arrival(o, LFLF) && First(o) < Arrival(o, CRLFCRLF)
    ensures AnswersAgree(o, k) <==> StatusFree(o, k)
  {
    hide Answer, StartsWith, Arrival, StatusEnds, ParseStatusLine, Terminator, EndView, First, Last, Possible, AnswersAgree, StaysRefused;
    if StatusEnds(o[..First(o)]) {
      EndedCase(o, k);
    } else {
      OpenCase(o, k);
      if ParseStatusLine(o[..First(o)]).None? {
        RefusedCase(o, k);
      }
    }
  }
}
