/**
  Exactly when the client's response depends on how a FastCGI app's output is cut into STDOUT records: the pieces of
  OutputCuts are the contents of records.
 */
module FastCuts {
  import opened Bytes
  import opened FastRecords
  import opened FastInbound
  import opened CgiText
  import opened CgiResponse
  import opened FastGateway
  import opened FastSegmentation
  import opened OutputAnswers
  import opened OutputCuts
  import opened CutExamples

  const MAX_CONTENT: nat := 0xffff

  /** An end record that completes the response. */
  predicate Accepting(end: Record) {
    && end.kind == FAST_END_REQUEST && |end.content| >= 8
    && end.content[4] != FAST_CANT_MPX_CONN && end.content[4] != FAST_OVERLOADED && end.content[4] != FAST_UNKNOWN_ROLE
  }

  function ViewOf(rs: seq<Record>, end: Record): View {
    ClientView(RespondAll(BEGIN, rs + [end]))
  }

  /** The records carry the output and are this request's. */
  ghost predicate IsRecordCut(id: nat, rs: seq<Record>, o: seq<byte>) {
    IsOutput(rs) && Output(rs) == o && forall i :: 0 <= i < |rs| ==> Acceptable(id, rs[i])
  }

  /** Whatever the records, the client sees the same. */
  ghost predicate RecordsAgree(id: nat, o: seq<byte>, end: Record) {
    forall rs, rs' :: IsRecordCut(id, rs, o) && IsRecordCut(id, rs', o) ==> ViewOf(rs, end) == ViewOf(rs', end)
  }

  // ---- Records as pieces ----

  lemma {:induction false} ContentsFit(id: nat, rs: seq<Record>)
    requires IsOutput(rs) && forall i :: 0 <= i < |rs| ==> Acceptable(id, rs[i])
    ensures forall i :: 0 <= i < |Contents(rs)| ==> |Contents(rs)[i]| <= MAX_CONTENT
  {
    if rs != [] {
      ContentsFit(id, rs[1..]);
    }
  }

  lemma EndCloses(s: Response, end: Record)
    requires Accepting(end)
    ensures ClientView(Respond(s, end)) == ClientView(CloseOutput(s))
  {
    hide Parse;
    if s.held.Some? && !s.parsed {
      HeldEndsAlike(s, Parse(s.held.value, true));
      hide EndHeld;
    }
  }

  lemma HeldEndsAlike(s: Response, outcome: Outcome)
    ensures ClientView(EndHeld(s.(ended := true), outcome)) == ClientView(EndHeld(s, outcome))
  {
    hide Redirects, Declared;
    match outcome
    case Done(ops, rest) =>
      var t := ApplyOps(s, ops).(held := None, parsed := true);
      assert Forward(t.(ended := true), rest) == Forward(t, rest).(ended := true);
      hide Forward, ApplyOps;
    case _ =>
  }

  lemma ViewIsFed(rs: seq<Record>, end: Record)
    requires IsOutput(rs) && Accepting(end)
    ensures ViewOf(rs, end) == FedView(Contents(rs))
  {
    hide Respond, CloseOutput, ClientView, Accepting;
    RespondAllAppend(BEGIN, rs, [end]);
    OneRecord(RespondAll(BEGIN, rs), end);
    RespondIsFeed(BEGIN, rs);
    EndCloses(RespondAll(BEGIN, rs), end);
  }

  function StdoutRecord(id: nat, content: seq<byte>): Record {
    Record(FAST_STDOUT, id, content, [], 0)
  }

  function AsRecords(id: nat, chunks: seq<seq<byte>>): seq<Record> {
    if chunks == [] then [] else [StdoutRecord(id, chunks[0])] + AsRecords(id, chunks[1..])
  }

  lemma {:induction false} AsRecordsHold(id: nat, chunks: seq<seq<byte>>)
    requires id < 0x10000 && forall i :: 0 <= i < |chunks| ==> |chunks[i]| <= MAX_CONTENT
    ensures var rs := AsRecords(id, chunks);
            IsOutput(rs) && Contents(rs) == chunks && forall i :: 0 <= i < |rs| ==> Acceptable(id, rs[i])
  {
    if chunks != [] {
      AsRecordsHold(id, chunks[1..]);
      assert AsRecords(id, chunks)[1..] == AsRecords(id, chunks[1..]);
      assert [chunks[0]] + chunks[1..] == chunks;
    }
  }

  /** Pieces as records are a cut that shows what the pieces do. */
  lemma PiecesAsRecords(id: nat, chunks: seq<seq<byte>>, o: seq<byte>, end: Record)
    requires id < 0x10000 && Accepting(end) && IsCut(chunks, o, MAX_CONTENT)
    ensures IsRecordCut(id, AsRecords(id, chunks), o) && ViewOf(AsRecords(id, chunks), end) == FedView(chunks)
  {
    hide ViewOf, FedView, Accepting;
    AsRecordsHold(id, chunks);
    ViewIsFed(AsRecords(id, chunks), end);
  }

  /** And a cut into records is one into pieces. */
  lemma RecordsAsPieces(id: nat, rs: seq<Record>, o: seq<byte>, end: Record)
    requires Accepting(end) && IsRecordCut(id, rs, o)
    ensures IsCut(Contents(rs), o, MAX_CONTENT) && ViewOf(rs, end) == FedView(Contents(rs))
  {
    hide ViewOf, FedView, Accepting;
    ContentsFit(id, rs);
    ViewIsFed(rs, end);
  }

  // ---- The theorem ----

  /** The response depends on the records exactly when the output does not meet the condition. */
  lemma RecordsAgreeIffCutFree(id: nat, o: seq<byte>, end: Record)
    requires Accepting(end) && id < 0x10000
    ensures RecordsAgree(id, o, end) <==> CutFree(o, MAX_CONTENT)
  {
    hide IsRecordCut, IsCut, ViewOf, FedView, CutFree, Accepting;
    CutsAgreeIffCutFree(o, MAX_CONTENT);
    if RecordsAgree(id, o, end) {
      forall a, b | IsCut(a, o, MAX_CONTENT) && IsCut(b, o, MAX_CONTENT) ensures FedView(a) == FedView(b) {
        PiecesAsRecords(id, a, o, end);
        PiecesAsRecords(id, b, o, end);
      }
    }
    if CutsAgree(o, MAX_CONTENT) {
      forall rs, rs' | IsRecordCut(id, rs, o) && IsRecordCut(id, rs', o) ensures ViewOf(rs, end) == ViewOf(rs', end) {
        RecordsAsPieces(id, rs, o, end);
        RecordsAsPieces(id, rs', o, end);
      }
    }
  }

  /**
    Reads add nothing to what is forwarded and when: any socket reads deliver the records of the cut, in order. Only
    how much of a reply that is then broken off had left the pipeline can depend on them.
   */
  lemma ReadsShowTheCut(id: nat, rs: seq<Record>, end: Record, arrivals: seq<seq<byte>>)
    requires AllValid(rs + [end]) && (forall i :: 0 <= i < |rs| ==> Acceptable(id, rs[i])) && Acceptable(id, end)
    requires Flatten(arrivals) == StreamBytes(rs + [end])
    ensures ParseReads(id, [], arrivals).records == rs + [end]
    ensures ClientView(RespondAll(BEGIN, ParseReads(id, [], arrivals).records)) == ViewOf(rs, end)
  {
    hide Respond;
    assert ParseStream(id, []) == Parsed([], [], false);
    ReadsEqualBatch(id, [], arrivals);
    assert [] + Flatten(arrivals) == Flatten(arrivals);
    StreamIsParsed(id, rs + [end]);
  }

  /** Stable output meets the condition unless its body runs over the length it declares. */
  lemma StableIsCutFree(o: seq<byte>, k: nat)
    requires Stable(o) && k > 0
    ensures CutFree(o, k) <==> !Overruns(Parse(o, false))
  {
    hide Find, Parse, LinesOf, HasLines, RunsOver, EndsDiffer, StatusFree, HeadRunsOver;
    assert o[..|o|] == o && o[|o|..] == [];
    TerminatorArrives(o, |o|);
    ExtendTwice(Parse(o, false), [], []);
    if Terminator(o).None? {
      AnswersWhen(o);
    } else {
      var (p, len) := Terminator(o).value;
      ArrivalsInside(o);
      if len == 4 {
        FindInPrefix(o, LFLF, p + 4);
      }
      AnswerAt(o, |o|, p, len);
    }
  }

  // ---- Two cuts of one output ----

  /** Cut in front of the X or not cut at all, the output gives the client two different bodies. */
  lemma MixedCutsDiffer(id: nat, end: Record)
    requires id < 0x10000 && Accepting(end)
    ensures var a, b := AsRecords(id, CutAt(MIXED, MAX_CONTENT, 5)), AsRecords(id, CutAt(MIXED, MAX_CONTENT, 10));
            && IsRecordCut(id, a, MIXED) && ViewOf(a, end) == Reply([SetHeader([65], [98])], [88, 13, 10, 13, 10], true)
            && IsRecordCut(id, b, MIXED) && ViewOf(b, end) == Reply([SetHeader([65], [98])], [], true)
  {
    hide CutAt, ViewOf, IsCut, IsRecordCut, FedView, Accepting;
    MixedPieces(MAX_CONTENT);
    PiecesAsRecords(id, CutAt(MIXED, MAX_CONTENT, 5), MIXED, end);
    PiecesAsRecords(id, CutAt(MIXED, MAX_CONTENT, 10), MIXED, end);
  }

  /**
    One byte is declared and two come. Cut between them, the client has the whole declared reply, and then the
    connection breaks; not cut, it has an error instead.
   */
  lemma OverrunCutsShow(id: nat, end: Record)
    requires id < 0x10000 && Accepting(end)
    ensures var o, ops := OneByteDeclared([97, 98]), [ContentLength(1)];
            var a, b := AsRecords(id, [OneByteDeclared([97]), [98]]), AsRecords(id, [o]);
            && IsRecordCut(id, a, o) && IsRecordCut(id, b, o)
            && ClientView(RespondAll(BEGIN, a[..1])) == Reply(ops, [97], false) && ViewOf(a, end) == Aborted(ops, [97])
            && ViewOf(b, end) == ErrorReply
  {
    hide Parse, Stdout, Reached, CloseOutput, IsCut, IsRecordCut, ViewOf, OneByteDeclared, ClientView, Accepting;
    var first, second := OneByteDeclared([97]), [98];
    var o, ops := OneByteDeclared([97, 98]), [ContentLength(1)];
    OverrunPieces(MAX_CONTENT);
    PiecesAsRecords(id, [first, second], o, end);
    PiecesAsRecords(id, [o], o, end);
    var a := AsRecords(id, [first, second]);
    assert [first, second][1..] == [second];
    assert a[..1] == [StdoutRecord(id, first)] && StdoutRecord(id, first).kind == FAST_STDOUT;
    OneRecord(BEGIN, StdoutRecord(id, first));
  }
}
