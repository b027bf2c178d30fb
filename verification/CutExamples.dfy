/** Concrete outputs that are felt differently when they are cut differently, and one that is not. */
module CutExamples {
  import opened Bytes
  import opened CgiText
  import opened CgiResponse
  import opened FastGateway
  import opened FastSegmentation
  import opened OutputAnswers
  import opened OutputCuts

  // ---- LF LF in front of CRLF CRLF ----

  /** "A:b" LF LF "X" CR LF CR LF. */
  const MIXED: seq<byte> := [65, 58, 98, 10, 10, 88, 13, 10, 13, 10]

  lemma MixedArrivals()
    ensures Arrival(MIXED, LFLF) == 5 && Arrival(MIXED, CRLFCRLF) == 10 && !StartsWith(MIXED, HTTP_1)
  {
    hide Find;
    var a: seq<byte> := [65, 58, 98];
    var b: seq<byte> := [65, 58, 98, 10, 10, 88];
    assert MIXED == a + (LFLF + [88, 13, 10, 13, 10]);
    FindAfter(a, [88, 13, 10, 13, 10], LFLF);
    assert MIXED == b + (CRLFCRLF + []);
    FindAfter(b, [], CRLFCRLF);
    assert MIXED[..7][0] != HTTP_1[0];
  }

  /** The header line of that output. */
  lemma MixedFields()
    ensures StartsWithHeader(MIXED[..3]) && ParseFields(MIXED[..4]) == Fields([SetHeader([65], [98])], true)
  {
    var line: seq<byte> := [65, 58, 98, 10];
    assert MIXED[..4] == line && MIXED[..3] == [65, 58, 98];
    assert IndexOf([65, 58, 98], COLON) == Some(1) && IndexOf([65], LF).None? by {
      assert [65, 58, 98][1..] == [58, 98];
    }
    assert [65, 58, 98][..1] == [65];
    LineTokens();
    ParseFieldsStep(line, [65], [98], [], [98]);
    OrdinaryField();
  }

  lemma LineTokens()
    ensures GetToken([65, 58, 98, 10], COLON) == ([65], [98, 10]) && GetToken([98, 10], LF) == ([98], [])
    ensures TrimEol(SkipSpace([98])) == [98]
  {
    hide Find;
    var line: seq<byte> := [65, 58, 98, 10];
    assert line == [65] + ([COLON] + [98, 10]);
    FindAfter([65], [98, 10], [COLON]);
    GetTokenFound(line, COLON, 1);
    var value: seq<byte> := [98, 10];
    assert value == [98] + ([LF] + []);
    FindAfter([98], [], [LF]);
    GetTokenFound(value, LF, 1);
  }

  lemma OrdinaryField()
    ensures FieldOp([65], [98]) == Some(SetHeader([65], [98])) && !HasEol([98]) && IsToken([65])
  {
  }

  lemma MixedMeanings()
    ensures !Overruns(Answer(MIXED, 5)) && !Overruns(Answer(MIXED, 10))
    ensures EndView(Answer(MIXED, 5)) == Reply([SetHeader([65], [98])], [88, 13, 10, 13, 10], true)
    ensures EndView(Answer(MIXED, 10)) == Reply([SetHeader([65], [98])], [], true)
  {
    hide Parse, ParseFields, StartsWithHeader, Terminator, Find, Answer;
    MixedArrivals();
    MixedFields();
    TerminatorArrives(MIXED, 5);
    TerminatorArrives(MIXED, 10);
    AnswerOfHeader(MIXED, 5, 3, 2);
    AnswerOfHeader(MIXED, 10, 6, 4);
    ArrivalsInside(MIXED);
    HeaderSettled(MIXED, 3, 6);
    SameLines(MIXED, 5, 10);
    assert MIXED[3] == LF;
    assert MIXED[5..] == [88, 13, 10, 13, 10] && MIXED[10..] == [];
  }

  /** Cut in front of the X or not cut at all, that output leaves two different bodies. */
  lemma MixedPieces(k: nat)
    requires k >= 10
    ensures var a, b := CutAt(MIXED, k, 5), CutAt(MIXED, k, 10);
            && IsCut(a, MIXED, k) && FedView(a) == Reply([SetHeader([65], [98])], [88, 13, 10, 13, 10], true)
            && IsCut(b, MIXED, k) && FedView(b) == Reply([SetHeader([65], [98])], [], true)
  {
    hide CutAt, IsCut, FedView, Answer, ParseFields, StartsWithHeader, Arrival;
    MixedArrivals();
    assert First(MIXED) == 5;
    MixedMeanings();
    ViewAt(MIXED, k, 5);
    ViewAt(MIXED, k, 10);
  }

  /** "h" LF LF "X" CR LF CR LF. */
  const MIXED_BODY: seq<byte> := [104, 10, 10, 88, 13, 10, 13, 10]

  lemma MixedBodyEnds()
    ensures Find(MIXED_BODY, LFLF) == Some(1) && Find(MIXED_BODY, CRLFCRLF) == Some(4)
    ensures !StartsWith(MIXED_BODY, HTTP_1) && !StartsWithHeader([104])
  {
    hide Find;
    assert MIXED_BODY == [104] + (LFLF + [88, 13, 10, 13, 10]);
    FindAfter([104], [88, 13, 10, 13, 10], LFLF);
    assert MIXED_BODY == [104, 10, 10, 88] + (CRLFCRLF + []);
    FindAfter([104, 10, 10, 88], [], CRLFCRLF);
    assert MIXED_BODY[..7][0] != HTTP_1[0];
    assert IndexOf([104], COLON).None?;
  }

  /** Mixed header ends alone do no harm: this output has no header lines, and any cut of it is all body. */
  lemma MixedBodyIsCutFree(k: nat)
    requires k > 0
    ensures !Stable(MIXED_BODY) && CutFree(MIXED_BODY, k)
  {
    hide Find, StartsWithHeader, StartsWith, ParseFields, EndView, Answer;
    MixedBodyEnds();
    assert MIXED_BODY[..8] == MIXED_BODY && MIXED_BODY[..1] == [104];
    assert First(MIXED_BODY) == 3 == Arrival(MIXED_BODY, LFLF) && Arrival(MIXED_BODY, CRLFCRLF) == 8;
  }

  // ---- A body longer than declared ----

  /** A length of one, declared for the given body. */
  function OneByteDeclared(body: seq<byte>): seq<byte> {
    Print([Field(CONTENT_LENGTH, [49])], body)
  }

  lemma OneByteParses(body: seq<byte>)
    ensures Parse(OneByteDeclared(body), false) == Done([ContentLength(1)], body)
    ensures |OneByteDeclared(body)| == 21 + |body| && OneByteDeclared(body) == OneByteDeclared([]) + body
  {
    hide Parse;
    var f := Field(CONTENT_LENGTH, [49]);
    assert [f][1..] == [] && [f][0] == f;
    assert PrintLines([f]) == PrintLine(f) + PrintLines([]);
    assert Printable(f) && ParseDigits([49]) == Some(1) by {
      assert [49][1..] == [];
    }
    assert FieldOp(f.name, f.value) == Some(ContentLength(1));
    PrintParse([f], body, false);
  }

  /** One byte is declared and two come: cut between them, the declared reply is forwarded and then broken off. */
  lemma OverrunPieces(k: nat)
    requires k >= 23
    ensures var first, o, ops := OneByteDeclared([97]), OneByteDeclared([97, 98]), [ContentLength(1)];
            && IsCut([first, [98]], o, k) && IsCut([o], o, k)
            && ClientView(Stdout(BEGIN, first)) == Reply(ops, [97], false)
            && FedView([first, [98]]) == Broken(ops, [97]) && FedView([o]) == ErrorReply
  {
    hide Parse, CloseOutput, OneByteDeclared, IsCut;
    var first, second: seq<byte> := OneByteDeclared([97]), [98];
    var o, ops := OneByteDeclared([97, 98]), [ContentLength(1)];
    OneByteParses([97]);
    OneByteParses([97, 98]);
    assert OneByteDeclared([]) + [97, 98] == first + second;
    OneCut(first, k);
    OneCut(second, k);
    OneCut(o, k);
    CutAppend([first], [second], first, second, k);
    assert [first] + [second] == [first, second];
    OneDeclared();
    assert [] + first == first && [] + o == o && [] + ops == ops && [] + [97] == [97];
    StartWaits();
    FirstAnswer(BEGIN, [], first);
    FirstAnswer(BEGIN, [], o);
    FeedAppend(BEGIN, [first], [second]);
    FeedOne(BEGIN, first);
    FeedOne(Stdout(BEGIN, first), second);
    FeedOne(BEGIN, o);
    BreaksOff(Stdout(BEGIN, first), ops, [97], second, []);
    CloseReached(Stdout(BEGIN, o), Done(ops, [97, 98]));
    var t := Stdout(BEGIN, o);
    assert t.body == [];
    FailedCloses(t);
    hide Stdout, Redirects, Declared;
  }

  lemma OneDeclared()
    ensures Declared([ContentLength(1)], None) == Some(1) && !Redirects([ContentLength(1)])
  {
    assert [ContentLength(1)][1..] == [] && Declared([], Some(1)) == Some(1);
  }
}
