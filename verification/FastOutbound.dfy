/**
  The records one request puts on its app connection, and the application's side of the same protocol
  (FastCGI Specification 1.0, sections 5.1 to 5.3): a begin record, then a PARAMS stream and a STDIN stream,
  each ended by its first empty record.
 */
module FastOutbound {
  import opened Bytes
  import opened FastRecords
  import opened FastParams

  const FAST_RESPONDER: byte := 1
  const FAST_KEEP_CONN: byte := 1

  /** Padding that brings a record up to a multiple of eight bytes. */
  function PadFor(length: nat): (pad: nat)
    ensures pad < 8 && (length + pad) % 8 == 0
  {
    if length % 8 == 0 then 0 else 8 - length % 8
  }

  /** The record createFastPacket makes of a packet's content. */
  function Framed(kind: byte, id: nat, content: seq<byte>): (r: Record)
  {
    Record(kind, id, content, Zeros(PadFor(|content|)), 0)
  }

  /** putFastRecords: pieces of at most FAST_MAX_RECORD bytes, and one empty record for empty content. */
  function Split(kind: byte, id: nat, content: seq<byte>): seq<Record>
  {
    if |content| <= FAST_MAX_RECORD then [Framed(kind, id, content)]
    else [Framed(kind, id, content[..FAST_MAX_RECORD])] + Split(kind, id, content[FAST_MAX_RECORD..])
  }

  function Begin(id: nat, keep: bool): Record {
    Framed(FAST_BEGIN_REQUEST, id, [0, FAST_RESPONDER, if keep then FAST_KEEP_CONN else 0, 0, 0, 0, 0, 0])
  }

  function ParamsRecords(id: nat, params: seq<Pair>): seq<Record> {
    Split(FAST_PARAMS, id, EncodePairs(params)) + Split(FAST_PARAMS, id, [])
  }

  function StdinRecords(id: nat, body: seq<seq<byte>>): seq<Record> {
    if body == [] then []
    else StdinRecords(id, body[..|body| - 1]) + Split(FAST_STDIN, id, body[|body| - 1])
  }

  /** Everything queued for a request whose body arrived as the given packets, the last being the end of input. */
  function RequestRecords(id: nat, keep: bool, params: seq<Pair>, body: seq<seq<byte>>): seq<Record> {
    [Begin(id, keep)] + ParamsRecords(id, params) + StdinRecords(id, body)
  }

  /** Every record this server writes holds at most 65528 bytes and is a multiple of eight bytes long. */
  ghost predicate Aligned(rs: seq<Record>) {
    forall i :: 0 <= i < |rs| ==> ValidRecord(rs[i]) && |rs[i].content| <= FAST_MAX_RECORD && |RecordBytes(rs[i])| % 8 == 0
  }

  lemma FramedAligned(kind: byte, id: nat, content: seq<byte>)
    requires id < 0x10000 && |content| <= FAST_MAX_RECORD
    ensures Aligned([Framed(kind, id, content)])
  {
    var r := Framed(kind, id, content);
    assert |RecordBytes(r)| == 8 + (|content| + PadFor(|content|));
  }

  lemma {:induction false} SplitAligned(kind: byte, id: nat, content: seq<byte>)
    requires id < 0x10000
    ensures Aligned(Split(kind, id, content))
  {
    if |content| <= FAST_MAX_RECORD {
      FramedAligned(kind, id, content);
    } else {
      FramedAligned(kind, id, content[..FAST_MAX_RECORD]);
      SplitAligned(kind, id, content[FAST_MAX_RECORD..]);
    }
  }

  lemma {:induction false} StdinAligned(id: nat, body: seq<seq<byte>>)
    requires id < 0x10000
    ensures Aligned(StdinRecords(id, body))
  {
    if body != [] {
      StdinAligned(id, body[..|body| - 1]);
      SplitAligned(FAST_STDIN, id, body[|body| - 1]);
    }
  }

  lemma RequestAligned(id: nat, keep: bool, params: seq<Pair>, body: seq<seq<byte>>)
    requires id < 0x10000
    ensures Aligned(RequestRecords(id, keep, params, body)) && AllValid(RequestRecords(id, keep, params, body))
  {
    FramedAligned(FAST_BEGIN_REQUEST, id, Begin(id, keep).content);
    SplitAligned(FAST_PARAMS, id, EncodePairs(params));
    SplitAligned(FAST_PARAMS, id, []);
    StdinAligned(id, body);
    assert [Begin(id, keep)][0] == Begin(id, keep);
  }

  // ---- The application's reader ----

  /** Read a stream: the contents of records of one kind up to the first empty one, and the records after it. */
  function TakeStream(kind: byte, rs: seq<Record>): Option<(seq<byte>, seq<Record>)> {
    if rs == [] || rs[0].kind != kind then None
    else if rs[0].content == [] then Some(([], rs[1..]))
    else match TakeStream(kind, rs[1..])
      case None => None
      case Some((c, rest)) => Some((rs[0].content + c, rest))
  }

  datatype AppInput = AppInput(keep: bool, params: seq<Pair>, stdin: seq<byte>)

  /** The records are all of one request. */
  predicate OneRequest(rs: seq<Record>) {
    forall i :: 0 <= i < |rs| ==> rs[i].id == rs[0].id
  }

  /**
    A complete request, with the numbers of sections 5.1 to 5.3 and 8: begin (type 1) for a responder (role 1), the
    PARAMS stream (type 4), the STDIN stream (type 5), and nothing after the end of STDIN. Bit 0 of the flags is keep.
   */
  function ReadRequest(rs: seq<Record>): Option<AppInput> {
    if rs == [] || !OneRequest(rs) || rs[0].kind != 1 || |rs[0].content| != 8 || rs[0].content[0] != 0 || rs[0].content[1] != 1 then None
    else match TakeStream(4, rs[1..])
      case None => None
      case Some((p, rest)) =>
        match TakeStream(5, rest)
        case None => None
        case Some((stdin, after)) =>
          match DecodePairs(p)
          case None => None
          case Some(params) =>
            if after != [] then None else Some(AppInput(rs[0].content[2] % 2 == 1, params, stdin))
  }

  // ---- The stream lemmas ----

  function Prepend(c: seq<byte>, r: Option<(seq<byte>, seq<Record>)>): Option<(seq<byte>, seq<Record>)> {
    match r
    case None => None
    case Some((d, rest)) => Some((c + d, rest))
  }

  /** Split pieces of non-empty content put that content on the stream and leave it open. */
  lemma {:induction false} TakeSplit(kind: byte, id: nat, c: seq<byte>, rest: seq<Record>)
    requires c != []
    ensures TakeStream(kind, Split(kind, id, c) + rest) == Prepend(c, TakeStream(kind, rest))
  {
    var rs := Split(kind, id, c) + rest;
    if |c| <= FAST_MAX_RECORD {
      assert rs[1..] == rest;
    } else {
      var tail := c[FAST_MAX_RECORD..];
      assert rs[1..] == Split(kind, id, tail) + rest;
      TakeSplit(kind, id, tail, rest);
      if TakeStream(kind, rest).Some? {
        var d := TakeStream(kind, rest).value.0;
        assert c[..FAST_MAX_RECORD] + (tail + d) == c + d;
      }
    }
  }

  lemma TakeEmpty(kind: byte, id: nat, rest: seq<Record>)
    ensures TakeStream(kind, Split(kind, id, []) + rest) == Some(([], rest))
  {
    assert (Split(kind, id, []) + rest)[1..] == rest;
  }

  ghost predicate NonEmpty(parts: seq<seq<byte>>) {
    forall i :: 0 <= i < |parts| ==> parts[i] != []
  }

  lemma PrependJoins(a: seq<byte>, b: seq<byte>, x: Option<(seq<byte>, seq<Record>)>)
    ensures Prepend(a, Prepend(b, x)) == Prepend(a + b, x) && Prepend([], x) == x
  {
    if x.Some? {
      assert a + (b + x.value.0) == (a + b) + x.value.0;
      assert [] + x.value.0 == x.value.0;
    }
  }

  /** Reading past a body of non-empty packets. */
  lemma {:induction false} TakeBody(id: nat, body: seq<seq<byte>>, rest: seq<Record>)
    requires NonEmpty(body)
    ensures TakeStream(FAST_STDIN, StdinRecords(id, body) + rest) == Prepend(Flatten(body), TakeStream(FAST_STDIN, rest))
  {
    hide TakeStream, Split, Prepend;
    if body == [] {
      assert StdinRecords(id, body) + rest == rest;
      PrependJoins([], [], TakeStream(FAST_STDIN, rest));
    } else {
      var init, last := body[..|body| - 1], body[|body| - 1];
      var more := Split(FAST_STDIN, id, last) + rest;
      assert StdinRecords(id, body) + rest == StdinRecords(id, init) + more;
      TakeBody(id, init, more);
      TakeSplit(FAST_STDIN, id, last, rest);
      assert body == init + [last];
      FlattenOne(init, last);
      PrependJoins(Flatten(init), last, TakeStream(FAST_STDIN, rest));
    }
  }

  lemma {:induction false} StdinAppend(id: nat, a: seq<seq<byte>>, b: seq<seq<byte>>)
    ensures StdinRecords(id, a + b) == StdinRecords(id, a) + StdinRecords(id, b)
  {
    if b == [] {
      assert a + b == a;
    } else {
      var init, last := b[..|b| - 1], b[|b| - 1];
      assert (a + b)[..|a + b| - 1] == a + init && (a + b)[|a + b| - 1] == last;
      StdinAppend(id, a, init);
    }
  }

  lemma StdinOne(id: nat, a: seq<seq<byte>>, x: seq<byte>)
    ensures StdinRecords(id, a + [x]) == StdinRecords(id, a) + Split(FAST_STDIN, id, x)
  {
    assert (a + [x])[..|a|] == a;
  }

  lemma RequestOne(id: nat, keep: bool, params: seq<Pair>, body: seq<seq<byte>>, x: seq<byte>)
    ensures RequestRecords(id, keep, params, body + [x]) == RequestRecords(id, keep, params, body) + Split(FAST_STDIN, id, x)
  {
    StdinOne(id, body, x);
  }

  /** A STDIN stream is complete exactly when its packets are non-empty and its end packet is empty. */
  predicate WellFormedBody(body: seq<seq<byte>>) {
    body != [] && body[|body| - 1] == [] && forall i :: 0 <= i < |body| - 1 ==> body[i] != []
  }

  lemma SplitIsNotEmpty(kind: byte, id: nat, c: seq<byte>)
    ensures Split(kind, id, c) != []
  {
  }

  lemma {:induction false} StdinNotEmpty(id: nat, body: seq<seq<byte>>)
    requires body != []
    ensures StdinRecords(id, body) != []
  {
    SplitIsNotEmpty(FAST_STDIN, id, body[|body| - 1]);
  }

  lemma StdinWithoutEmpty(id: nat, body: seq<seq<byte>>)
    requires NonEmpty(body)
    ensures TakeStream(FAST_STDIN, StdinRecords(id, body)) == None
  {
    TakeBody(id, body, []);
    assert StdinRecords(id, body) + [] == StdinRecords(id, body);
  }

  lemma StdinUpToGap(id: nat, a: seq<seq<byte>>, b: seq<seq<byte>>)
    requires NonEmpty(a)
    ensures TakeStream(FAST_STDIN, StdinRecords(id, a + [[]] + b)) == Some((Flatten(a), StdinRecords(id, b)))
  {
    StdinAppend(id, a + [[]], b);
    StdinOne(id, a, []);
    var tail := Split(FAST_STDIN, id, []) + StdinRecords(id, b);
    assert StdinRecords(id, a + [[]] + b) == StdinRecords(id, a) + tail;
    TakeEmpty(FAST_STDIN, id, StdinRecords(id, b));
    TakeBody(id, a, tail);
    assert Flatten(a) + [] == Flatten(a);
  }

  lemma StdinReadsBack(id: nat, body: seq<seq<byte>>)
    ensures WellFormedBody(body) ==> TakeStream(FAST_STDIN, StdinRecords(id, body)) == Some((Flatten(body), []))
    ensures !WellFormedBody(body) ==>
              var r := TakeStream(FAST_STDIN, StdinRecords(id, body));
              r.None? || r.value.1 != []
  {
    if NonEmpty(body) {
      StdinWithoutEmpty(id, body);
    } else {
      var k := FirstEmpty(body);
      assert body == body[..k] + [[]] + body[k + 1..];
      StdinUpToGap(id, body[..k], body[k + 1..]);
      if k + 1 < |body| {
        StdinNotEmpty(id, body[k + 1..]);
      } else {
        assert forall i :: 0 <= i < k ==> body[i] == body[..k][i];
        assert body == body[..k] + [[]];
        FlattenOne(body[..k], []);
        assert Flatten(body[..k]) + [] == Flatten(body[..k]);
      }
    }
  }

  lemma {:induction false} FirstEmpty(body: seq<seq<byte>>) returns (k: nat)
    requires !NonEmpty(body)
    ensures k < |body| && body[k] == [] && NonEmpty(body[..k])
  {
    if body[0] == [] {
      k := 0;
    } else {
      assert body[1..] != [] && !NonEmpty(body[1..]) by {
        var i :| 0 <= i < |body| && body[i] == [];
        assert body[1..][i - 1] == [];
      }
      var j := FirstEmpty(body[1..]);
      k := j + 1;
      assert forall i :: 1 <= i < k ==> body[i] == body[1..][i - 1] && body[1..][i - 1] == body[1..][..j][i - 1];
    }
  }

  /** Behind the begin record the reader finds the encoded pairs and then STDIN, unless there are no pairs. */
  lemma ParamsReadBack(id: nat, params: seq<Pair>, stdin: seq<Record>)
    ensures params != [] ==> TakeStream(FAST_PARAMS, ParamsRecords(id, params) + stdin) == Some((EncodePairs(params), stdin))
    ensures params == [] ==>
              TakeStream(FAST_PARAMS, ParamsRecords(id, params) + stdin) == Some(([], Split(FAST_PARAMS, id, []) + stdin))
  {
    var p := EncodePairs(params);
    var tail := Split(FAST_PARAMS, id, []) + stdin;
    assert ParamsRecords(id, params) + stdin == Split(FAST_PARAMS, id, p) + tail;
    TakeEmpty(FAST_PARAMS, id, stdin);
    if params == [] {
      TakeEmpty(FAST_PARAMS, id, tail);
    } else {
      assert p == EncodePair(params[0]) + EncodePairs(params[1..]) && p != [];
      TakeSplit(FAST_PARAMS, id, p, tail);
      assert p + [] == p;
    }
  }

  /**
    The application reads back exactly the pairs and the body that were sent, if and only if there is at least
    one pair, no body packet is empty, and the end packet is empty.
   */
  lemma RequestRoundTrip(id: nat, keep: bool, params: seq<Pair>, body: seq<seq<byte>>)
    requires forall i :: 0 <= i < |params| ==> ValidPair(params[i])
    ensures ReadRequest(RequestRecords(id, keep, params, body)) == Some(AppInput(keep, params, Flatten(body)))
            <==> params != [] && WellFormedBody(body)
  {
    var stdin := StdinRecords(id, body);
    var rs := RequestRecords(id, keep, params, body);
    BeginLayout(id, keep, params, body);
    ParamsReadBack(id, params, stdin);
    if params == [] {
      assert (Split(FAST_PARAMS, id, []) + stdin)[0].kind == FAST_PARAMS;
      ReadRequestFails(rs, [], Split(FAST_PARAMS, id, []) + stdin);
    } else {
      StdinReadsBack(id, body);
      PairsRoundTrip(params);
      if WellFormedBody(body) {
        ReadRequestSteps(rs, EncodePairs(params), stdin, Flatten(body), params);
      } else {
        ReadRequestFails(rs, EncodePairs(params), stdin);
      }
    }
  }

  lemma BeginLayout(id: nat, keep: bool, params: seq<Pair>, body: seq<seq<byte>>)
    ensures var rs := RequestRecords(id, keep, params, body);
            && rs != [] && rs[0] == Begin(id, keep) && rs[1..] == ParamsRecords(id, params) + StdinRecords(id, body)
            && rs[0].kind == 1 && |rs[0].content| == 8 && rs[0].content[0] == 0 && rs[0].content[1] == 1
            && (rs[0].content[2] % 2 == 1 <==> keep) && OneRequest(rs)
  {
    AllOfOne(id, keep, params, body);
  }

  lemma {:induction false} SplitOfOne(kind: byte, id: nat, content: seq<byte>)
    ensures forall r <- Split(kind, id, content) :: r.id == id
  {
    if |content| > FAST_MAX_RECORD {
      SplitOfOne(kind, id, content[FAST_MAX_RECORD..]);
    }
  }

  lemma {:induction false} StdinOfOne(id: nat, body: seq<seq<byte>>)
    ensures forall r <- StdinRecords(id, body) :: r.id == id
  {
    if body != [] {
      StdinOfOne(id, body[..|body| - 1]);
      SplitOfOne(FAST_STDIN, id, body[|body| - 1]);
    }
  }

  lemma AllOfOne(id: nat, keep: bool, params: seq<Pair>, body: seq<seq<byte>>)
    ensures forall r <- RequestRecords(id, keep, params, body) :: r.id == id
  {
    hide Split, StdinRecords;
    SplitOfOne(FAST_PARAMS, id, EncodePairs(params));
    SplitOfOne(FAST_PARAMS, id, []);
    StdinOfOne(id, body);
  }

  lemma ReadRequestSteps(rs: seq<Record>, p: seq<byte>, rest: seq<Record>, stdin: seq<byte>, params: seq<Pair>)
    requires rs != [] && OneRequest(rs) && rs[0].kind == 1
    requires |rs[0].content| == 8 && rs[0].content[0] == 0 && rs[0].content[1] == 1
    requires TakeStream(FAST_PARAMS, rs[1..]) == Some((p, rest)) && TakeStream(FAST_STDIN, rest) == Some((stdin, []))
    requires DecodePairs(p) == Some(params)
    ensures ReadRequest(rs) == Some(AppInput(rs[0].content[2] % 2 == 1, params, stdin))
  {
  }

  lemma ReadRequestFails(rs: seq<Record>, p: seq<byte>, rest: seq<Record>)
    requires rs != [] && TakeStream(FAST_PARAMS, rs[1..]) == Some((p, rest))
    requires TakeStream(FAST_STDIN, rest).None? || TakeStream(FAST_STDIN, rest).value.1 != []
    ensures ReadRequest(rs) == None
  {
  }

  /** The same from the bytes on the connection, through the section 3.3 reader. */
  lemma RequestBytesRoundTrip(id: nat, keep: bool, params: seq<Pair>, body: seq<seq<byte>>)
    requires id < 0x10000 && forall i :: 0 <= i < |params| ==> ValidPair(params[i])
    ensures AllValid(RequestRecords(id, keep, params, body))
    ensures ReadRequest(ReadAll(StreamBytes(RequestRecords(id, keep, params, body)))) == Some(AppInput(keep, params, Flatten(body)))
            <==> params != [] && WellFormedBody(body)
  {
    hide RequestRecords, ReadRequest, ReadAll, StreamBytes;
    RequestAligned(id, keep, params, body);
    ReadAllOfStream(RequestRecords(id, keep, params, body));
    RequestRoundTrip(id, keep, params, body);
  }

  // ---- A body that is shorter than declared ----

  /** A body whose end packet was short ends in an empty packet; it is well formed exactly if the others are not empty. */
  lemma ShortBody(body: seq<seq<byte>>)
    ensures WellFormedBody(body + [[]]) <==> NonEmpty(body)
    ensures Flatten(body + [[]]) == Flatten(body)
  {
    var b := body + [[]];
    assert b[|b| - 1] == [] && forall i :: 0 <= i < |body| ==> b[i] == body[i];
    FlattenOne(body, []);
  }

  /** No record of a request tells the app that it was aborted. */
  lemma {:induction false} NeverAborted(id: nat, keep: bool, params: seq<Pair>, body: seq<seq<byte>>)
    ensures forall r <- RequestRecords(id, keep, params, body) :: r.kind != FAST_ABORT_REQUEST
  {
    SplitKind(FAST_PARAMS, id, EncodePairs(params));
    SplitKind(FAST_PARAMS, id, []);
    StdinKind(id, body);
  }

  lemma {:induction false} SplitKind(kind: byte, id: nat, content: seq<byte>)
    ensures forall r <- Split(kind, id, content) :: r.kind == kind
    decreases |content|
  {
    if |content| > FAST_MAX_RECORD {
      SplitKind(kind, id, content[FAST_MAX_RECORD..]);
    }
  }

  lemma {:induction false} StdinKind(id: nat, body: seq<seq<byte>>)
    ensures forall r <- StdinRecords(id, body) :: r.kind == FAST_STDIN
  {
    if body != [] {
      hide Split;
      SplitKind(FAST_STDIN, id, body[|body| - 1]);
      StdinKind(id, body[..|body| - 1]);
    }
  }

  /**
    The records queued for a short body are read as a complete request exactly when there are pairs and no body packet
    was empty: the app cannot tell that bytes are missing.
   */
  lemma ShortRequestReadsComplete(id: nat, keep: bool, params: seq<Pair>, body: seq<seq<byte>>)
    requires id < 0x10000 && forall i :: 0 <= i < |params| ==> ValidPair(params[i])
    ensures AllValid(RequestRecords(id, keep, params, body + [[]]))
    ensures var bytes := StreamBytes(RequestRecords(id, keep, params, body + [[]]));
            ReadRequest(ReadAll(bytes)) == Some(AppInput(keep, params, Flatten(body))) <==> params != [] && NonEmpty(body)
  {
    ShortBody(body);
    RequestBytesRoundTrip(id, keep, params, body + [[]]);
  }

  /** A request for which only BEGIN was queued is not a request to the app. */
  lemma BeginAloneIsNoRequest(id: nat, keep: bool)
    ensures ReadRequest([Begin(id, keep)]) == None
  {
    assert [Begin(id, keep)][1..] == [];
  }

  // ---- A known request ----

  /**
    Request 1, kept alive, with the variable A=b and the one-byte body "x", byte by byte: BEGIN for a responder, PARAMS
    and its empty record, STDIN and its empty record, each with its padding.
   */
  lemma KnownRequest()
    ensures var rs := RequestRecords(1, true, [Pair([65], [98])], [[120], []]);
            AllValid(rs) && StreamBytes(rs)
            == ([1, 1, 0, 1, 0, 8, 0, 0] + [0, 1, 1, 0, 0, 0, 0, 0])
             + ([1, 4, 0, 1, 0, 4, 4, 0] + [1, 1, 65, 98, 0, 0, 0, 0]) + [1, 4, 0, 1, 0, 0, 0, 0]
             + ([1, 5, 0, 1, 0, 1, 7, 0] + [120, 0, 0, 0, 0, 0, 0, 0]) + [1, 5, 0, 1, 0, 0, 0, 0]
  {
    RequestAligned(1, true, [Pair([65], [98])], [[120], []]);
    KnownRecords();
    KnownBytes();
    hide RecordBytes, RequestRecords, Framed, Begin, StreamBytes, AllValid;
    var a, b, c, d, e := Begin(1, true), Framed(4, 1, [1, 1, 65, 98]), Framed(4, 1, []), Framed(5, 1, [120]), Framed(5, 1, []);
    StreamOfFirst(a, [b] + ([c] + ([d] + ([e] + []))));
    StreamOfFirst(b, [c] + ([d] + ([e] + [])));
    StreamOfFirst(c, [d] + ([e] + []));
    StreamOfFirst(d, [e] + []);
    StreamOfFirst(e, []);
    StreamOfNone();
    FiveParts(RecordBytes(a), RecordBytes(b), RecordBytes(c), RecordBytes(d), RecordBytes(e));
  }

  lemma FiveParts(a: seq<byte>, b: seq<byte>, c: seq<byte>, d: seq<byte>, e: seq<byte>)
    ensures a + (b + (c + (d + (e + [])))) == a + b + c + d + e
  {
  }

  lemma StreamOfNone()
    ensures StreamBytes([]) == []
  {
  }

  lemma KnownRecords()
    ensures RequestRecords(1, true, [Pair([65], [98])], [[120], []])
            == [Begin(1, true)] + ([Framed(4, 1, [1, 1, 65, 98])] + ([Framed(4, 1, [])] + ([Framed(5, 1, [120])] + ([Framed(5, 1, [])] + []))))
  {
    KnownPieces();
    hide Begin, Framed, ParamsRecords, StdinRecords;
  }

  lemma StreamOfFirst(r: Record, rs: seq<Record>)
    requires AllValid([r] + rs)
    ensures ValidRecord(r) && AllValid(rs) && StreamBytes([r] + rs) == RecordBytes(r) + StreamBytes(rs)
  {
    assert ([r] + rs)[0] == r && ([r] + rs)[1..] == rs;
    assert forall i :: 0 <= i < |rs| ==> rs[i] == ([r] + rs)[i + 1];
  }

  lemma KnownPieces()
    ensures ParamsRecords(1, [Pair([65], [98])]) == [Framed(4, 1, [1, 1, 65, 98])] + [Framed(4, 1, [])]
    ensures StdinRecords(1, [[120], []]) == [Framed(5, 1, [120])] + [Framed(5, 1, [])]
  {
    var p := Pair([65], [98]);
    assert [p][1..] == [] && EncodePairs([p]) == EncodePair(p) + EncodePairs([]);
    assert EncodePair(p) == [1, 1, 65, 98];
    assert EncodePairs([p]) == [1, 1, 65, 98];
    var body: seq<seq<byte>> := [[120], []];
    assert body[..1] == [[120]] && [[120]][..0] == [];
    assert StdinRecords(1, [[120]]) == StdinRecords(1, []) + Split(5, 1, [120]);
  }

  lemma KnownBytes()
    ensures RecordBytes(Begin(1, true)) == [1, 1, 0, 1, 0, 8, 0, 0] + [0, 1, 1, 0, 0, 0, 0, 0]
    ensures RecordBytes(Framed(4, 1, [1, 1, 65, 98])) == [1, 4, 0, 1, 0, 4, 4, 0] + [1, 1, 65, 98, 0, 0, 0, 0]
    ensures RecordBytes(Framed(4, 1, [])) == [1, 4, 0, 1, 0, 0, 0, 0]
    ensures RecordBytes(Framed(5, 1, [120])) == [1, 5, 0, 1, 0, 1, 7, 0] + [120, 0, 0, 0, 0, 0, 0, 0]
    ensures RecordBytes(Framed(5, 1, [])) == [1, 5, 0, 1, 0, 0, 0, 0]
  {
    assert Zeros(0) == [] && Zeros(4) == [0, 0, 0, 0] && Zeros(7) == [0, 0, 0, 0, 0, 0, 0];
  }
}
