/**
  Segmentation independence, end to end: however the app's output is cut into STDOUT records, and the record stream
  into socket reads, the client gets the same response. The given on the output is exact: see FastCuts.
 */
module FastSegmentation {
  import opened Bytes
  import opened FastRecords
  import opened FastInbound
  import opened CgiText
  import opened CgiResponse
  import opened FastGateway

  ghost predicate NulFree(s: seq<byte>) {
    forall i :: 0 <= i < |s| ==> s[i] != NUL
  }

  // ---- The parser sees nothing past the NUL that ends the header block ----

  lemma StartsBeforeNul(a: seq<byte>, t: seq<byte>, pattern: seq<byte>)
    requires NulFree(pattern)
    ensures StartsWith(a + [NUL] + t, pattern) == StartsWith(a, pattern)
  {
    var s := a + [NUL] + t;
    if |pattern| <= |a| {
      assert s[..|pattern|] == a[..|pattern|];
    } else if |pattern| <= |s| {
      assert s[..|pattern|][|a|] == NUL;
    }
  }

  lemma {:induction false} FindStopsAtNul(a: seq<byte>, t: seq<byte>, pattern: seq<byte>)
    requires NulFree(a) && NulFree(pattern)
    ensures Find(a + [NUL] + t, pattern) == Find(a, pattern)
  {
    if a != [] {
      assert (a + [NUL] + t)[1..] == a[1..] + [NUL] + t;
      StartsBeforeNul(a, t, pattern);
      FindStopsAtNul(a[1..], t, pattern);
    }
  }

  lemma {:induction false} CStringStopsAtNul(a: seq<byte>, t: seq<byte>)
    requires NulFree(a)
    ensures CString(a + [NUL] + t) == a == CString(a)
  {
    if a != [] {
      assert (a + [NUL] + t)[1..] == a[1..] + [NUL] + t;
      CStringStopsAtNul(a[1..], t);
    }
  }

  /** A token of a NUL-ended block is the token of the block, and what follows is the block's rest, or nothing. */
  lemma GetTokenInBlock(a: seq<byte>, t: seq<byte>, delim: byte)
    requires NulFree(a) && delim != NUL
    ensures GetToken(a + [NUL] + t, delim).0 == GetToken(a, delim).0
    ensures NulFree(GetToken(a, delim).1)
    ensures GetToken(a + [NUL] + t, delim).1 == GetToken(a, delim).1 + [NUL] + t
            || (GetToken(a + [NUL] + t, delim).1 == [] && GetToken(a, delim).1 == [])
  {
    var r := a + [NUL] + t;
    hide Find;
    hide CString;
    FindStopsAtNul(a, t, [delim]);
    CStringStopsAtNul(a, t);
    FindIsMatch(a, [delim]);
    if Find(a, [delim]).Some? {
      var k := Find(a, [delim]).value;
      assert r[..k] == a[..k] && r[k + 1..] == a[k + 1..] + [NUL] + t;
    }
  }

  lemma {:induction false} ParseFieldsInBlock(a: seq<byte>, t: seq<byte>)
    requires NulFree(a)
    ensures ParseFields(a + [NUL] + t) == ParseFields(a)
    decreases |a|
  {
    hide GetToken;
    hide FieldOp;
    hide IsToken;
    hide HasEol;
    hide TrimEol;
    if a != [] && !IsEol(a[0]) {
      var r := a + [NUL] + t;
      assert r[0] == a[0];
      GetTokenInBlock(a, t, COLON);
      var a1, r1 := GetToken(a, COLON).1, GetToken(r, COLON).1;
      assert GetToken(r1, LF).0 == GetToken(a1, LF).0 && |GetToken(a1, LF).1| < |a| && NulFree(GetToken(a1, LF).1)
             && (GetToken(r1, LF).1 == GetToken(a1, LF).1 + [NUL] + t || GetToken(r1, LF).1 == GetToken(a1, LF).1) by {
        if r1 == a1 + [NUL] + t {
          GetTokenInBlock(a1, t, LF);
        } else {
          GetTokenOfEmpty(LF);
        }
      }
      ParseFieldsInBlock(GetToken(a1, LF).1, t);
      var text := GetToken(a1, LF).0;
      ParseFieldsStep(a, GetToken(a, COLON).0, text, GetToken(a1, LF).1, TrimEol(SkipSpace(text)));
      ParseFieldsStep(r, GetToken(r, COLON).0, text, GetToken(r1, LF).1, TrimEol(SkipSpace(text)));
    }
  }

  lemma GetTokenOfEmpty(delim: byte)
    ensures GetToken([], delim) == ([], [])
  {
  }

  /** The status line of a NUL-ended block, and the fields after it, are those of the block. */
  lemma StatusInBlock(a: seq<byte>, t: seq<byte>)
    requires NulFree(a)
    ensures ParseStatusLine(a + [NUL] + t).None? == ParseStatusLine(a).None?
    ensures ParseStatusLine(a).Some? ==>
              && ParseStatusLine(a + [NUL] + t).value.0 == ParseStatusLine(a).value.0
              && ParseFields(ParseStatusLine(a + [NUL] + t).value.1) == ParseFields(ParseStatusLine(a).value.1)
  {
    hide GetToken;
    hide ParseStatus;
    hide ParseFields;
    var r := a + [NUL] + t;
    GetTokenInBlock(a, t, SPACE);
    var a1, r1 := GetToken(a, SPACE).1, GetToken(r, SPACE).1;
    if r1 == a1 + [NUL] + t {
      GetTokenInBlock(a1, t, LF);
      if GetToken(r1, LF).1 == GetToken(a1, LF).1 + [NUL] + t {
        ParseFieldsInBlock(GetToken(a1, LF).1, t);
      }
    } else {
      GetTokenOfEmpty(LF);
    }
  }

  /** What follows the header block in the buffer only matters as body. */
  function Extend(o: Outcome, more: seq<byte>): Outcome {
    match o
    case Done(ops, body) => Done(ops, body + more)
    case Fail(ops) => Fail(ops)
    case NeedMore => NeedMore
  }

  /** The outcome of a block of p bytes with its terminator less its last byte, followed by a body. */
  function BlockOutcome(block: seq<byte>, p: nat, whole: seq<byte>, body: seq<byte>): Outcome
    requires p <= |block|
  {
    var statusLine := StartsWith(block, HTTP_1);
    if !statusLine && !StartsWithHeader(block[..p]) then Done([], whole)
    else if statusLine && ParseStatusLine(block).None? then Fail([])
    else
      var ops := if statusLine then [SetStatus(ParseStatusLine(block).value.0)] else [];
      var fields := ParseFields(if statusLine then ParseStatusLine(block).value.1 else block);
      if fields.ok then Done(ops + fields.ops, body) else Fail(ops + fields.ops)
  }

  lemma TerminatorBlock(b: seq<byte>, p: nat, len: nat)
    requires Terminator(b) == Some((p, len))
    ensures p + len <= |b| && (len == 2 || len == 4) && NulFree(b[..p + len])
    ensures (len == 4 ==> b[p] == CR) && (len == 2 ==> b[p] == LF)
  {
    FindIsMatch(b, CRLFCRLF);
    FindIsMatch(b, LFLF);
    var t := if len == 4 then CRLFCRLF else LFLF;
    assert b[p..p + len] == t;
    assert forall i :: p <= i < p + len ==> b[i] == b[p..p + len][i - p];
  }

  lemma ParseIsBlockOutcome(b: seq<byte>, eof: bool, p: nat, len: nat)
    requires Terminator(b) == Some((p, len))
    ensures p + len <= |b| && len >= 2
    ensures Parse(b, eof) == BlockOutcome(b[..p + len - 1], p, b, b[p + len..])
  {
    hide Terminator;
    hide ParseFields;
    hide ParseStatusLine;
    hide StartsWithHeader;
    TerminatorBlock(b, p, len);
    ParseBlockOutcome(b, eof, p, len);
    var a, t := b[..p + len - 1], b[p + len..];
    assert b[p + len - 1 := NUL] == a + [NUL] + t;
    assert NulFree(a) by { assert forall i :: 0 <= i < |a| ==> a[i] == b[..p + len][i]; }
    StatusInBlock(a, t);
    ParseFieldsInBlock(a, t);
    assert b[..p] == a[..p];
    StartsEarly(b, p, len);
  }

  /** Whether the output starts with a status line is settled inside the block. */
  lemma StartsEarly(b: seq<byte>, p: nat, len: nat)
    requires p + len <= |b| && len >= 2 && (len == 2 || len == 4) && NulFree(b[..p + len])
    requires (len == 4 ==> b[p] == CR) && (len == 2 ==> b[p] == LF)
    ensures StartsWith(b, HTTP_1) == StartsWith(b[..p + len - 1], HTTP_1)
  {
    var a := b[..p + len - 1];
    if p < 7 {
      assert HTTP_1[p] != CR && HTTP_1[p] != LF;
    }
    if |b| >= 7 && p < 7 {
      assert b[..7][p] == b[p];
    }
    if |a| >= 7 {
      assert a[..7] == b[..7];
    }
  }

  /** More output behind a header block that is already complete only extends the body. */
  lemma ParseExtend(b: seq<byte>, more: seq<byte>, eof: bool)
    requires Terminator(b).Some? && Terminator(b + more) == Terminator(b)
    ensures Parse(b + more, eof) == Extend(Parse(b, eof), more)
  {
    hide Terminator;
    hide Parse;
    hide ParseFields;
    hide ParseStatusLine;
    hide StartsWithHeader;
    hide StartsWith;
    var (p, len) := Terminator(b).value;
    ParseIsBlockOutcome(b, eof, p, len);
    ParseIsBlockOutcome(b + more, eof, p, len);
    assert (b + more)[..p + len - 1] == b[..p + len - 1];
    assert (b + more)[p + len..] == b[p + len..] + more;
  }

  // ---- When the end of the header block does not depend on what has arrived ----

  /**
    Output whose header end is the same however much of it has arrived: it ends within the limit, and a CRLF CRLF
    end has no LF LF before it. Output without a header end must fit in the buffer.
   */
  predicate Stable(o: seq<byte>) {
    match Terminator(o)
    case None => |o| < ME_MAX_HEADERS
    case Some((p, len)) =>
      TerminatorInside(o);
      p + len <= ME_MAX_HEADERS && (len == 4 ==> Find(o[..p + len], LFLF).None?)
  }

  /** The header end is found exactly when it has arrived. */
  ghost predicate FoundOnArrival(o: seq<byte>, n: nat)
    requires n <= |o|
  {
    Terminator(o[..n]) == match Terminator(o)
                          case None => None
                          case Some((p, len)) => if p + len <= n then Some((p, len)) else None
  }

  lemma StableIsFoundOnArrival(o: seq<byte>, n: nat)
    requires Stable(o) && n <= |o|
    ensures FoundOnArrival(o, n)
  {
    hide Find;
    FindInPrefix(o, CRLFCRLF, n);
    FindInPrefix(o, LFLF, n);
    TerminatorInside(o);
    if Terminator(o).Some? && Terminator(o).value.1 == 4 {
      FindInPrefix(o, LFLF, Terminator(o).value.0 + 4);
    }
  }

  // ---- What the client sees ----

  /**
    What the client gets. Aborted: an error behind body that had been forwarded, so the reply had begun and can only be
    broken off; what the pipeline still holds of that body is discarded. ErrorReply: an error in place of the reply.
   */
  datatype View = ErrorReply | Aborted(ops: seq<Op>, body: seq<byte>) | Reply(ops: seq<Op>, body: seq<byte>, complete: bool)

  function ClientView(s: Response): View {
    if !s.error then Reply(s.ops, s.body, s.finalized) else Broken(s.ops, s.body)
  }

  function Broken(ops: seq<Op>, body: seq<byte>): View {
    if body == [] then ErrorReply else Aborted(ops, body)
  }

  /** A reply that declares a length, and more body than that. With a length of zero nothing is ever forwarded. */
  predicate Overruns(o: Outcome) {
    o.Done? && !Redirects(o.ops) && Declared(o.ops, None).Some? && 0 < Declared(o.ops, None).value < |o.body|
  }

  /** The reply broken off at some part of its body within the declared length. */
  predicate BrokenOff(v: View, o: Outcome)
    requires Overruns(o)
  {
    v.ErrorReply? || (v.Aborted? && v.ops == o.ops && v.body <= o.body && 0 < |v.body| <= Declared(o.ops, None).value)
  }

  // ---- The response while output comes in ----

  /** Output in pieces, one FAST_STDOUT record for each. */
  function Feed(s: Response, chunks: seq<seq<byte>>): Response
    decreases |chunks|
  {
    if chunks == [] then s else Feed(Stdout(s, chunks[0]), chunks[1..])
  }

  /** Output b is held and the parser has not answered. */
  predicate Waiting(s: Response, b: seq<byte>) {
    s == BEGIN.(held := s.held) && (if s.held.Some? then s.held.value else []) == b
  }

  /** The response to output that the parser has answered with o. Only how far a body that is too long came is open. */
  predicate Reached(s: Response, o: Outcome) {
    match o
    case NeedMore => false
    case Fail(_) => s.error && s.finalized && s.body == []
    case Done(ops, body) =>
      var t := ApplyOps(BEGIN, ops).(held := None, parsed := true);
      if !Redirects(ops) && Declared(ops, None).Some? && |body| > Declared(ops, None).value then
        && s == t.(error := true, finalized := true, body := s.body, bodyBytes := s.bodyBytes)
        && s.body <= body && |s.body| <= Declared(ops, None).value
      else s == if Redirects(ops) then t else t.(body := body, bodyBytes := |body|)
  }

  /** The record that lets the parser answer. */
  lemma FirstAnswer(s: Response, b: seq<byte>, c: seq<byte>)
    requires Waiting(s, b)
    ensures if Parse(b + c, false).NeedMore? then Waiting(Stdout(s, c), b + c) else Reached(Stdout(s, c), Parse(b + c, false))
  {
    hide Parse, Redirects, Declared;
    match Parse(b + c, false)
    case Done(ops, rest) => assert [] + ops == ops && [] + rest == rest;
    case _ =>
  }

  /** A record behind the answer is more body. */
  lemma MoreBody(s: Response, o: Outcome, c: seq<byte>)
    requires Reached(s, o)
    ensures Reached(Stdout(s, c), Extend(o, c))
  {
    hide Parse, Redirects, Declared;
    match o
    case Done(ops, body) => assert body + [] == body;
    case Fail(_) => FailedStays(s, c);
    case NeedMore =>
  }

  lemma FailedStays(s: Response, c: seq<byte>)
    requires s.error && s.finalized
    ensures var t := Stdout(s, c); t.error && t.finalized && t.body == s.body
  {
    hide Parse;
  }

  lemma ExtendTwice(o: Outcome, a: seq<byte>, b: seq<byte>)
    ensures Extend(Extend(o, a), b) == Extend(o, a + b) && Extend(o, []) == o
  {
    if o.Done? {
      assert (o.body + a) + b == o.body + (a + b) && o.body + [] == o.body;
    }
  }

  /** Once the parser has answered, the response is what the answer and all later output call for. */
  lemma {:induction false} FeedReached(s: Response, o: Outcome, chunks: seq<seq<byte>>)
    requires Reached(s, o)
    ensures Reached(Feed(s, chunks), Extend(o, Flatten(chunks)))
    decreases |chunks|
  {
    hide Stdout, Reached, Extend;
    if chunks == [] {
      ExtendTwice(o, [], []);
    } else {
      MoreBody(s, o, chunks[0]);
      FeedReached(Stdout(s, chunks[0]), Extend(o, chunks[0]), chunks[1..]);
      ExtendTwice(o, chunks[0], Flatten(chunks[1..]));
    }
  }

  // ---- The end of the output ----

  /** The reply to output that the parser has answered with o, when it does not run over. */
  function EndView(o: Outcome): View {
    match o
    case Done(ops, rest) =>
      if Redirects(ops) then Reply(ops, [], true)
      else if Declared(ops, None).None? || Declared(ops, None).value == |rest| then Reply(ops, rest, true)
      else if Declared(ops, None).value < |rest| then ErrorReply
      else Broken(ops, rest)
    case _ => ErrorReply
  }

  lemma CloseReached(s: Response, o: Outcome)
    requires Reached(s, o)
    ensures if Overruns(o) then BrokenOff(ClientView(CloseOutput(s)), o) else ClientView(CloseOutput(s)) == EndView(o)
  {
    hide Parse, Redirects, Declared;
    match o
    case Done(ops, rest) =>
      assert [] + ops == ops;
      if Overruns(o) {
        assert CloseOutput(s) == s && ClientView(s) == Broken(ops, s.body);
      }
    case Fail(_) => FailedCloses(s);
    case NeedMore =>
  }

  lemma FailedCloses(s: Response)
    requires s.error && s.finalized
    ensures var t := CloseOutput(s); t.error && t.finalized && t.body == s.body
  {
    hide Parse;
  }

  /** Output that was never answered holds no header, so it declares nothing. */
  lemma CloseWaiting(s: Response, o: seq<byte>)
    requires Waiting(s, o) && Parse(o, false).NeedMore?
    ensures ClientView(CloseOutput(s)) == EndView(Parse(o, true)) && !Overruns(Parse(o, true))
  {
    WaitingAnswer(o);
    hide Parse;
    match Parse(o, true)
    case Done(ops, rest) => assert [] + ops == ops && [] + rest == rest;
    case _ =>
  }

  lemma WaitingAnswer(o: seq<byte>)
    requires Parse(o, false).NeedMore?
    ensures !Parse(o, true).NeedMore? && Parse([], true) == Done([], [])
    ensures Parse(o, true).Done? ==> !Redirects(Parse(o, true).ops) && Declared(Parse(o, true).ops, None).None?
  {
    assert Find([], CRLFCRLF).None? && Find([], LFLF).None?;
    hide Find, ParseStatusLine;
    if Parse(o, true).Done? && StartsWith(o, HTTP_1) {
      var code := ParseStatusLine(o).value.0;
      assert [SetStatus(code)][1..] == [] && Declared([], None).None?;
    }
  }

  // ---- Stable output, in any pieces ----

  /** The response to the first part x of the output. */
  predicate AtPrefix(s: Response, x: seq<byte>) {
    if Parse(x, false).NeedMore? then Waiting(s, x) else Reached(s, Parse(x, false))
  }

  /** In stable output the parser's answer, once given, stands for all that follows. */
  lemma AnswerStands(output: seq<byte>, b: seq<byte>, c: seq<byte>)
    requires Stable(output) && b + c <= output && !Parse(b, false).NeedMore?
    ensures Parse(b + c, false) == Extend(Parse(b, false), c)
  {
    StableIsFoundOnArrival(output, |b|);
    StableIsFoundOnArrival(output, |b + c|);
    TerminatorInside(output);
    assert output[..|b|] == b && output[..|b + c|] == b + c;
    assert Terminator(b).Some?;
    ParseExtend(b, c, false);
  }

  /** Output in two pieces has the effect of the output in one, up to where a body that is too long breaks off. */
  lemma StdoutMerge(s: Response, x: seq<byte>, c: seq<byte>, o: seq<byte>)
    requires Stable(o) && x + c <= o && AtPrefix(s, x)
    ensures AtPrefix(Stdout(s, c), x + c)
  {
    hide Parse, Stable, Waiting, Reached, Stdout;
    if Parse(x, false).NeedMore? {
      FirstAnswer(s, x, c);
    } else {
      AnswerStands(o, x, c);
      MoreBody(s, Parse(x, false), c);
    }
  }

  lemma {:induction false} StableFeed(s: Response, x: seq<byte>, chunks: seq<seq<byte>>, o: seq<byte>)
    requires Stable(o) && x + Flatten(chunks) <= o && AtPrefix(s, x)
    ensures AtPrefix(Feed(s, chunks), x + Flatten(chunks))
    decreases |chunks|
  {
    hide Stdout, Stable, AtPrefix;
    if chunks == [] {
      assert x + [] == x;
    } else {
      assert x + Flatten(chunks) == (x + chunks[0]) + Flatten(chunks[1..]);
      StdoutMerge(s, x, chunks[0], o);
      StableFeed(Stdout(s, chunks[0]), x + chunks[0], chunks[1..], o);
    }
  }

  lemma AtStart()
    ensures AtPrefix(BEGIN, [])
  {
    assert Find([], CRLFCRLF).None? && Find([], LFLF).None?;
  }

  // ---- Records and reads ----

  predicate IsOutput(rs: seq<Record>) {
    forall i :: 0 <= i < |rs| ==> rs[i].kind == FAST_STDOUT || rs[i].kind == FAST_STDERR
  }

  /** The pieces of the app's output. STDERR records in between are logged and dropped. */
  function Contents(rs: seq<Record>): seq<seq<byte>> {
    if rs == [] then [] else (if rs[0].kind == FAST_STDOUT then [rs[0].content] else []) + Contents(rs[1..])
  }

  /** The app's output. */
  function Output(rs: seq<Record>): seq<byte> {
    Flatten(Contents(rs))
  }

  lemma {:induction false} RespondIsFeed(s: Response, rs: seq<Record>)
    requires IsOutput(rs)
    ensures RespondAll(s, rs) == Feed(s, Contents(rs))
    decreases |rs|
  {
    hide Stdout;
    if rs != [] {
      RespondIsFeed(Respond(s, rs[0]), rs[1..]);
      if rs[0].kind == FAST_STDOUT {
        assert Contents(rs)[1..] == Contents(rs[1..]);
      } else {
        assert [] + Contents(rs[1..]) == Contents(rs[1..]);
      }
    }
  }

  lemma {:induction false} RespondAllAppend(s: Response, a: seq<Record>, b: seq<Record>)
    ensures RespondAll(s, a + b) == RespondAll(RespondAll(s, a), b)
    decreases |a|
  {
    hide Respond;
    if a == [] {
      assert a + b == b;
    } else {
      assert (a + b)[1..] == a[1..] + b;
      RespondAllAppend(Respond(s, a[0]), a[1..], b);
    }
  }

  lemma OneRecord(s: Response, r: Record)
    ensures RespondAll(s, [r]) == Respond(s, r)
  {
    hide Respond;
    assert [r][1..] == [];
  }

  /** A complete response as if the output had come in one record. */
  function Whole(o: seq<byte>, end: Record): View {
    ClientView(EndRequest(Stdout(BEGIN, o), end.content))
  }

  /** Any end of the request behind output o in two ways of cutting it. */
  lemma EndReached(s: Response, t: Response, o: Outcome, content: seq<byte>)
    requires Reached(s, o) && Reached(t, o)
    ensures var v := ClientView(EndRequest(s, content));
            if Overruns(o) then BrokenOff(v, o) else v == ClientView(EndRequest(t, content))
  {
    hide Parse, Redirects, Declared;
    match o
    case Done(ops, rest) =>
      assert [] + ops == ops;
      if Overruns(o) {
        assert ClientView(EndRequest(s, content)) == Broken(ops, s.body);
      }
    case Fail(_) =>
      FailedEnds(s, content);
      FailedEnds(t, content);
    case NeedMore =>
  }

  lemma FailedEnds(s: Response, content: seq<byte>)
    requires s.error && s.finalized
    ensures var t := EndRequest(s, content); t.error && t.body == s.body
  {
    hide Parse;
  }

  lemma EndWaiting(s: Response, t: Response, o: seq<byte>, content: seq<byte>)
    requires Waiting(s, o) && Waiting(t, o)
    ensures ClientView(EndRequest(s, content)) == ClientView(EndRequest(t, content))
  {
    if s.held != t.held {
      assert o == [] && Parse([], true) == Done([], []);
    }
    hide Parse;
  }

  /** The response to stable output that has been answered, or still waits. */
  lemma EndAtPrefix(s: Response, t: Response, o: seq<byte>, content: seq<byte>)
    requires AtPrefix(s, o) && AtPrefix(t, o)
    ensures var v := ClientView(EndRequest(s, content));
            if Overruns(Parse(o, false)) then BrokenOff(v, Parse(o, false)) else v == ClientView(EndRequest(t, content))
  {
    hide Parse, Waiting, Reached, EndRequest, ClientView;
    if Parse(o, false).NeedMore? {
      EndWaiting(s, t, o, content);
    } else {
      EndReached(s, t, Parse(o, false), content);
    }
  }

  /**
    However stable output is cut into STDOUT records, the client sees the response to the whole, unless its body runs
    over the length it declares: then it sees the reply broken off somewhere within that length.
   */
  lemma RecordsIndependent(rs: seq<Record>, end: Record)
    requires IsOutput(rs) && end.kind == FAST_END_REQUEST && Stable(Output(rs))
    ensures var o, v := Output(rs), ClientView(RespondAll(BEGIN, rs + [end]));
            if Overruns(Parse(o, false)) then BrokenOff(v, Parse(o, false)) else v == Whole(o, end)
  {
    hide Stdout, EndRequest, Stable, Parse, AtPrefix, ClientView;
    var o := Output(rs);
    RespondAllAppend(BEGIN, rs, [end]);
    OneRecord(RespondAll(BEGIN, rs), end);
    RespondIsFeed(BEGIN, rs);
    AtStart();
    assert [] + o == o;
    StableFeed(BEGIN, [], Contents(rs), o);
    StdoutMerge(BEGIN, [], o, o);
    EndAtPrefix(Feed(BEGIN, Contents(rs)), Stdout(BEGIN, o), o, end.content);
  }

  /**
    End to end: the same for any socket reads of a stream of well-formed records of this request with stable output.
   */
  lemma SegmentationIndependent(id: nat, rs: seq<Record>, end: Record, arrivals: seq<seq<byte>>)
    requires AllValid(rs + [end]) && (forall i :: 0 <= i < |rs| ==> Acceptable(id, rs[i])) && Acceptable(id, end)
    requires IsOutput(rs) && end.kind == FAST_END_REQUEST && Stable(Output(rs))
    requires Flatten(arrivals) == StreamBytes(rs + [end])
    ensures ParseReads(id, [], arrivals) == Parsed(rs + [end], [], false)
    ensures var o, v := Output(rs), ClientView(RespondAll(BEGIN, ParseReads(id, [], arrivals).records));
            if Overruns(Parse(o, false)) then BrokenOff(v, Parse(o, false)) else v == Whole(o, end)
  {
    assert ParseStream(id, []) == Parsed([], [], false);
    hide ParseStream, Respond, Parse, Overruns, BrokenOff, Whole, ClientView, Stable;
    ReadsEqualBatch(id, [], arrivals);
    assert [] + Flatten(arrivals) == Flatten(arrivals);
    StreamIsParsed(id, rs + [end]);
    RecordsIndependent(rs, end);
  }

  // ---- What a well-formed response is ----

  lemma PrintedIsStable(fs: seq<Field>, body: seq<byte>)
    requires fs != [] && AllPrintable(fs) && |PrintLines(fs)| + 2 <= ME_MAX_HEADERS
    ensures Stable(Print(fs, body))
  {
    hide Find;
    hide PrintLines;
    var o, p := Print(fs, body), |PrintLines(fs)| - 2;
    TerminatorOfPrinted(fs, body);
    FindIsMatch(o, CRLFCRLF);
    assert o[..p + 4] == PrintLines(fs) + [CR, LF];
    NoLfLf(fs);
  }

  lemma {:induction false} NoLfLf(fs: seq<Field>)
    requires AllPrintable(fs)
    ensures Find(PrintLines(fs) + [CR, LF], LFLF) == None
  {
    if fs == [] {
      FindShort();
      assert PrintLines(fs) + [CR, LF] == [CR, LF];
    } else {
      var f := fs[0];
      var line := f.name + [COLON, SPACE] + f.value + [CR];
      LineChars(f);
      var rest := PrintLines(fs[1..]) + [CR, LF];
      assert PrintLines(fs) + [CR, LF] == line + ([LF] + rest);
      FindSkip(line, [LF] + rest, LFLF);
      NoLfLf(fs[1..]);
      NextLineStart(fs[1..]);
      assert ([LF] + rest)[1..] == rest && ([LF] + rest)[1] == rest[0];
      if 2 <= |[LF] + rest| {
        assert ([LF] + rest)[..2][1] == rest[0];
      }
      FindStep([LF] + rest, LFLF);
    }
  }

  lemma NextLineStart(fs: seq<Field>)
    requires AllPrintable(fs)
    ensures (PrintLines(fs) + [CR, LF])[0] != LF
  {
    if fs != [] {
      TokenChars(fs[0].name);
      assert (PrintLines(fs) + [CR, LF])[0] == fs[0].name[0];
    }
  }

  lemma FindShort()
    ensures Find([CR, LF], LFLF) == None
  {
    FindSkip([CR], [LF], LFLF);
    assert [CR] + [LF] == [CR, LF];
    FindLongPattern([LF], LFLF);
  }

  /** A completed end record. */
  predicate Completes(end: Record) {
    |end.content| >= 8 && end.content[4] == FAST_REQUEST_COMPLETE
  }

  /**
    The response a client gets for printed fields and a body: exactly those fields and that body if every field is
    accepted, none redirects, and the declared length, if any, is the body's length; otherwise not that.
   */
  lemma PrintedResponse(fs: seq<Field>, body: seq<byte>, end: Record)
    requires fs != [] && AllPrintable(fs) && Completes(end)
    ensures Whole(Print(fs, body), end) == Reply(Meaning(fs).ops, body, true)
            <==> Meaning(fs).ok && (Redirects(Meaning(fs).ops) ==> body == [])
                 && (Redirects(Meaning(fs).ops) || Declared(Meaning(fs).ops, None).None?
                     || Declared(Meaning(fs).ops, None).value == |body|)
  {
    hide Parse, Print, Meaning, Redirects, Declared, EndRequest, Forward, ApplyOps;
    PrintParse(fs, body, false);
    var o := Print(fs, body);
    assert [] + o == o;
    var ops := Meaning(fs).ops;
    DoneReply(ops, body, end);
    EndOfError(HttpError(ApplyOps(BEGIN, ops)).(held := None), end);
  }

  lemma EndOfError(s: Response, end: Record)
    requires s.error
    ensures !ClientView(EndRequest(s, end.content)).Reply?
  {
    hide Parse;
  }

  /** The reply to a header block that was accepted, and the body behind it. */
  lemma DoneReply(ops: seq<Op>, body: seq<byte>, end: Record)
    requires Completes(end)
    ensures var t := Forward(ApplyOps(BEGIN, ops).(held := None, parsed := true), body);
            ClientView(EndRequest(t, end.content)) == Reply(ops, body, true)
            <==> (Redirects(ops) ==> body == [])
                 && (Redirects(ops) || Declared(ops, None).None? || Declared(ops, None).value == |body|)
  {
    hide Parse, Redirects, Declared;
    assert [] + ops == ops && [] + body == body;
  }

  lemma FindAfter(skip: seq<byte>, rest: seq<byte>, pattern: seq<byte>)
    requires pattern != [] && pattern[0] != NUL
    requires forall i :: 0 <= i < |skip| ==> skip[i] != NUL && skip[i] != pattern[0]
    ensures Find(skip + (pattern + rest), pattern) == Some(|skip|)
    ensures Find(skip, pattern) == None
  {
    assert (pattern + rest)[..|pattern|] == pattern;
    FindSkip(skip, pattern + rest, pattern);
    FindSkip(skip, [], pattern);
    assert skip + [] == skip;
  }
}
