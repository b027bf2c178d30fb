/**
  What the client gets from a FastCGI app's output (fastHandlerResponse, forwardFastBody, checkFastLength), and why
  it does not depend on how the output is cut into records or the records into socket reads.
 */
module FastGateway {
  import opened Bytes
  import opened FastRecords
  import opened FastInbound
  import opened CgiText
  import opened CgiResponse

  const FAST_REQUEST_COMPLETE: byte := 0
  const FAST_CANT_MPX_CONN: byte := 1
  const FAST_OVERLOADED: byte := 2
  const FAST_UNKNOWN_ROLE: byte := 3

  /**
    The response so far. held: output kept until its header block is complete. ops: what the response lines did.
    body: bytes forwarded to the client. finalized: the output is complete, replaced by an error, or redirected.
   */
  datatype Response = Response(parsed: bool, held: Option<seq<byte>>, ops: seq<Op>, declared: Option<nat>, bodyBytes: nat,
                               body: seq<byte>, error: bool, finalized: bool, ended: bool)

  const BEGIN := Response(false, None, [], None, 0, [], false, false, false)

  function Declared(ops: seq<Op>, before: Option<nat>): Option<nat> {
    if ops == [] then before
    else Declared(ops[1..], if ops[0].ContentLength? then Some(ops[0].length) else before)
  }

  predicate Redirects(ops: seq<Op>) {
    exists i :: 0 <= i < |ops| && ops[i].Redirect?
  }

  lemma RedirectsStep(effects: seq<Op>)
    requires effects != []
    ensures Redirects(effects) == (effects[0].Redirect? || Redirects(effects[1..]))
  {
    if Redirects(effects) && !effects[0].Redirect? {
      var i :| 0 <= i < |effects| && effects[i].Redirect?;
      assert effects[1..][i - 1] == effects[i];
    }
    if Redirects(effects[1..]) {
      var i :| 0 <= i < |effects[1..]| && effects[1..][i].Redirect?;
      assert effects[i + 1] == effects[1..][i];
    }
  }

  function ApplyOps(s: Response, ops: seq<Op>): Response {
    s.(ops := s.ops + ops, declared := Declared(ops, s.declared), finalized := s.finalized || Redirects(ops))
  }

  /** The effect of one response line. */
  function ApplyOp(s: Response, op: Op): Response {
    s.(ops := s.ops + [op], declared := if op.ContentLength? then Some(op.length) else s.declared,
       finalized := s.finalized || op.Redirect?)
  }

  lemma ApplyFirst(s: Response, effects: seq<Op>)
    requires effects != []
    ensures ApplyOps(s, effects) == ApplyOps(ApplyOp(s, effects[0]), effects[1..])
  {
    hide Redirects;
    RedirectsStep(effects);
    assert (s.ops + [effects[0]]) + effects[1..] == s.ops + effects;
  }

  lemma ApplyNone(s: Response)
    ensures ApplyOps(s, []) == s
  {
    assert s.ops + [] == s.ops;
  }

  /** httpError: the first one replaces the response and completes the output. */
  function HttpError(s: Response): Response {
    s.(error := true, finalized := true)
  }

  /** checkFastLength. */
  function CheckLength(s: Response): Response {
    if s.declared.None? || s.bodyBytes == s.declared.value || s.error || s.finalized then s else HttpError(s)
  }

  /** forwardFastBody. */
  function Forward(s: Response, data: seq<byte>): Response {
    if s.finalized || data == [] then s
    else
      var t := s.(bodyBytes := s.bodyBytes + |data|);
      if t.declared.Some? && t.bodyBytes > t.declared.value then CheckLength(t) else t.(body := t.body + data)
  }

  /** A FAST_STDOUT record. */
  function Stdout(s: Response, content: seq<byte>): Response {
    if s.parsed then Forward(s, content)
    else
      var b := (if s.held.Some? then s.held.value else []) + content;
      StdoutHeader(s, b, Parse(b, false))
  }

  /** Output b while the header block is incomplete, by what the parser makes of it. */
  function StdoutHeader(s: Response, b: seq<byte>, outcome: Outcome): Response {
    match outcome
    case NeedMore => s.(held := if s.error then None else Some(b))
    case Fail(ops) => HttpError(ApplyOps(s, ops)).(held := None)
    case Done(ops, rest) => Forward(ApplyOps(s, ops).(held := None, parsed := true), rest)
  }

  /** A FAST_END_REQUEST record. */
  function EndRequest(s: Response, content: seq<byte>): Response {
    if |content| < 8 then HttpError(s)
    else if content[4] == FAST_CANT_MPX_CONN || content[4] == FAST_OVERLOADED || content[4] == FAST_UNKNOWN_ROLE then HttpError(s)
    else
      var t := s.(ended := s.ended || content[4] == FAST_REQUEST_COMPLETE);
      CloseOutput(t)
  }

  /** The end of the app's output. */
  function CloseOutput(t: Response): Response {
    if !t.parsed && t.held.Some? then EndHeld(t, Parse(t.held.value, true)) else Finish(t)
  }

  /** Output still held at the end of the request, parsed as all there is. */
  function EndHeld(t: Response, outcome: Outcome): Response {
    match outcome
    case Done(ops, rest) => Finish(Forward(ApplyOps(t, ops).(held := None, parsed := true), rest))
    case Fail(ops) => HttpError(ApplyOps(t, ops)).(held := None)
    case NeedMore => t
  }

  function Finish(s: Response): Response {
    CheckLength(s).(finalized := true)
  }

  function Respond(s: Response, r: Record): Response {
    if r.kind == FAST_STDOUT then Stdout(s, r.content)
    else if r.kind == FAST_END_REQUEST then EndRequest(s, r.content)
    else s
  }

  function RespondAll(s: Response, rs: seq<Record>): Response
    decreases |rs|
  {
    if rs == [] then s else RespondAll(Respond(s, rs[0]), rs[1..])
  }

  // ---- Declared length ----

  /** The client never gets more body than was declared, and the count is exact until an error. */
  ghost predicate LengthOk(s: Response) {
    && (s.declared.Some? ==> |s.body| <= s.declared.value)
    && (s.error ==> s.finalized)
    && (!s.error ==> s.bodyBytes == |s.body|)
    && (!s.parsed ==> s.body == [] && (!s.error ==> s.ops == [] && s.declared.None?))
  }

  lemma ForwardLength(s: Response, data: seq<byte>)
    requires LengthOk(s) && s.parsed
    ensures LengthOk(Forward(s, data))
  {
  }

  lemma HeaderLength(s: Response, b: seq<byte>, outcome: Outcome)
    requires LengthOk(s) && !s.parsed
    ensures LengthOk(StdoutHeader(s, b, outcome))
  {
    match outcome
    case Done(ops, rest) =>
      ForwardLength(ApplyOps(s, ops).(held := None, parsed := true), rest);
      hide Forward;
    case _ =>
  }

  lemma StdoutLength(s: Response, content: seq<byte>)
    requires LengthOk(s)
    ensures LengthOk(Stdout(s, content))
  {
    hide Parse, StdoutHeader, Forward, LengthOk;
    if s.parsed {
      ForwardLength(s, content);
    } else {
      var b := (if s.held.Some? then s.held.value else []) + content;
      HeaderLength(s, b, Parse(b, false));
    }
  }

  lemma FinishLength(s: Response)
    requires LengthOk(s)
    ensures LengthOk(Finish(s)) && LengthOk(HttpError(s))
  {
  }

  lemma HeldLength(s: Response, outcome: Outcome)
    requires LengthOk(s) && !s.parsed
    ensures LengthOk(EndHeld(s, outcome))
  {
    match outcome
    case Done(ops, rest) =>
      var t := ApplyOps(s, ops).(held := None, parsed := true);
      ForwardLength(t, rest);
      FinishLength(Forward(t, rest));
      hide Forward, Finish;
    case _ =>
  }

  lemma EndLength(s: Response, content: seq<byte>)
    requires LengthOk(s)
    ensures LengthOk(EndRequest(s, content))
  {
    hide Parse, EndHeld, Finish;
    FinishLength(s);
    var t := s.(ended := true);
    assert LengthOk(t);
    FinishLength(t);
    if s.held.Some? && !s.parsed {
      HeldLength(s, Parse(s.held.value, true));
      HeldLength(t, Parse(s.held.value, true));
    }
    hide LengthOk;
  }

  /** In every run the forwarded body stays within the declared length. */
  lemma {:induction false} RunLength(s: Response, rs: seq<Record>)
    requires LengthOk(s)
    ensures LengthOk(RespondAll(s, rs))
    decreases |rs|
  {
    hide Stdout;
    hide EndRequest;
    if rs != [] {
      StdoutLength(s, rs[0].content);
      EndLength(s, rs[0].content);
      RunLength(Respond(s, rs[0]), rs[1..]);
    }
  }

  /** An end of output that completes a response which was not yet complete, without error, has sent what was declared. */
  lemma EndSendsDeclared(s: Response, content: seq<byte>)
    requires LengthOk(s) && !s.finalized
    ensures var t := EndRequest(s, content);
            t.finalized && !t.error && !Redirects(t.ops) && t.declared.Some? ==> |t.body| == t.declared.value
  {
    hide Parse, Redirects, EndHeld, CheckLength;
    var t := s.(ended := true);
    FinishSends(s);
    FinishSends(t);
    if s.held.Some? && !s.parsed {
      HeldSends(s, Parse(s.held.value, true));
      HeldSends(t, Parse(s.held.value, true));
    }
  }

  /** A response that is complete without error or redirection has sent what was declared. */
  ghost predicate SentDeclared(t: Response) {
    t.finalized && !t.error && !Redirects(t.ops) && t.declared.Some? ==> |t.body| == t.declared.value
  }

  lemma FinishSends(s: Response)
    requires LengthOk(s) && (s.finalized ==> SentDeclared(s))
    ensures SentDeclared(Finish(s))
  {
    hide Redirects;
  }

  lemma HeldSends(s: Response, outcome: Outcome)
    requires LengthOk(s) && !s.finalized && !s.parsed
    ensures SentDeclared(EndHeld(s, outcome))
  {
    hide Redirects;
    match outcome
    case Done(ops, rest) =>
      assert [] + ops == ops;
      var t := ApplyOps(s, ops).(held := None, parsed := true);
      ForwardLength(t, rest);
      FinishSends(Forward(t, rest));
    case _ =>
  }

  // ---- What lines and ends come to ----

  /** The declared length is that of the last Content-Length line, or what it was if there is none. */
  lemma {:induction false} DeclaredIsLast(ops: seq<Op>, before: Option<nat>, k: nat)
    requires forall i :: k <= i < |ops| ==> !ops[i].ContentLength?
    requires k <= |ops| && (k > 0 ==> ops[k - 1].ContentLength?)
    ensures Declared(ops, before) == if k > 0 then Some(ops[k - 1].length) else before
  {
    if ops != [] {
      if k > 0 {
        DeclaredIsLast(ops[1..], if ops[0].ContentLength? then Some(ops[0].length) else before, k - 1);
      } else {
        DeclaredIsLast(ops[1..], before, 0);
      }
    }
  }

  /** An END_REQUEST record that is no regular end: shorter than eight bytes, or with protocol status 1, 2 or 3. */
  predicate Rejects(content: seq<byte>) {
    |content| < 8 || content[4] == 1 || content[4] == 2 || content[4] == 3
  }

  /**
    A rejected end is an error and completes the output, and nothing more is forwarded. Any other end completes the
    response, and notes whether the app says that the request is complete (protocol status 0).
   */
  lemma EndExactly(s: Response, content: seq<byte>)
    ensures Rejects(content) ==> EndRequest(s, content) == s.(error := true, finalized := true)
    ensures !Rejects(content) ==> EndRequest(s, content) == CloseOutput(s.(ended := s.ended || content[4] == 0))
  {
    hide CloseOutput;
  }

  /** With its header complete, a response ends with an error exactly if it is open and has not sent what it declared. */
  lemma CloseExactly(s: Response)
    requires s.parsed
    ensures var t := CloseOutput(s);
            && t.finalized && t.body == s.body && t.ops == s.ops
            && (t.error <==> s.error || (!s.finalized && s.declared.Some? && s.bodyBytes != s.declared.value))
  {
  }

  /** Which records do anything: STDOUT (type 6) and END_REQUEST (type 3). */
  lemma RespondExactly(s: Response, r: Record)
    ensures r.kind == 6 ==> Respond(s, r) == Stdout(s, r.content)
    ensures r.kind == 3 ==> Respond(s, r) == EndRequest(s, r.content)
    ensures r.kind != 6 && r.kind != 3 ==> Respond(s, r) == s
  {
    hide Stdout, EndRequest;
  }
}
