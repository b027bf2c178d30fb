/**
  What the client gets from a CGI program's output (cgiHandler.c): readFromCgi reads the program's channels, parses
  the header block and forwards the body within the declared length. What a read returns is the environment's choice.
 */
module CgiOutput {
  import opened Bytes
  import opened CgiText
  import opened CgiResponse
  import opened FastGateway

  datatype Channel = Stdout | Stderr

  datatype ReadResult = Bytes(data: seq<byte>) | EndOfFile | Interrupted | WouldBlock | Failed

  /**
    The response so far. held: output kept until its header block is complete. location: a redirection that the
    callback will do. body: bytes forwarded to the client. cutShort is history: a read of stdout failed before the header
    block was complete, or with another count of body bytes than declared.
   */
  datatype Reply = Reply(seenHeader: bool, held: Option<seq<byte>>, ops: seq<Op>, declared: Option<nat>, location: bool,
                         bodyBytes: nat, body: seq<byte>, error: bool, finalized: bool, redirected: bool,
                         stdoutOpen: bool, stderrOpen: bool, cutShort: bool)

  const START := Reply(false, None, [], None, false, 0, [], false, false, false, true, true, false)

  /** httpError: the first one replaces the response and completes the output. */
  function HttpError(s: Reply): Reply {
    s.(error := true, finalized := true)
  }

  /** checkCgiLength. */
  function CheckCgiLength(s: Reply): Reply {
    if s.declared.None? || s.bodyBytes == s.declared.value || s.error || s.finalized || s.location then s else HttpError(s)
  }

  /** The response lines; a Location is kept for the callback. */
  function Apply(s: Reply, ops: seq<Op>): Reply {
    s.(ops := s.ops + ops, declared := Declared(ops, s.declared), location := s.location || Redirects(ops))
  }

  /** The effect of one response line. */
  function ApplyOp(s: Reply, op: Op): Reply {
    s.(ops := s.ops + [op], declared := if op.ContentLength? then Some(op.length) else s.declared,
       location := s.location || op.Redirect?)
  }

  lemma ApplyFirst(s: Reply, effects: seq<Op>)
    requires effects != []
    ensures Apply(s, effects) == Apply(ApplyOp(s, effects[0]), effects[1..])
  {
    hide Redirects;
    RedirectsStep(effects);
    assert (s.ops + [effects[0]]) + effects[1..] == s.ops + effects;
  }

  lemma ApplyNone(s: Reply)
    ensures Apply(s, []) == s
  {
    assert s.ops + [] == s.ops;
  }

  /** The response after one step of the loop, and whether the loop goes on. */
  datatype Pass = Pass(s: Reply, more: bool)

  /** The body part of readFromCgi. */
  function Forward(s: Reply, data: seq<byte>): Pass {
    if s.finalized || data == [] then Pass(s, true)
    else
      var t := s.(bodyBytes := s.bodyBytes + |data|);
      if t.declared.Some? && t.bodyBytes > t.declared.value then Pass(CheckCgiLength(t), false)
      else Pass(t.(body := t.body + data), true)
  }

  function HeldBytes(s: Reply): seq<byte> {
    if s.held.Some? then s.held.value else []
  }

  /** Output while the header block is incomplete, by what the parser makes of it. */
  function Header(s: Reply, b: seq<byte>, outcome: Outcome): Pass {
    match outcome
    case NeedMore => Pass(s.(held := Some(b)), false)
    case Fail(ops) => Pass(HttpError(Apply(s, ops)).(held := None), false)
    case Done(ops, rest) => Forward(Apply(s, ops).(held := None, seenHeader := true), rest)
  }

  /** Bytes from stdout. */
  function Output(s: Reply, data: seq<byte>): Pass {
    if s.seenHeader then Forward(s, data) else Header(s, HeldBytes(s) + data, Parse(HeldBytes(s) + data, false))
  }

  /** End of stdout. */
  function OutputEnds(s: Reply): Reply {
    var t := s.(stdoutOpen := false);
    if !t.seenHeader then HttpError(t) else CheckCgiLength(t).(finalized := true)
  }

  function IsOpen(s: Reply, channel: Channel): bool {
    if channel.Stdout? then s.stdoutOpen else s.stderrOpen
  }

  function Close(s: Reply, channel: Channel): Reply {
    if channel.Stdout? then s.(stdoutOpen := false) else s.(stderrOpen := false)
  }

  /** The header block is complete and the body has its declared length. */
  predicate Whole(s: Reply) {
    s.seenHeader && (s.declared.Some? ==> s.bodyBytes == s.declared.value)
  }

  /** One pass of the loop of readFromCgi with read result r. stderr is only logged. */
  function OneRead(s: Reply, channel: Channel, r: ReadResult): Pass {
    match r
    case Interrupted => Pass(s, true)
    case WouldBlock => Pass(s, false)
    case Failed => Pass(Close(s, channel).(cutShort := s.cutShort || (channel.Stdout? && !Whole(s))), false)
    case EndOfFile => Pass(if channel.Stdout? then OutputEnds(s) else Close(s, channel), false)
    case Bytes(data) => if channel.Stdout? then Output(s, data) else Pass(s, true)
  }

  /** The loop of readFromCgi for the read results rs; it also stops when the client's queue is full, ending rs. */
  function Reads(s: Reply, channel: Channel, rs: seq<ReadResult>): Reply
    decreases |rs|
  {
    if rs == [] || !IsOpen(s, channel) || s.finalized then s
    else
      var p := OneRead(s, channel, rs[0]);
      if p.more then Reads(p.s, channel, rs[1..]) else p.s
  }

  /** readFromCgi. */
  function ReadFromCgi(s: Reply, channel: Channel, rs: seq<ReadResult>): Reply {
    Reads(if s.finalized then Close(s, channel) else s, channel, rs)
  }

  /** The end of cgiCallback: a kept Location redirects, and a complete command finalizes. */
  function Settle(s: Reply, complete: bool): Reply {
    if s.location then s.(location := false, redirected := true, finalized := true)
    else if complete then s.(finalized := true)
    else s
  }

  datatype Event =
    | Readable(channel: Channel, rs: seq<ReadResult>, complete: bool)
    | Exited(badStatus: bool, complete: bool)

  /** cgiCallback. A command is complete only when its channels are closed. */
  function Callback(s: Reply, e: Event): Reply {
    match e
    case Readable(channel, rs, complete) =>
      var t := ReadFromCgi(s, channel, rs);
      Settle(t, complete && !t.stdoutOpen)
    case Exited(badStatus, complete) => Settle(if badStatus then HttpError(s) else s, complete && !s.stdoutOpen)
  }

  function CallbackAll(s: Reply, es: seq<Event>): Reply
    decreases |es|
  {
    if es == [] then s else CallbackAll(Callback(s, es[0]), es[1..])
  }

  // ---- Declared length ----

  /** The client never gets more body than was declared, and the count is exact while no check has stopped it. */
  predicate LengthOk(s: Reply) {
    && |s.body| <= s.bodyBytes && (s.declared.Some? ==> |s.body| <= s.declared.value)
    && (s.error ==> s.finalized) && (s.redirected ==> s.finalized)
    && (!s.error && !s.location && !s.redirected ==> s.bodyBytes == |s.body|)
    && (!s.seenHeader ==> s.body == [] && s.bodyBytes == 0 && (s.error || (s.ops == [] && s.declared.None? && !s.location)))
    && (!s.error && !s.redirected && s.finalized ==> !s.stdoutOpen)
    && (s.stdoutOpen ==> !s.cutShort)
    && (!s.stdoutOpen && !s.error && !s.redirected && !s.location ==> (s.cutShort <==> !Whole(s)))
  }

  lemma ForwardLength(s: Reply, data: seq<byte>)
    requires LengthOk(s) && s.seenHeader && s.stdoutOpen
    ensures LengthOk(Forward(s, data).s)
  {
  }

  lemma HeaderLength(s: Reply, b: seq<byte>, o: Outcome)
    requires LengthOk(s) && !s.seenHeader && s.stdoutOpen && !s.finalized
    ensures LengthOk(Header(s, b, o).s)
  {
    match o
    case Done(ops, rest) => ForwardLength(Apply(s, ops).(held := None, seenHeader := true), rest);
    case _ =>
  }

  lemma ReadLength(s: Reply, channel: Channel, r: ReadResult)
    requires LengthOk(s) && !s.finalized && IsOpen(s, channel)
    ensures LengthOk(OneRead(s, channel, r).s)
  {
    hide Parse, Header, Forward;
    match r
    case Bytes(data) =>
      if channel.Stdout? {
        if s.seenHeader {
          ForwardLength(s, data);
        } else {
          HeaderLength(s, HeldBytes(s) + data, Parse(HeldBytes(s) + data, false));
        }
      }
    case _ =>
  }

  lemma {:induction false} ReadsLength(s: Reply, channel: Channel, rs: seq<ReadResult>)
    requires LengthOk(s)
    ensures LengthOk(Reads(s, channel, rs))
    decreases |rs|
  {
    if rs != [] && IsOpen(s, channel) && !s.finalized {
      ReadLength(s, channel, rs[0]);
      hide LengthOk, OneRead;
      var p := OneRead(s, channel, rs[0]);
      if p.more {
        ReadsLength(p.s, channel, rs[1..]);
      }
    }
  }

  lemma SettleLength(s: Reply, complete: bool)
    requires LengthOk(s) && (complete ==> !s.stdoutOpen)
    ensures LengthOk(Settle(s, complete))
  {
  }

  lemma CallbackLength(s: Reply, e: Event)
    requires LengthOk(s)
    ensures LengthOk(Callback(s, e))
  {
    hide Reads, Settle;
    match e
    case Readable(channel, rs, complete) =>
      var t := if s.finalized then Close(s, channel) else s;
      assert LengthOk(t);
      hide LengthOk;
      ReadsLength(t, channel, rs);
      SettleLength(ReadFromCgi(s, channel, rs), complete && !ReadFromCgi(s, channel, rs).stdoutOpen);
    case Exited(badStatus, complete) => SettleLength(if badStatus then HttpError(s) else s, complete && !s.stdoutOpen);
  }

  /** In every run the forwarded body stays within the declared length. */
  lemma {:induction false} RunLength(s: Reply, es: seq<Event>)
    requires LengthOk(s)
    ensures LengthOk(CallbackAll(s, es))
    decreases |es|
  {
    hide Callback, LengthOk;
    if es != [] {
      CallbackLength(s, es[0]);
      RunLength(Callback(s, es[0]), es[1..]);
    }
  }

  lemma SettledHasNoLocation(s: Reply, es: seq<Event>)
    requires !s.location
    ensures !CallbackAll(s, es).location
    decreases |es|
  {
    if es != [] {
      assert !Callback(s, es[0]).location;
      hide Callback;
      SettledHasNoLocation(Callback(s, es[0]), es[1..]);
    }
  }

  /**
    In every run: a response that is complete, is no error and no redirection has its header and exactly the declared
    body, if and only if no read of the program's output failed short of that. nph: the program writes its own headers.
   */
  lemma CompleteIffNotCutShort(nph: bool, es: seq<Event>)
    ensures var s := CallbackAll(START.(seenHeader := nph), es);
            && (s.declared.Some? ==> |s.body| <= s.declared.value)
            && (s.finalized && !s.error && !s.redirected ==>
                  (s.seenHeader && (s.declared.Some? ==> |s.body| == s.declared.value) <==> !s.cutShort))
  {
    hide CallbackAll;
    RunLength(START.(seenHeader := nph), es);
    SettledHasNoLocation(START.(seenHeader := nph), es);
  }

  /** A failed read closes stdout without the length check, and a good exit then completes the response as it is. */
  lemma FailedReadCompletes(s: Reply)
    requires s.stdoutOpen && !s.finalized && !s.location
    ensures CallbackAll(s, FailAndExit()) == s.(stdoutOpen := false, cutShort := s.cutShort || !Whole(s), finalized := true)
  {
    var es := FailAndExit();
    assert Reads(s, Stdout, [Failed]) == OneRead(s, Stdout, Failed).s;
    var t := Callback(s, es[0]);
    assert es[1..] == [es[1]] && [es[1]][1..] == [];
    assert CallbackAll(t, [es[1]]) == Callback(t, es[1]);
  }

  function FailAndExit(): seq<Event> {
    [Readable(Stdout, [Failed], false), Exited(false, true)]
  }

  /** A failed first read: a complete response without a header and without an error. */
  lemma FailedBeforeHeader()
    ensures var s := CallbackAll(START, FailAndExit());
            s.finalized && !s.error && !s.redirected && !s.seenHeader && s.ops == [] && s.body == []
  {
    FailedReadCompletes(START);
  }

  /** "Content-Length: 5", a blank line, and one byte of body. */
  function ShortOutput(): seq<byte> {
    Print([Field(CONTENT_LENGTH, [53])], [97])
  }

  lemma ShortOutputParses()
    ensures Parse(ShortOutput(), false) == Done([ContentLength(5)], [97])
  {
    hide Parse, Print;
    var f := Field(CONTENT_LENGTH, [53]);
    assert [f][1..] == [] && [f][0] == f;
    assert Printable(f) && ParseDigits([53]) == Some(5) by {
      assert [53][1..] == [];
    }
    assert FieldOp(f.name, f.value) == Some(ContentLength(5));
    PrintParse([f], [97], false);
  }

  /** A failed read after one of five declared bytes: a complete response with a short body and without an error. */
  lemma FailedShortOfDeclared()
    ensures var s := CallbackAll(START, [Readable(Stdout, [Bytes(ShortOutput())], false)] + FailAndExit());
            s.finalized && !s.error && !s.redirected && s.declared == Some(5) && s.body == [97]
  {
    hide Parse, ShortOutput;
    var e := Readable(Stdout, [Bytes(ShortOutput())], false);
    var es := [e] + FailAndExit();
    assert es[1..] == FailAndExit();
    ShortOutputParses();
    assert [] + ShortOutput() == ShortOutput();
    var p := OneRead(START, Stdout, Bytes(ShortOutput()));
    assert [] + [ContentLength(5)] == [ContentLength(5)] && [] + [97] == [97];
    assert p.more && p.s.declared == Some(5) && p.s.body == [97] && !p.s.location;
    assert [Bytes(ShortOutput())][1..] == [];
    assert Reads(p.s, Stdout, []) == p.s;
    assert Reads(START, Stdout, [Bytes(ShortOutput())]) == p.s;
    assert Callback(START, e) == p.s;
    FailedReadCompletes(p.s);
  }

  // ---- What each read and exit does ----

  /**
    One read: an interrupted one is made again; a full pipe ends the loop; a failed one, and the end of stderr, close
    the channel; stderr is passed over.
   */
  lemma OneReadExactly(s: Reply, channel: Channel, r: ReadResult)
    ensures var p := OneRead(s, channel, r);
            && (r.Interrupted? ==> p == Pass(s, true))
            && (r.WouldBlock? ==> p == Pass(s, false))
            && (r.Failed? && channel.Stderr? ==> p == Pass(s.(stderrOpen := false), false))
            && (r.Failed? && channel.Stdout? ==>
                  !p.more && p.s == s.(stdoutOpen := false, cutShort := p.s.cutShort))
            && (r.EndOfFile? && channel.Stderr? ==> p == Pass(s.(stderrOpen := false), false))
            && (r.Bytes? && channel.Stderr? ==> p == Pass(s, true))
  {
    hide Output, OutputEnds, Whole;
  }

  /** Nothing is forwarded to a client that has a final response, header or not. */
  lemma FinalForwardsNothing(s: Reply, data: seq<byte>)
    requires s.finalized
    ensures OneRead(s, Stdout, Bytes(data)).s.body == s.body
  {
    hide Parse, Declared, Redirects;
  }

  /** More body than was declared. */
  predicate Overruns(s: Reply, declared: Option<nat>, data: seq<byte>) {
    data != [] && declared.Some? && s.bodyBytes + |data| > declared.value
  }

  /**
    Body from stdout of an open response: it is forwarded and the loop goes on, unless it runs over the declared length.
    Then none of it is forwarded, the loop ends, and it is an error if no Location was kept.
   */
  lemma BodyExactly(s: Reply, data: seq<byte>)
    requires s.seenHeader && !s.finalized
    ensures var p := OneRead(s, Stdout, Bytes(data));
            && (p.more <==> !Overruns(s, s.declared, data))
            && (p.more ==> p.s == s.(bodyBytes := s.bodyBytes + |data|, body := s.body + data))
            && (!p.more ==> p.s.body == s.body && (p.s.error <==> s.error || !s.location))
  {
    hide Parse;
  }

  /** What is behind a complete header is body. */
  lemma CompleteHeader(s: Reply, b: seq<byte>, ops: seq<Op>, rest: seq<byte>)
    requires !s.seenHeader && !s.finalized
    ensures var p := Header(s, b, Done(ops, rest));
            && p.s.seenHeader && p.s.held.None? && p.s.ops == s.ops + ops
            && (p.s.location <==> s.location || exists i :: 0 <= i < |ops| && ops[i].Redirect?)
            && (p.more <==> !Overruns(s, Declared(ops, s.declared), rest))
            && p.s.body == (if p.more then s.body + rest else s.body)
            && (p.s.error <==> s.error || (!p.more && !p.s.location))
  {
    var t := Apply(s, ops).(held := None, seenHeader := true);
    assert t.location <==> s.location || exists i :: 0 <= i < |ops| && ops[i].Redirect?;
    assert !t.finalized && t.declared == Declared(ops, s.declared) && t.body == s.body && t.ops == s.ops + ops && t.error == s.error;
    hide Apply, Redirects, Declared;
    assert s.body + [] == s.body;
  }

  lemma HeaderBytes(s: Reply, data: seq<byte>)
    requires !s.seenHeader
    ensures var b := (if s.held.Some? then s.held.value else []) + data;
            OneRead(s, Stdout, Bytes(data)) == Header(s, b, Parse(b, false))
  {
    hide Parse, Header;
  }

  /**
    Header bytes from stdout of an open response, by what the parser makes of them and those held: an incomplete header
    is held and the loop ends; a refused one is an error and ends it; behind a complete one the rest is body.
   */
  lemma HeaderExactly(s: Reply, data: seq<byte>)
    requires !s.seenHeader && !s.finalized
    ensures var p, b := OneRead(s, Stdout, Bytes(data)), (if s.held.Some? then s.held.value else []) + data;
            match Parse(b, false)
            case NeedMore => p == Pass(s.(held := Some(b)), false)
            case Fail(ops) => !p.more && p.s.error && p.s.finalized && p.s.held.None? && p.s.body == s.body && p.s.ops == s.ops + ops
            case Done(ops, rest) =>
              && p.s.seenHeader && p.s.held.None? && p.s.ops == s.ops + ops
              && (p.s.location <==> s.location || exists i :: 0 <= i < |ops| && ops[i].Redirect?)
              && (p.more <==> !Overruns(s, Declared(ops, s.declared), rest))
              && p.s.body == (if p.more then s.body + rest else s.body)
              && (p.s.error <==> s.error || (!p.more && !p.s.location))
  {
    hide Parse, Declared, Overruns, Redirects, OneRead, Forward;
    var b := (if s.held.Some? then s.held.value else []) + data;
    HeaderBytes(s, data);
    match Parse(b, false)
    case Done(ops, rest) =>
      hide Header;
      CompleteHeader(s, b, ops, rest);
    case _ =>
  }

  /** The end of stdout closes it and completes the response: an error if no header was seen or the length is wrong. */
  lemma EndOfStdoutExactly(s: Reply)
    ensures var p := OneRead(s, Stdout, EndOfFile);
            && !p.more && !p.s.stdoutOpen && p.s.finalized && p.s.body == s.body && p.s.ops == s.ops
            && (p.s.error <==> s.error || !s.seenHeader
                               || (!s.finalized && !s.location && s.declared.Some? && s.bodyBytes != s.declared.value))
  {
    hide Output;
  }

  /**
    A program that exits badly is an error; one that exits well ends the response when its channels are closed. A kept
    Location redirects in any case.
   */
  lemma ExitExactly(s: Reply, badStatus: bool, complete: bool)
    ensures var t := Callback(s, Exited(badStatus, complete));
            && (t.error <==> s.error || badStatus)
            && (t.redirected <==> s.redirected || s.location) && !t.location
            && (t.finalized <==> s.finalized || badStatus || s.location || (complete && !s.stdoutOpen))
            && t.body == s.body && t.ops == s.ops
  {
  }

  /** A callback for a channel reads it, unless the response is final: then the channel is closed. It ends as an exit does. */
  lemma ReadableExactly(s: Reply, channel: Channel, rs: seq<ReadResult>, complete: bool)
    ensures s.finalized ==> Reads(Close(s, channel), channel, rs) == Close(s, channel)
    ensures var u := if s.finalized then Close(s, channel) else Reads(s, channel, rs);
            var t := Callback(s, Readable(channel, rs, complete));
            && t.error == u.error && t.body == u.body && t.ops == u.ops && !t.location
            && (t.redirected <==> u.redirected || u.location)
            && (t.finalized <==> u.finalized || u.location || (complete && !u.stdoutOpen))
  {
    hide OneRead;
  }
}
