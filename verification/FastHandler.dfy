/**
  The inbound side of a request as it runs: the record loop of fastConnectorIncomingService and the response handler
  it calls, proved against ParseStream and RespondAll.
 */
module FastHandler {
  import opened Bytes
  import opened FastRecords
  import opened FastInbound
  import opened CgiText
  import opened CgiResponse
  import opened CgiBuffer
  import opened FastGateway

  class FastResponder {
    const id: nat
    var connReadq: seq<byte>
    var destroyApp: bool
    var parsedHeaders: bool
    var headers: Option<seq<byte>>
    var declaredLength: int
    var bodyBytes: nat
    var ended: bool
    // The client's stream
    var ops: seq<Op>
    var writeq: seq<byte>
    var error: bool
    var finalizedOutput: bool

    ghost function State(): Response
      reads this
    {
      Response(parsedHeaders, headers, ops, if declaredLength < 0 then None else Some(declaredLength), bodyBytes, writeq,
               error, finalizedOutput, ended)
    }

    constructor (id: nat)
      ensures this.id == id && State() == BEGIN && connReadq == [] && !destroyApp
    {
      this.id := id;
      connReadq, destroyApp, parsedHeaders, headers, declaredLength := [], false, false, None, -1;
      bodyBytes, ended, ops, writeq, error, finalizedOutput := 0, false, [], [], false, false;
    }

    method RaiseError()
      modifies this`error, this`finalizedOutput
      ensures State() == HttpError(old(State()))
    {
      error := true;
      finalizedOutput := true;
    }

    /** Let response lines take effect on the stream, in order. */
    method Apply(effects: seq<Op>)
      modifies this`ops, this`declaredLength, this`finalizedOutput
      ensures State() == ApplyOps(old(State()), effects)
    {
      hide ApplyOps;
      for i := 0 to |effects|
        invariant ApplyOps(State(), effects[i..]) == ApplyOps(old(State()), effects)
      {
        ApplyFirst(State(), effects[i..]);
        ghost var before := State();
        assert effects[i..][1..] == effects[i + 1..];
        ops := ops + [effects[i]];
        match effects[i] {
          case Redirect(_) => finalizedOutput := true;
          case ContentLength(length) => declaredLength := length;
          case _ =>
        }
        assert State() == ApplyOp(before, effects[i]);
      }
      ApplyNone(State());
    }

    /** checkFastLength. */
    method CheckFastLength()
      modifies this`error, this`finalizedOutput
      ensures State() == CheckLength(old(State()))
    {
      if declaredLength < 0 || bodyBytes == declaredLength {
        return;
      }
      if error || finalizedOutput {
        return;
      }
      RaiseError();
    }

    /** forwardFastBody: bytes beyond the declared length are not forwarded. */
    method ForwardFastBody(packet: seq<byte>)
      modifies this`bodyBytes, this`writeq, this`error, this`finalizedOutput
      ensures State() == Forward(old(State()), packet)
    {
      if !finalizedOutput && |packet| > 0 {
        bodyBytes := bodyBytes + |packet|;
        if declaredLength >= 0 && bodyBytes > declaredLength {
          CheckFastLength();
          return;
        }
        writeq := writeq + packet;
      }
    }

    /** What the parser makes of the output so far. */
    method TakeHeader(joined: seq<byte>, outcome: Outcome)
      modifies this
      ensures State() == StdoutHeader(old(State()), joined, outcome) && connReadq == old(connReadq) && destroyApp == old(destroyApp)
    {
      hide Forward;
      hide ApplyOps;
      match outcome {
        case NeedMore =>
          headers := if error then None else Some(joined);
        case Fail(effects) =>
          Apply(effects);
          RaiseError();
          headers := None;
        case Done(effects, body) =>
          Apply(effects);
          headers := None;
          parsedHeaders := true;
          ForwardFastBody(body);
      }
    }

    /** FAST_STDOUT: hold the output until its header block is complete, then forward. */
    method HandleStdout(packet: seq<byte>)
      modifies this
      ensures State() == Stdout(old(State()), packet) && connReadq == old(connReadq) && destroyApp == old(destroyApp)
    {
      hide Parse;
      hide Forward;
      hide StdoutHeader;
      if parsedHeaders {
        ForwardFastBody(packet);
        return;
      }
      var joined := if headers.Some? then headers.value + packet else packet;
      assert [] + packet == packet;
      var buf := new MprBuf(joined, 1);
      var outcome := MaParseCgiResponse(buf, false);
      TakeHeader(joined, outcome);
    }

    /** FAST_END_REQUEST: parse what was still held, reconcile the length, and complete the output. */
    method HandleEndRequest(packet: seq<byte>)
      modifies this
      ensures State() == EndRequest(old(State()), packet) && connReadq == old(connReadq) && destroyApp == old(destroyApp)
    {
      hide Parse;
      hide EndHeld;
      hide CheckLength;
      if |packet| < 8 {
        RaiseError();
        return;
      }
      var protoStatus := packet[4];
      if protoStatus == FAST_REQUEST_COMPLETE {
        ended := true;
      } else if protoStatus == FAST_CANT_MPX_CONN || protoStatus == FAST_OVERLOADED || protoStatus == FAST_UNKNOWN_ROLE {
        RaiseError();
        return;
      }
      if !parsedHeaders && headers.Some? {
        HandleHeld();
      } else {
        CheckFastLength();
        finalizedOutput := true;
      }
    }

    /** Parse output that was held when the app's output ended, and complete the response if it parses. */
    method HandleHeld()
      requires headers.Some?
      modifies this
      ensures connReadq == old(connReadq) && destroyApp == old(destroyApp)
      ensures State() == EndHeld(old(State()), Parse(old(headers).value, true))
    {
      hide Parse;
      hide EndHeld;
      var buf := new MprBuf(headers.value, 1);
      var outcome := MaParseCgiResponse(buf, true);
      FinishHeld(outcome);
    }

    /** What the parser makes of output held to the end. */
    method FinishHeld(outcome: Outcome)
      modifies this
      ensures State() == EndHeld(old(State()), outcome) && connReadq == old(connReadq) && destroyApp == old(destroyApp)
    {
      hide Forward;
      hide ApplyOps;
      hide CheckLength;
      hide StdoutHeader, Redirects, Declared, HttpError;
      match outcome {
        case NeedMore =>
        case Fail(effects) =>
          Apply(effects);
          RaiseError();
          headers := None;
        case Done(effects, body) =>
          Apply(effects);
          headers := None;
          parsedHeaders := true;
          ForwardFastBody(body);
          CheckFastLength();
          finalizedOutput := true;
      }
    }

    /** fastHandlerResponse for a record from the app. */
    method FastHandlerResponse(kind: byte, packet: seq<byte>)
      modifies this
      ensures kind == FAST_STDOUT ==> State() == Stdout(old(State()), packet)
      ensures kind == FAST_END_REQUEST ==> State() == EndRequest(old(State()), packet)
      ensures kind != FAST_STDOUT && kind != FAST_END_REQUEST ==> State() == old(State())
      ensures connReadq == old(connReadq) && destroyApp == old(destroyApp)
    {
      hide Stdout;
      hide EndRequest;
      if kind == FAST_END_REQUEST {
        HandleEndRequest(packet);
      } else if kind == FAST_STDOUT {
        HandleStdout(packet);
      }
    }

    /**
      The record loop: take the joined packet, put it back while a header or a record is incomplete, give up the
      connection at a bad header, and otherwise split off the rest and deliver the record without its padding.
     */
    method FastConnectorIncomingService()
      modifies this
      ensures var p := ParseStream(id, old(connReadq));
              && connReadq == p.rest && destroyApp == (old(destroyApp) || p.bad)
              && State() == if p.bad then HttpError(RespondAll(old(State()), p.records)) else RespondAll(old(State()), p.records)
    {
      hide Stdout, EndRequest, Respond, RespondAll, ParseStream, ReadRecord;
      ghost var p := ParseStream(id, connReadq);
      while connReadq != []
        invariant destroyApp == old(destroyApp)
        invariant var q := ParseStream(id, connReadq);
                  q.rest == p.rest && q.bad == p.bad && RespondAll(State(), q.records) == RespondAll(old(State()), p.records)
        decreases |connReadq|
      {
        var packet := connReadq;
        ParseStep(id, packet);
        RespondNone(State());
        if |packet| < FAST_PACKET_SIZE {
          break;
        }
        connReadq := [];
        var kind, requestID := packet[1], Be16(packet[2], packet[3]);
        var contentLength: int, padLength: int := Be16(packet[4], packet[5]), packet[6];
        var len := contentLength + padLength;
        if packet[0] != FAST_VERSION || (kind != FAST_STDOUT && kind != FAST_STDERR && kind != FAST_END_REQUEST) || requestID != id {
          destroyApp := true;
          RaiseError();
          return;
        }
        if |packet| - FAST_PACKET_SIZE < len {
          connReadq := packet;
          break;
        }
        var content := packet[FAST_PACKET_SIZE..FAST_PACKET_SIZE + len];
        connReadq := packet[FAST_PACKET_SIZE + len..];
        content := content[..contentLength];
        assert content == packet[FAST_PACKET_SIZE..FAST_PACKET_SIZE + contentLength];
        RespondIs(State(), ReadRecord(packet).record);
        RespondFirst(State(), ReadRecord(packet).record, ParseStream(id, connReadq).records);
        FastHandlerResponse(kind, content);
      }
      ParseStep(id, connReadq);
      RespondNone(State());
    }
  }

  lemma RespondNone(s: Response)
    ensures RespondAll(s, []) == s
  {
  }

  lemma RespondIs(s: Response, r: Record)
    ensures r.kind == FAST_STDOUT ==> Respond(s, r) == Stdout(s, r.content)
    ensures r.kind == FAST_END_REQUEST ==> Respond(s, r) == EndRequest(s, r.content)
    ensures r.kind != FAST_STDOUT && r.kind != FAST_END_REQUEST ==> Respond(s, r) == s
  {
    hide Stdout;
    hide EndRequest;
  }

  lemma RespondFirst(s: Response, r: Record, rs: seq<Record>)
    ensures RespondAll(s, [r] + rs) == RespondAll(Respond(s, r), rs)
  {
    hide Respond;
    assert ([r] + rs)[1..] == rs;
  }
}
