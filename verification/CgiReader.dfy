/** The reading side of the CGI gateway as it runs: the loop of readFromCgi, proved against CgiOutput. */
module CgiReader {
  import opened Bytes
  import opened CgiText
  import opened CgiResponse
  import opened CgiBuffer
  import opened FastGateway
  import Cgi = CgiOutput

  class CgiGateway {
    var seenHeader: bool
    var headers: Option<seq<byte>>
    var declaredLength: int
    var location: bool
    var bodyBytes: nat
    var stdoutOpen: bool
    var stderrOpen: bool
    // The client's stream
    var ops: seq<Op>
    var readq: seq<byte>
    var error: bool
    var finalized: bool
    var redirected: bool
    ghost var cutShort: bool

    constructor (nph: bool)
      ensures State() == Cgi.START.(seenHeader := nph)
    {
      seenHeader, headers, declaredLength, location, bodyBytes := nph, None, -1, false, 0;
      stdoutOpen, stderrOpen, ops, readq := true, true, [], [];
      error, finalized, redirected, cutShort := false, false, false, false;
    }

    ghost function State(): Cgi.Reply
      reads this
    {
      Cgi.Reply(seenHeader, headers, ops, if declaredLength < 0 then None else Some(declaredLength), location, bodyBytes,
                readq, error, finalized, redirected, stdoutOpen, stderrOpen, cutShort)
    }

    method RaiseError()
      modifies this`error, this`finalized
      ensures State() == Cgi.HttpError(old(State()))
    {
      error, finalized := true, true;
    }

    /** Let response lines take effect on the stream, in order. A Location is only kept. */
    method Apply(effects: seq<Op>)
      modifies this`ops, this`declaredLength, this`location
      ensures State() == Cgi.Apply(old(State()), effects)
    {
      hide Cgi.Apply;
      for i := 0 to |effects|
        invariant Cgi.Apply(State(), effects[i..]) == Cgi.Apply(old(State()), effects)
      {
        Cgi.ApplyFirst(State(), effects[i..]);
        ghost var before := State();
        assert effects[i..][1..] == effects[i + 1..];
        ops := ops + [effects[i]];
        match effects[i] {
          case Redirect(_) => location := true;
          case ContentLength(length) => declaredLength := length;
          case _ =>
        }
        assert State() == Cgi.ApplyOp(before, effects[i]);
      }
      Cgi.ApplyNone(State());
    }

    method CheckCgiLength()
      modifies this`error, this`finalized
      ensures State() == Cgi.CheckCgiLength(old(State()))
    {
      if declaredLength < 0 || bodyBytes == declaredLength {
        return;
      }
      if error || finalized || location {
        return;
      }
      RaiseError();
    }

    /** The end of the loop body: bytes beyond the declared length are not forwarded. */
    method ForwardBody(packet: seq<byte>) returns (more: bool)
      modifies this`bodyBytes, this`readq, this`error, this`finalized
      ensures Cgi.Pass(State(), more) == Cgi.Forward(old(State()), packet)
    {
      if !finalized && |packet| > 0 {
        bodyBytes := bodyBytes + |packet|;
        if declaredLength >= 0 && bodyBytes > declaredLength {
          CheckCgiLength();
          return false;
        }
        readq := readq + packet;
      }
      return true;
    }

    /** What the parser makes of the output so far. */
    method TakeHeader(joined: seq<byte>, outcome: Outcome) returns (more: bool)
      modifies this
      ensures Cgi.Pass(State(), more) == Cgi.Header(old(State()), joined, outcome)
    {
      hide Cgi.Forward, Cgi.Apply;
      match outcome {
        case NeedMore =>
          headers := Some(joined);
          return false;
        case Fail(effects) =>
          Apply(effects);
          RaiseError();
          headers := None;
          return false;
        case Done(effects, body) =>
          Apply(effects);
          headers := None;
          seenHeader := true;
          more := ForwardBody(body);
      }
    }

    /** Output from stdout: the header block first, then body. */
    method TakeOutput(data: seq<byte>) returns (more: bool)
      modifies this
      ensures Cgi.Pass(State(), more) == Cgi.Output(old(State()), data)
    {
      hide Parse, Cgi.Forward, Cgi.Header;
      if seenHeader {
        more := ForwardBody(data);
        return;
      }
      var joined := if headers.Some? then headers.value + data else data;
      assert [] + data == data;
      var buf := new MprBuf(joined, 1);
      var outcome := MaParseCgiResponse(buf, false);
      more := TakeHeader(joined, outcome);
    }

    method CloseFd(channel: Cgi.Channel)
      modifies this`stdoutOpen, this`stderrOpen
      ensures State() == Cgi.Close(old(State()), channel)
    {
      if channel.Stdout? {
        stdoutOpen := false;
      } else {
        stderrOpen := false;
      }
    }

    /** One pass of the loop, with the result of the read. */
    method TakeRead(channel: Cgi.Channel, r: Cgi.ReadResult) returns (more: bool)
      modifies this
      ensures Cgi.Pass(State(), more) == Cgi.OneRead(old(State()), channel, r)
    {
      hide Cgi.Output;
      match r {
        case Interrupted => return true;
        case WouldBlock => return false;
        case Failed =>
          cutShort := cutShort || (channel.Stdout? && !Cgi.Whole(State()));
          CloseFd(channel);
          return false;
        case EndOfFile =>
          CloseFd(channel);
          if channel.Stdout? {
            if !seenHeader {
              RaiseError();
              return false;
            }
            CheckCgiLength();
            finalized := true;
          }
          return false;
        case Bytes(data) =>
          if channel.Stderr? {
            return true;
          }
          more := TakeOutput(data);
      }
    }

    /** results are what the reads return, until the client's queue is full. */
    method ReadFromCgi(channel: Cgi.Channel, results: seq<Cgi.ReadResult>)
      modifies this
      ensures State() == Cgi.ReadFromCgi(old(State()), channel, results)
    {
      hide Cgi.OneRead;
      if finalized {
        CloseFd(channel);
      }
      ghost var start := State();
      var i, more := 0, true;
      while more && i < |results| && (if channel.Stdout? then stdoutOpen else stderrOpen) && !finalized
        invariant 0 <= i <= |results|
        invariant Cgi.Reads(start, channel, results) == if more then Cgi.Reads(State(), channel, results[i..]) else State()
      {
        assert results[i..][1..] == results[i + 1..];
        more := TakeRead(channel, results[i]);
        i := i + 1;
      }
    }

    /** cgiCallback for the program's output. */
    method CgiCallback(channel: Cgi.Channel, results: seq<Cgi.ReadResult>, complete: bool)
      modifies this
      ensures State() == Cgi.Callback(old(State()), Cgi.Readable(channel, results, complete))
    {
      hide Cgi.Reads;
      ReadFromCgi(channel, results);
      if location {
        redirected := true;
      }
      if (complete && !stdoutOpen) || location {
        location := false;
        finalized := true;
      }
    }
  }
}
