/**
  Request body to a CGI program (cgiHandler.c): packets are queued by browserToCgiData and written to the program's
  standard input by browserToCgiService. What a write does is the environment's choice.
 */
module CgiStdin {
  import opened Bytes

  /** A packet may come without a content buffer. */
  datatype Packet = Data(content: Option<seq<byte>>) | End

  datatype WriteResult = Wrote(n: nat) | Interrupted | WouldBlock | Failed

  /** History: bytes taken off the queue, and whether the program got them. */
  datatype Chunk = Chunk(bytes: seq<byte>, delivered: bool)

  /** History: a write to the program, with the bytes offered and what came of it. */
  datatype Call = Call(offered: seq<byte>, result: WriteResult)

  /** History: what was taken off the queue, the content of all packets that were put on it, and the writes made. */
  datatype Log = Log(chunks: seq<Chunk>, body: seq<byte>, calls: seq<Call>)

  /** The write queue and standard input. blocked: the queue is suspended. ended and failed say why input was closed. */
  datatype Pipe = Pipe(queue: seq<Packet>, stdinOpen: bool, blocked: bool, error: bool, ended: bool, failed: bool, log: Log)

  /**
    running: there is a command. waiting: its writable events are enabled. scheduled: the write queue will be serviced.
    complete: the end packet has come. begun: startCgi was called, which happens once.
   */
  datatype Input = Input(pipe: Pipe, begun: bool, running: bool, deferStart: bool, complete: bool, readSuspended: bool, waiting: bool,
                         scheduled: bool)

  const OPENED := Input(Pipe([], true, false, false, false, false, Log([], [], [])), false, false, false, false, false, false, false)

  function Content(p: Packet): seq<byte> {
    if p.Data? && p.content.Some? then p.content.value else []
  }

  function Pending(q: seq<Packet>): seq<byte> {
    if q == [] then [] else Content(q[0]) + Pending(q[1..])
  }

  function Taken(chunks: seq<Chunk>): seq<byte> {
    if chunks == [] then [] else Taken(chunks[..|chunks| - 1]) + chunks[|chunks| - 1].bytes
  }

  /** How much of what it is offered a write takes. */
  function TakenBy(c: Call): nat {
    if !c.result.Wrote? then 0 else if c.result.n <= |c.offered| then c.result.n else |c.offered|
  }

  /** What the program has read or can read, going by the results of the writes alone. */
  function Given(calls: seq<Call>): seq<byte> {
    if calls == [] then []
    else
      var c := calls[|calls| - 1];
      Given(calls[..|calls| - 1]) + c.offered[..TakenBy(c)]
  }

  /** What interrupted writes were offered: the gateway goes on without it. */
  function Skipped(calls: seq<Call>): nat {
    if calls == [] then 0
    else
      var c := calls[|calls| - 1];
      Skipped(calls[..|calls| - 1]) + if c.result.Interrupted? then |c.offered| else 0
  }

  /** A write that did not take all it was offered because the pipe is full. */
  predicate FindsFull(c: Call) {
    c.result.WouldBlock? || (c.result.Wrote? && c.result.n < |c.offered|)
  }

  /** What the gateway takes for delivered, in order. */
  function Delivered(chunks: seq<Chunk>): seq<byte> {
    if chunks == [] then []
    else
      var c := chunks[|chunks| - 1];
      Delivered(chunks[..|chunks| - 1]) + if c.delivered then c.bytes else []
  }

  /** Bytes of packets that an interrupted write left behind. */
  function Dropped(chunks: seq<Chunk>): nat {
    if chunks == [] then 0
    else
      var c := chunks[|chunks| - 1];
      Dropped(chunks[..|chunks| - 1]) + if c.delivered then 0 else |c.bytes|
  }

  /** httpDiscardQueueData: the data packets go. */
  function Discarded(q: seq<Packet>): seq<Packet> {
    if q == [] then [] else (if q[0].End? then [q[0]] else []) + Discarded(q[1..])
  }

  lemma DiscardedFirst(q: seq<Packet>)
    requires q != []
    ensures Discarded(q) == (if q[0].End? then [q[0]] else []) + Discarded(q[1..])
  {
  }

  lemma DiscardedNone()
    ensures Discarded([]) == []
  {
  }

  /**
    A write to a closed file fails; one that is not answered finds the pipe full. Writing no bytes at all never finds
    the pipe full.
   */
  function Answer(open: bool, rs: seq<WriteResult>, len: nat): WriteResult {
    var r := if rs == [] then WouldBlock else rs[0];
    if !open then Failed else if r.WouldBlock? && len == 0 then Wrote(0) else r
  }

  function Rest(s: seq<WriteResult>): seq<WriteResult> {
    if s == [] then [] else s[1..]
  }

  datatype Progress = Progress(s: Pipe, rs: seq<WriteResult>, more: bool)

  function Taking(s: Pipe, bytes: seq<byte>, delivered: bool, queue: seq<Packet>): Pipe {
    s.(queue := queue, log := s.log.(chunks := s.log.chunks + [Chunk(bytes, delivered)]))
  }

  function Called(s: Pipe, c: Call): Pipe {
    s.(log := s.log.(calls := s.log.calls + [c]))
  }

  /** A write of the first packet's bytes, with result r. */
  function Write(s: Pipe, bytes: seq<byte>, r: WriteResult, rs: seq<WriteResult>): (p: Progress)
    requires s.queue != []
    ensures p.more ==> |p.s.queue| < |s.queue|
  {
    var tail := s.queue[1..];
    match r
    case Interrupted => Progress(Taking(s, bytes, false, tail), rs, true)
    case WouldBlock => Progress(s.(blocked := true), rs, false)
    case Failed => Progress(s.(stdinOpen := false, error := true, failed := true, queue := Discarded(tail)), rs, false)
    case Wrote(n) =>
      if n >= |bytes| then Progress(Taking(s, bytes, true, tail), rs, true)
      else Progress(Taking(s, bytes[..n], true, [Data(Some(bytes[n..]))] + tail).(blocked := true), rs, false)
  }

  /** One pass of the loop of browserToCgiService. */
  function TakePacket(s: Pipe, rs: seq<WriteResult>): (p: Progress)
    requires s.queue != []
    ensures p.more ==> |p.s.queue| < |s.queue|
  {
    match s.queue[0]
    case End => Progress(s.(queue := s.queue[1..], stdinOpen := false, ended := s.ended || s.stdinOpen), rs, true)
    case Data(None) => Progress(s.(queue := s.queue[1..]), rs, true)
    case Data(Some(bytes)) =>
      var r := Answer(s.stdinOpen, rs, |bytes|);
      Write(Called(s, Call(bytes, r)), bytes, r, if s.stdinOpen then Rest(rs) else rs)
  }

  /** The loop of browserToCgiService, for the write results rs. */
  function Drain(s: Pipe, rs: seq<WriteResult>): Pipe
    decreases |s.queue|
  {
    if s.queue == [] then s
    else
      var p := TakePacket(s, rs);
      if p.more then Drain(p.s, p.rs) else p.s
  }

  /** browserToCgiService. */
  function Service(s: Input, max: nat, rs: seq<WriteResult>): Input {
    if !s.running then s.(scheduled := false)
    else
      var pipe := Drain(s.pipe, rs);
      var count := |Pending(pipe.queue)|;
      s.(pipe := pipe, scheduled := false, waiting := count > 0, readSuspended := s.readSuspended && count >= max)
  }

  function PutPacket(s: Pipe, p: Packet): Pipe {
    s.(queue := s.queue + [p], log := s.log.(body := s.log.body + Content(p)))
  }

  /** browserToCgiData, up to the start of a deferred program. short: the client sent less body than declared. */
  function Receive(s: Input, p: Packet, short: bool): Input {
    var killed := p.End? && short;
    s.(pipe := PutPacket(s.pipe.(error := s.pipe.error || killed), p), running := s.running && !killed,
       complete := s.complete || p.End?, scheduled := true)
  }

  /** startCgi: the program is not started before a body of unknown length has come in. */
  function Start(s: Input, unknownLength: bool, created: bool): Input {
    if unknownLength && !s.complete then s.(begun := true, deferStart := true) else s.(begun := true, running := created)
  }

  /** The end packet starts a deferred program. */
  function StartDeferred(s: Input, p: Packet, created: bool, max: nat, rs: seq<WriteResult>): Input {
    if s.deferStart && p.End? && !s.pipe.error then Service(s.(deferStart := false, running := created), max, rs) else s
  }

  /** Suspend the read queue while the gateway is behind. */
  function HoldBack(s: Input, max: nat): Input {
    if s.running && |Pending(s.pipe.queue)| >= max then s.(readSuspended := true) else s
  }

  /** browserToCgiData. created: a deferred program could be started. */
  function Put(s: Input, p: Packet, short: bool, created: bool, max: nat, rs: seq<WriteResult>): Input {
    HoldBack(StartDeferred(Receive(s, p, short), p, created, max, rs), max)
  }

  /** cgiCallback for standard input: it can absorb more. */
  function Writable(s: Input): Input {
    s.(pipe := s.pipe.(blocked := false), scheduled := true)
  }

  lemma GivenOne(calls: seq<Call>, c: Call)
    ensures Given(calls + [c]) == Given(calls) + c.offered[..TakenBy(c)]
    ensures Skipped(calls + [c]) == Skipped(calls) + if c.result.Interrupted? then |c.offered| else 0
  {
    assert (calls + [c])[..|calls + [c]| - 1] == calls;
  }

  // ---- The gateway's queue in place ----

  /** The program's standard input. It gets what writes say they took, and nothing else. */
  class ProgramInput {
    ghost var received: seq<byte>

    constructor ()
      ensures received == []
    {
      received := [];
    }

    /** mprWriteCmd, with the result r. */
    method WriteCmd(bytes: seq<byte>, r: WriteResult)
      modifies this
      ensures received == old(received) + if r.Wrote? then if r.n < |bytes| then bytes[..r.n] else bytes else []
    {
      received := received + if r.Wrote? then if r.n < |bytes| then bytes[..r.n] else bytes else [];
    }
  }

  class CgiInput {
    const program: ProgramInput
    var queue: seq<Packet>
    var stdinOpen: bool
    var blocked: bool
    var running: bool
    var deferStart: bool
    var complete: bool
    var error: bool
    var readSuspended: bool
    var waiting: bool
    var scheduled: bool
    const max: nat
    ghost var begun: bool
    ghost var ended: bool
    ghost var failed: bool
    ghost var log: Log

    constructor (max: nat)
      ensures View() == OPENED && this.max == max && fresh(program) && program.received == [] && Tied()
    {
      program := new ProgramInput();
      queue, stdinOpen, blocked, running, deferStart, complete, error, this.max := [], true, false, false, false, false, false, max;
      readSuspended, waiting, scheduled := false, false, false;
      begun, ended, failed, log := false, false, false, Log([], [], []);
    }

    ghost function ViewPipe(): Pipe
      reads `queue, `stdinOpen, `blocked, `error, `ended, `failed, `log
    {
      Pipe(queue, stdinOpen, blocked, error, ended, failed, log)
    }

    ghost function View(): Input
      reads this
    {
      Input(ViewPipe(), begun, running, deferStart, complete, readSuspended, waiting, scheduled)
    }

    /** What the program has is what the writes that were made have given it. */
    ghost predicate Tied()
      reads `log, program
    {
      program.received == Given(log.calls)
    }

    /** A write to the program, whatever its result. */
    method Offer(bytes: seq<byte>, r: WriteResult)
      requires Tied()
      modifies `log, program
      ensures Tied() && ViewPipe() == Called(old(ViewPipe()), Call(bytes, r))
    {
      program.WriteCmd(bytes, r);
      GivenOne(log.calls, Call(bytes, r));
      log := log.(calls := log.calls + [Call(bytes, r)]);
    }

    /** q->count. */
    method Count() returns (n: nat)
      ensures n == |Pending(queue)|
    {
      n := 0;
      var i := 0;
      while i < |queue|
        invariant 0 <= i <= |queue| && |Pending(queue)| == n + |Pending(queue[i..])|
      {
        assert queue[i..][1..] == queue[i + 1..];
        n := n + |Content(queue[i])|;
        i := i + 1;
      }
    }

    method DiscardQueueData()
      modifies this`queue
      ensures queue == Discarded(old(queue))
    {
      hide Discarded;
      var kept: seq<Packet>, i := [], 0;
      assert queue[0..] == queue && [] + Discarded(queue) == Discarded(queue);
      while i < |queue|
        invariant 0 <= i <= |queue| && queue == old(queue) && Discarded(queue) == kept + Discarded(queue[i..])
      {
        ghost var rest := Discarded(queue[i + 1..]);
        DiscardedFirst(queue[i..]);
        assert queue[i..][1..] == queue[i + 1..];
        assert kept + ([queue[i]] + rest) == (kept + [queue[i]]) + rest;
        assert [] + rest == rest;
        if queue[i].End? {
          kept := kept + [queue[i]];
        }
        i := i + 1;
      }
      DiscardedNone();
      assert queue[i..] == [] && kept + [] == kept;
      queue := kept;
    }

    /** The part of the loop that writes one packet of bytes. */
    method WritePacket(bytes: seq<byte>, r: WriteResult, rs: seq<WriteResult>) returns (going: bool)
      requires queue != [] && queue[0] == Data(Some(bytes))
      modifies `queue, `stdinOpen, `blocked, `failed, `error, `log
      ensures old(Tied()) ==> Tied()
      ensures Progress(ViewPipe(), rs, going) == Write(old(ViewPipe()), bytes, r, rs)
    {
      queue := queue[1..];
      match r
      case Interrupted =>
        log := log.(chunks := log.chunks + [Chunk(bytes, false)]);
        return true;
      case WouldBlock =>
        queue, blocked := [Data(Some(bytes))] + queue, true;
        return false;
      case Failed =>
        stdinOpen, error, failed := false, true, true;
        DiscardQueueData();
        return false;
      case Wrote(n) =>
        if n >= |bytes| {
          log := log.(chunks := log.chunks + [Chunk(bytes, true)]);
          return true;
        }
        log := log.(chunks := log.chunks + [Chunk(bytes[..n], true)]);
        queue, blocked := [Data(Some(bytes[n..]))] + queue, true;
        return false;
    }

    /** One pass of the loop. */
    method TakeFirst(rs: seq<WriteResult>) returns (rest: seq<WriteResult>, going: bool)
      requires queue != [] && Tied()
      modifies `queue, `stdinOpen, `blocked, `error, `ended, `failed, `log, program
      ensures Tied()
      ensures Progress(ViewPipe(), rest, going) == TakePacket(old(ViewPipe()), rs)
    {
      rest, going := rs, true;
      var packet := queue[0];
      match packet
      case End =>
        queue := queue[1..];
        ended := ended || stdinOpen;
        stdinOpen := false;
      case Data(None) => queue := queue[1..];
      case Data(Some(bytes)) =>
        var r := Answer(stdinOpen, rs, |bytes|);
        rest := if stdinOpen then Rest(rs) else rs;
        Offer(bytes, r);
        going := WritePacket(bytes, r, rest);
    }

    method DrainQueue(results: seq<WriteResult>)
      requires Tied()
      modifies `queue, `stdinOpen, `blocked, `error, `ended, `failed, `log, program
      ensures Tied()
      ensures ViewPipe() == Drain(old(ViewPipe()), results)
    {
      hide TakePacket;
      var rs, going := results, true;
      while going && queue != []
        invariant Tied()
        invariant Drain(old(ViewPipe()), results) == if going then Drain(ViewPipe(), rs) else ViewPipe()
        decreases going, |queue|
      {
        rs, going := TakeFirst(rs);
      }
    }

    /** results are what the writes return, in order. */
    method BrowserToCgiService(results: seq<WriteResult>)
      requires Tied()
      modifies this, program
      ensures Tied()
      ensures View() == Service(old(View()), max, results)
    {
      hide Drain, Pending;
      scheduled := false;
      if !running {
        return;
      }
      DrainQueue(results);
      var count := Count();
      waiting := count > 0;
      if count < max {
        readSuspended := false;
      }
    }

    method StartCgi(unknownLength: bool, created: bool)
      modifies this
      ensures old(Tied()) ==> Tied()
      ensures View() == Start(old(View()), unknownLength, created)
    {
      begun := true;
      if unknownLength && !complete {
        deferStart := true;
        return;
      }
      running := created;
    }

    method PutOnQueue(packet: Packet)
      modifies this`queue, this`log
      ensures ViewPipe() == PutPacket(old(ViewPipe()), packet) && (old(Tied()) ==> Tied())
    {
      queue, log := queue + [packet], log.(body := log.body + Content(packet));
    }

    /** short: the end packet came before the declared length. */
    method ReceivePacket(packet: Packet, short: bool)
      modifies this
      ensures old(Tied()) ==> Tied()
      ensures View() == Receive(old(View()), packet, short)
    {
      hide Content, PutPacket;
      if packet.End? && short {
        error, running := true, false;
      }
      PutOnQueue(packet);
      complete := complete || packet.End?;
      scheduled := true;
    }

    method StartDeferredCgi(packet: Packet, created: bool, results: seq<WriteResult>)
      requires Tied()
      modifies this, program
      ensures Tied()
      ensures View() == StartDeferred(old(View()), packet, created, max, results)
    {
      hide Service;
      if deferStart && packet.End? && !error {
        deferStart := false;
        running := created;
        BrowserToCgiService(results);
      }
    }

    method HoldBackReadQueue()
      modifies this`readSuspended
      ensures View() == HoldBack(old(View()), max)
    {
      hide Pending;
      var count := Count();
      if running && count >= max {
        readSuspended := true;
      }
    }

    /** browserToCgiData. created: a deferred program could be started. */
    method BrowserToCgiData(packet: Packet, short: bool, created: bool, results: seq<WriteResult>)
      requires Tied()
      modifies this, program
      ensures Tied()
      ensures View() == Put(old(View()), packet, short, created, max, results)
    {
      hide StartDeferred, HoldBack, Receive;
      ReceivePacket(packet, short);
      StartDeferredCgi(packet, created, results);
      HoldBackReadQueue();
    }

    /** cgiCallback for standard input. */
    method StdinWritable()
      modifies this
      ensures old(Tied()) ==> Tied()
      ensures View() == Writable(old(View()))
    {
      blocked, scheduled := false, true;
    }
  }
}
