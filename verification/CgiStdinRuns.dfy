/** What every run of the CGI gateway's input keeps: conservation of the request body, and flow control. */
module CgiStdinRuns {
  import opened Bytes
  import opened CgiStdin

  // ---- Runs ----

  datatype Event =
    | Started(unknownLength: bool, created: bool)
    | Received(packet: Packet, short: bool, created: bool, rs: seq<WriteResult>)
    | Serviced(rs: seq<WriteResult>)
    | BecameWritable

  /** startCgi is called once, the end packet is the last one, and a suspended queue is not serviced. */
  predicate Enabled(s: Input, e: Event) {
    match e
    case Started(_, _) => !s.begun
    case Received(p, _, _, _) => !s.complete
    case Serviced(_) => s.scheduled && !s.pipe.blocked
    case BecameWritable => s.waiting
  }

  function Step(s: Input, max: nat, e: Event): Input {
    match e
    case Started(unknownLength, created) => Start(s, unknownLength, created)
    case Received(p, short, created, rs) => Put(s, p, short, created, max, rs)
    case Serviced(rs) => Service(s, max, rs)
    case BecameWritable => Writable(s)
  }

  ghost predicate IsRun(ss: seq<Input>, max: nat, es: seq<Event>) {
    && |ss| == |es| + 1 && ss[0] == OPENED
    && forall i :: 0 <= i < |es| ==> Enabled(ss[i], es[i]) && ss[i + 1] == Step(ss[i], max, es[i])
  }

  // ---- The body ----

  /** Only the last packet may be the end packet. */
  predicate EndLast(q: seq<Packet>) {
    forall i :: 0 <= i < |q| - 1 ==> q[i].Data?
  }

  predicate Conserved(s: Pipe) {
    if s.failed then Taken(s.log.chunks) <= s.log.body
    else Taken(s.log.chunks) + Pending(s.queue) == s.log.body
  }

  /** Why standard input is closed, and what a suspended queue holds. */
  predicate Closed(s: Pipe) {
    && (s.stdinOpen <==> !s.ended && !s.failed) && !(s.ended && s.failed)
    && (s.ended ==> s.queue == [])
    && (s.blocked ==> s.queue != [] && Content(s.queue[0]) != [] && s.stdinOpen)
  }

  /** What is taken for delivered is what the writes gave the program, and the queue waits only for a full pipe. */
  predicate Truthful(s: Pipe) {
    && Delivered(s.log.chunks) == Given(s.log.calls) && Dropped(s.log.chunks) == Skipped(s.log.calls)
    && (s.blocked ==> s.log.calls != [] && FindsFull(s.log.calls[|s.log.calls| - 1]))
    && (s.failed ==> s.log.calls != [] && s.log.calls[|s.log.calls| - 1].result.Failed?)
  }

  predicate PipeOk(s: Pipe) {
    EndLast(s.queue) && Conserved(s) && Closed(s) && Truthful(s)
  }

  lemma {:induction false} PendingAppend(a: seq<Packet>, b: seq<Packet>)
    ensures Pending(a + b) == Pending(a) + Pending(b)
  {
    if a == [] {
      assert a + b == b;
    } else {
      assert (a + b)[1..] == a[1..] + b;
      PendingAppend(a[1..], b);
    }
  }

  lemma TakenOne(chunks: seq<Chunk>, c: Chunk)
    ensures Taken(chunks + [c]) == Taken(chunks) + c.bytes
    ensures Delivered(chunks + [c]) == Delivered(chunks) + if c.delivered then c.bytes else []
    ensures Dropped(chunks + [c]) == Dropped(chunks) + if c.delivered then 0 else |c.bytes|
  {
    assert (chunks + [c])[..|chunks + [c]| - 1] == chunks;
  }

  lemma {:induction false} DiscardedEndLast(q: seq<Packet>)
    requires EndLast(q)
    ensures EndLast(Discarded(q)) && Pending(Discarded(q)) == [] && |Discarded(q)| <= 1
    ensures forall p :: p in Discarded(q) ==> p in q
  {
    if q != [] {
      DiscardedEndLast(q[1..]);
      assert q == [q[0]] + q[1..];
    }
  }

  lemma {:induction false} EndOnly(q: seq<Packet>)
    requires q != [] && q[0].End? && EndLast(q)
    ensures q == [End]
  {
  }

  /** Bytes move from the front of the queue to the history. */
  lemma TakingConserves(s: Pipe, bytes: seq<byte>, delivered: bool, q: seq<Packet>)
    requires !s.failed && Conserved(s) && Pending(s.queue) == bytes + Pending(q)
    ensures Conserved(Taking(s, bytes, delivered, q))
    ensures Delivered(Taking(s, bytes, delivered, q).log.chunks) == Delivered(s.log.chunks) + if delivered then bytes else []
    ensures Dropped(Taking(s, bytes, delivered, q).log.chunks) == Dropped(s.log.chunks) + if delivered then 0 else |bytes|
  {
    hide Pending, Taken, Delivered, Dropped;
    TakenOne(s.log.chunks, Chunk(bytes, delivered));
    assert Taken(s.log.chunks) + (bytes + Pending(q)) == (Taken(s.log.chunks) + bytes) + Pending(q);
  }

  lemma WriteKeeps(s: Pipe, bytes: seq<byte>, r: WriteResult, rs: seq<WriteResult>)
    requires PipeOk(s) && s.queue != [] && s.queue[0] == Data(Some(bytes)) && !s.blocked && (!s.stdinOpen ==> r.Failed?)
    requires r.WouldBlock? ==> bytes != []
    ensures var p := Write(Called(s, Call(bytes, r)), bytes, r, rs);
            PipeOk(p.s) && (p.more ==> !p.s.blocked) && p.s.log.body == s.log.body
  {
    hide Taken, Delivered, Given, Dropped, Skipped;
    var tail := s.queue[1..];
    var t := Called(s, Call(bytes, r));
    GivenOne(s.log.calls, Call(bytes, r));
    assert Pending(s.queue) == bytes + Pending(tail);
    match r
    case Interrupted => TakingConserves(t, bytes, false, tail);
    case WouldBlock =>
    case Failed => DiscardedEndLast(tail);
    case Wrote(n) =>
      if n >= |bytes| {
        TakingConserves(t, bytes, true, tail);
        assert bytes[..|bytes|] == bytes;
      } else {
        var left := [Data(Some(bytes[n..]))] + tail;
        assert left[1..] == tail;
        assert Pending(left) == bytes[n..] + Pending(tail);
        assert bytes + Pending(tail) == bytes[..n] + (bytes[n..] + Pending(tail));
        TakingConserves(t, bytes[..n], true, left);
      }
  }

  /** The end packet closes standard input. */
  lemma EndKeeps(s: Pipe)
    requires PipeOk(s) && s.queue != [] && s.queue[0].End? && !s.blocked
    ensures PipeOk(s.(queue := s.queue[1..], stdinOpen := false, ended := s.ended || s.stdinOpen))
  {
    EndOnly(s.queue);
    assert [End][1..] == [];
    assert Pending([End]) == [] + Pending([]);
  }

  /** A packet without content is passed over. */
  lemma SkipKeeps(s: Pipe)
    requires PipeOk(s) && s.queue != [] && s.queue[0] == Data(None) && !s.blocked
    ensures PipeOk(s.(queue := s.queue[1..]))
  {
    assert Pending(s.queue) == [] + Pending(s.queue[1..]) == Pending(s.queue[1..]);
    hide Pending;
  }

  lemma TakeKeeps(s: Pipe, rs: seq<WriteResult>)
    requires PipeOk(s) && s.queue != [] && !s.blocked
    ensures var p := TakePacket(s, rs); PipeOk(p.s) && (p.more ==> !p.s.blocked) && p.s.log.body == s.log.body
  {
    hide Write;
    match s.queue[0]
    case End => EndKeeps(s);
    case Data(None) => SkipKeeps(s);
    case Data(Some(bytes)) => WriteKeeps(s, bytes, Answer(s.stdinOpen, rs, |bytes|), if s.stdinOpen then Rest(rs) else rs);
  }

  lemma {:induction false} DrainKeeps(s: Pipe, rs: seq<WriteResult>)
    requires PipeOk(s) && !s.blocked
    ensures PipeOk(Drain(s, rs)) && Drain(s, rs).log.body == s.log.body
    decreases |s.queue|
  {
    if s.queue != [] {
      TakeKeeps(s, rs);
      var p := TakePacket(s, rs);
      hide TakePacket, PipeOk;
      if p.more {
        DrainKeeps(p.s, p.rs);
      }
    }
  }

  lemma PutKeeps(s: Pipe, p: Packet, error: bool)
    requires PipeOk(s) && (forall q <- s.queue :: q.Data?) && !s.ended
    ensures PipeOk(PutPacket(s.(error := error), p))
  {
    PendingAppend(s.queue, [p]);
    assert Pending([p]) == Content(p) + Pending([]);
  }

  // ---- Flow control ----

  /**
    The read queue is held back only while the gateway is behind, and then the write queue is about to be serviced or
    the program's writable event is awaited. A suspended queue with content awaits the event.
   */
  predicate Flowing(s: Input, max: nat) {
    var count := |Pending(s.pipe.queue)|;
    && (s.readSuspended && s.running ==> count >= max && (s.waiting || (s.scheduled && !s.pipe.blocked)))
    && (s.pipe.blocked ==> count > 0 && (s.running ==> s.waiting))
  }

  /** Before the program is started nothing is written; before the end packet comes the queue holds only data. */
  predicate InputOk(s: Input, max: nat) {
    && PipeOk(s.pipe) && Flowing(s, max)
    && (!s.begun ==> !s.running && !s.pipe.blocked && !s.readSuspended && !s.deferStart)
    && (s.deferStart ==> !s.running && !s.pipe.blocked && !s.readSuspended)
    && (!s.complete ==> !s.pipe.ended && forall q <- s.pipe.queue :: q.Data?)
  }

  lemma TakeData(s: Pipe, rs: seq<WriteResult>)
    requires s.queue != [] && (forall q <- s.queue :: q.Data?) && !s.ended
    ensures var p := TakePacket(s, rs).s; (forall q <- p.queue :: q.Data?) && !p.ended
  {
    hide Discarded;
    DiscardedMembers(s.queue[1..]);
    assert s.queue == [s.queue[0]] + s.queue[1..];
  }

  lemma {:induction false} DrainData(s: Pipe, rs: seq<WriteResult>)
    requires (forall q <- s.queue :: q.Data?) && !s.ended
    ensures (forall q <- Drain(s, rs).queue :: q.Data?) && !Drain(s, rs).ended
    decreases |s.queue|
  {
    if s.queue != [] {
      TakeData(s, rs);
      var p := TakePacket(s, rs);
      hide TakePacket;
      if p.more {
        DrainData(p.s, p.rs);
      }
    }
  }

  lemma {:induction false} DiscardedMembers(q: seq<Packet>)
    ensures forall p :: p in Discarded(q) ==> p in q
  {
    if q != [] {
      DiscardedMembers(q[1..]);
    }
  }

  lemma BlockedHasBytes(s: Pipe)
    requires PipeOk(s) && s.blocked
    ensures |Pending(s.queue)| > 0
  {
  }

  lemma ServiceKeeps(s: Input, max: nat, rs: seq<WriteResult>)
    requires InputOk(s, max) && !s.pipe.blocked && max > 0
    ensures InputOk(Service(s, max, rs), max)
  {
    hide PipeOk, Drain, Pending;
    if s.running {
      DrainKeeps(s.pipe, rs);
      var t := Drain(s.pipe, rs);
      if t.blocked {
        BlockedHasBytes(t);
      }
      if !s.complete {
        DrainData(s.pipe, rs);
      }
    }
  }

  lemma StartKeeps(s: Input, max: nat, unknownLength: bool, created: bool)
    requires InputOk(s, max) && !s.begun
    ensures InputOk(Start(s, unknownLength, created), max)
  {
  }

  lemma ReceiveKeeps(s: Input, max: nat, p: Packet, short: bool)
    requires InputOk(s, max) && !s.complete
    ensures InputOk(Receive(s, p, short), max)
  {
    PutKeeps(s.pipe, p, s.pipe.error || (p.End? && short));
    PendingAppend(s.pipe.queue, [p]);
    hide PipeOk;
  }

  lemma PutStepKeeps(s: Input, max: nat, p: Packet, short: bool, created: bool, rs: seq<WriteResult>)
    requires InputOk(s, max) && !s.complete && max > 0
    ensures InputOk(Put(s, p, short, created, max, rs), max)
  {
    ReceiveKeeps(s, max, p, short);
    hide PipeOk, Pending, Drain;
    var t := Receive(s, p, short);
    if t.deferStart && p.End? && !t.pipe.error {
      ServiceKeeps(t.(deferStart := false, running := created), max, rs);
    }
    HoldBackKeeps(StartDeferred(t, p, created, max, rs), max);
  }

  lemma HoldBackKeeps(s: Input, max: nat)
    requires InputOk(s, max) && max > 0 && (s.running ==> s.waiting || s.scheduled || Pending(s.pipe.queue) == [])
    ensures InputOk(HoldBack(s, max), max)
  {
    hide PipeOk;
  }

  lemma WritableKeeps(s: Input, max: nat)
    requires InputOk(s, max)
    ensures InputOk(Writable(s), max)
  {
  }

  lemma StepKeeps(s: Input, max: nat, e: Event)
    requires InputOk(s, max) && Enabled(s, e) && max > 0
    ensures InputOk(Step(s, max, e), max)
  {
    hide InputOk;
    match e
    case Started(unknownLength, created) => StartKeeps(s, max, unknownLength, created);
    case Received(p, short, created, rs) => PutStepKeeps(s, max, p, short, created, rs);
    case Serviced(rs) => ServiceKeeps(s, max, rs);
    case BecameWritable => WritableKeeps(s, max);
  }

  lemma {:induction false} RunKeeps(ss: seq<Input>, max: nat, es: seq<Event>, k: nat)
    requires |ss| == |es| + 1 && IsRun(ss, max, es) && max > 0 && k < |ss|
    ensures InputOk(ss[k], max)
  {
    if k > 0 {
      RunKeeps(ss, max, es, k - 1);
      hide InputOk, Step, Enabled;
      assert Enabled(ss[k - 1], es[k - 1]) && ss[k - 1 + 1] == Step(ss[k - 1], max, es[k - 1]);
      StepKeeps(ss[k - 1], max, es[k - 1]);
    }
  }

  // ---- Conservation ----

  lemma {:induction false} DeliveredIsTaken(chunks: seq<Chunk>)
    ensures |Delivered(chunks)| + Dropped(chunks) == |Taken(chunks)|
    ensures Dropped(chunks) == 0 ==> Delivered(chunks) == Taken(chunks)
  {
    if chunks != [] {
      DeliveredIsTaken(chunks[..|chunks| - 1]);
    }
  }

  /**
    At every point the bytes taken off the queue are an in-order prefix of the request body. The program has been given
    as much of it, less what interrupted writes dropped; without those it has a prefix of the body.
   */
  lemma DeliveredIsPrefix(ss: seq<Input>, max: nat, es: seq<Event>, k: nat)
    requires |ss| == |es| + 1 && IsRun(ss, max, es) && max > 0 && k < |ss|
    ensures var log := ss[k].pipe.log;
            && Taken(log.chunks) <= log.body && |Given(log.calls)| + Skipped(log.calls) == |Taken(log.chunks)|
            && (Skipped(log.calls) == 0 ==> Given(log.calls) <= log.body)
  {
    RunKeeps(ss, max, es, k);
    DeliveredIsTaken(ss[k].pipe.log.chunks);
  }

  /**
    When the end packet has closed standard input, the program was given the whole body exactly if no interrupted
    write dropped a byte. A write error excludes this end.
   */
  lemma EndDeliversTheBody(ss: seq<Input>, max: nat, es: seq<Event>, k: nat)
    requires |ss| == |es| + 1 && IsRun(ss, max, es) && max > 0 && k < |ss| && ss[k].pipe.ended
    ensures var log := ss[k].pipe.log;
            !ss[k].pipe.failed && Taken(log.chunks) == log.body
            && (Given(log.calls) == log.body <==> Skipped(log.calls) == 0)
  {
    RunKeeps(ss, max, es, k);
    DeliveredIsTaken(ss[k].pipe.log.chunks);
  }

  /** Two packets and the end, of which the second write is interrupted. */
  lemma DrainInterrupted(a: seq<byte>, b: seq<byte>)
    ensures var s := Pipe([Data(Some(a)), Data(Some(b)), End], true, false, false, false, false, Log([], a + b, []));
            var t := Drain(s, [Wrote(|a|), Interrupted]);
            t == Pipe([], false, false, false, true, false, Log([Chunk(a, true), Chunk(b, false)], a + b, [Call(a, Wrote(|a|)), Call(b, Interrupted)]))
  {
    var s := Pipe([Data(Some(a)), Data(Some(b)), End], true, false, false, false, false, Log([], a + b, []));
    var rs := [Wrote(|a|), Interrupted];
    var p := TakePacket(s, rs);
    assert p.s.queue == [Data(Some(b)), End] && p.rs == [Interrupted];
    var q := TakePacket(p.s, p.rs);
    assert q.s.queue == [End];
    var r := TakePacket(q.s, q.rs);
    assert r.s.queue == [] && r.s.log.chunks == [Chunk(a, true), Chunk(b, false)];
    assert Drain(r.s, r.rs) == r.s;
    assert Drain(q.s, q.rs) == r.s;
    assert Drain(p.s, p.rs) == r.s;
  }

  ghost predicate Goes(s: Input, max: nat, e: Event, t: Input) {
    Enabled(s, e) && t == Step(s, max, e)
  }

  /** A packet for a running program is queued. */
  lemma PutQueues(s: Input, max: nat, p: Packet)
    requires !s.deferStart && !s.complete
    ensures var t := Put(s, p, false, false, max, []);
            && Goes(s, max, Received(p, false, false, []), t)
            && t.pipe == PutPacket(s.pipe, p) && t.running == s.running && t.complete == p.End? && t.scheduled && !t.deferStart
  {
  }

  lemma FiveSteps(ss: seq<Input>, max: nat, es: seq<Event>)
    requires |ss| == 6 && |es| == 5 && ss[0] == OPENED
    requires Goes(ss[0], max, es[0], ss[1]) && Goes(ss[1], max, es[1], ss[2]) && Goes(ss[2], max, es[2], ss[3])
    requires Goes(ss[3], max, es[3], ss[4]) && Goes(ss[4], max, es[4], ss[5])
    ensures IsRun(ss, max, es)
  {
    hide Enabled, Step;
  }

  lemma ThreePackets(a: seq<byte>, b: seq<byte>)
    ensures var p := PutPacket(PutPacket(PutPacket(OPENED.pipe, Data(Some(a))), Data(Some(b))), End);
            p == Pipe([Data(Some(a)), Data(Some(b)), End], true, false, false, false, false, Log([], a + b, []))
  {
    assert ([] + a) + b + [] == a + b;
  }

  lemma TwoCalls(a: seq<byte>, b: seq<byte>)
    ensures Given([Call(a, Wrote(|a|)), Call(b, Interrupted)]) == a
  {
    var c, d := Call(a, Wrote(|a|)), Call(b, Interrupted);
    GivenOne([], c);
    GivenOne([c], d);
    assert [c] + [d] == [c, d] && [] + [c] == [c];
    assert Given([]) == [] && [] + a == a && a + [] == a;
  }

  /**
    An interrupted write loses its whole packet: a run in which the program reads its end of input after the first of
    two packets.
   */
  lemma InterruptedWriteLosesAPacket(max: nat, a: seq<byte>, b: seq<byte>) returns (ss: seq<Input>, es: seq<Event>)
    requires b != []
    ensures IsRun(ss, max, es)
    ensures var t := ss[|ss| - 1].pipe; t.ended && Given(t.log.calls) == a && t.log.body == a + b
  {
    hide Drain, Put, IsRun, Given, Skipped, PutPacket;
    var rs := [Wrote(|a|), Interrupted];
    var s1 := Start(OPENED, false, true);
    var s2 := Put(s1, Data(Some(a)), false, false, max, []);
    PutQueues(s1, max, Data(Some(a)));
    var s3 := Put(s2, Data(Some(b)), false, false, max, []);
    PutQueues(s2, max, Data(Some(b)));
    var s4 := Put(s3, End, false, false, max, []);
    PutQueues(s3, max, End);
    var s5 := Service(s4, max, rs);
    ThreePackets(a, b);
    DrainInterrupted(a, b);
    TwoCalls(a, b);
    ss := [OPENED, s1, s2, s3, s4, s5];
    es := [Started(false, true), Received(Data(Some(a)), false, false, []), Received(Data(Some(b)), false, false, []),
           Received(End, false, false, []), Serviced(rs)];
    FiveSteps(ss, max, es);
  }

  /** The read queue is never left suspended with nobody about to drain the write queue. */
  lemma HeldBackIsDrained(ss: seq<Input>, max: nat, es: seq<Event>, k: nat)
    requires |ss| == |es| + 1 && IsRun(ss, max, es) && max > 0 && k < |ss| && ss[k].readSuspended && ss[k].running
    ensures |Pending(ss[k].pipe.queue)| >= max
    ensures Enabled(ss[k], BecameWritable) || forall rs :: Enabled(ss[k], Serviced(rs))
  {
    RunKeeps(ss, max, es, k);
  }

  // ---- What each event does ----

  /** The loop stops only when nothing is queued, the pipe is full, or a write has failed. */
  predicate Emptied(s: Pipe) {
    s.queue == [] || s.blocked || s.failed
  }

  lemma {:induction false} DrainEmpties(s: Pipe, rs: seq<WriteResult>)
    requires PipeOk(s) && !s.blocked
    ensures Emptied(Drain(s, rs))
    decreases |s.queue|
  {
    if s.queue != [] {
      TakeKeeps(s, rs);
      var p := TakePacket(s, rs);
      hide PipeOk;
      if p.more {
        DrainEmpties(p.s, p.rs);
      }
    }
  }

  /**
    Servicing the queue of a running program writes until nothing more can be written, awaits the writable event
    exactly if content is left, and resumes the read queue exactly if there is room again.
   */
  lemma ServiceExactly(s: Input, max: nat, rs: seq<WriteResult>)
    requires InputOk(s, max) && !s.pipe.blocked
    ensures var t := Service(s, max, rs);
            && !t.scheduled && t.running == s.running && t.deferStart == s.deferStart && t.complete == s.complete
            && (if s.running then
                  && Emptied(t.pipe) && (t.waiting <==> Pending(t.pipe.queue) != [])
                  && (t.readSuspended <==> s.readSuspended && |Pending(t.pipe.queue)| >= max)
                else t.pipe == s.pipe && t.readSuspended == s.readSuspended)
  {
    DrainEmpties(s.pipe, rs);
    hide Drain, PipeOk;
  }

  /**
    A packet from the client: it is queued behind the others; a short end kills the program with an error; the end
    starts a deferred program and services its queue; the read queue is held back exactly while a running program has
    the limit or more queued.
   */
  lemma ReceivedExactly(s: Input, max: nat, p: Packet, short: bool, created: bool, rs: seq<WriteResult>)
    requires InputOk(s, max) && !s.complete && max > 0
    ensures var t := Put(s, p, short, created, max, rs);
            var starts := s.deferStart && p.End? && !short && !s.pipe.error;
            && t.complete == p.End? && t.pipe.log.body == s.pipe.log.body + Content(p)
            && (p.End? && short ==> t.pipe.error && !t.running)
            && t.deferStart == (s.deferStart && !starts)
            && t.running == (if starts then created else s.running && !(p.End? && short))
            && (if starts && created then Emptied(t.pipe)
                else t.pipe.queue == s.pipe.queue + [p] && t.pipe.log.calls == s.pipe.log.calls)
            && (!(starts && created) ==> (t.readSuspended <==> s.readSuspended || (t.running && |Pending(t.pipe.queue)| >= max)))
            && (t.running ==> (t.readSuspended <==> |Pending(t.pipe.queue)| >= max))
            && (!(starts) ==> t.scheduled)
  {
    ReceiveKeeps(s, max, p, short);
    PutStepKeeps(s, max, p, short, created, rs);
    var t := Receive(s, p, short);
    if t.deferStart && p.End? && !t.pipe.error {
      var u := t.(deferStart := false, running := created);
      ServiceKeeps(u, max, rs);
      ServiceExactly(u, max, rs);
      if created {
        DrainKeeps(u.pipe, rs);
      }
    }
    hide PipeOk, Drain, Pending;
  }

  /** startCgi runs the program unless a body of unknown length has not come in; that puts it off. */
  lemma StartedExactly(s: Input, max: nat, unknownLength: bool, created: bool)
    requires InputOk(s, max) && !s.begun
    ensures var t := Start(s, unknownLength, created);
            && t.begun && t.pipe == s.pipe && t.readSuspended == s.readSuspended
            && (if unknownLength && !s.complete then t.deferStart && !t.running else t.running == created && t.deferStart == s.deferStart)
  {
  }

  /** The writable event lets the queue run again. */
  lemma WritableExactly(s: Input, max: nat, rs: seq<WriteResult>)
    requires InputOk(s, max) && Enabled(s, BecameWritable)
    ensures Enabled(Step(s, max, BecameWritable), Serviced(rs)) && Writable(s).pipe.queue == s.pipe.queue
  {
  }
}
