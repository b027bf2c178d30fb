/**
  One request's connection to its app (fastHandler.c): the record queue, the gather-write vector that is sent with
  partial writes, the held request body, and the suspension of the client's read queue while the app is behind.
  The ghost field `wire` is the value-level state of GatherWrite that the real fields represent.
 */
module FastConnector {
  import opened Bytes
  import opened FastRecords
  import opened FastParams
  import opened FastOutbound
  import opened PacketQueue
  import opened GatherWrite

  const FAST_Q_SIZE: nat := (8 + 65535 + 8) * 2

  /** Results of a socket vector write other than a byte count. */
  const EAGAIN: int := -1
  const BROKEN: int := -2

  /** The packet createFastPacket leaves: record header as prefix, padded content. */
  function FramedPacket(kind: byte, id: nat, content: seq<byte>, end: bool): Packet
    requires id < 0x10000 && |content| <= FAST_MAX_RECORD
  {
    Packet(Some(Header(kind, id, |content|, PadFor(|content|), 0)), content + Zeros(PadFor(|content|)), end)
  }

  lemma FramedPacketIsRecord(kind: byte, id: nat, content: seq<byte>, end: bool)
    requires id < 0x10000 && |content| <= FAST_MAX_RECORD
    ensures ValidRecord(Framed(kind, id, content))
    ensures var p := FramedPacket(kind, id, content, end);
            PacketBytes(p) == RecordBytes(Framed(kind, id, content)) && ValidQueue([p]) && PrefixBytes(p) != []
  {
    var p := FramedPacket(kind, id, content, end);
    assert [p][0] == p;
  }

  /** The app's end of the connection. What it has taken is what its writes say they took. */
  class AppSocket {
    ghost var received: seq<byte>
    ghost var writes: nat
    ghost var last: int

    constructor ()
      ensures received == [] && writes == 0
    {
      received, writes, last := [], 0, 0;
    }

    /** mprWriteSocketVector: takes any prefix of the vector, is full (EAGAIN or zero bytes), or fails. */
    method WriteVector(iovec: array<seq<byte>>, count: nat) returns (written: int)
      requires count <= iovec.Length
      modifies this
      ensures written == BROKEN || written == EAGAIN || 0 <= written <= |Flatten(iovec[..count])|
      ensures received == old(received) + if written > 0 then Flatten(iovec[..count])[..written] else []
      ensures writes == old(writes) + 1 && last == written
    {
      var bytes := Flatten(iovec[..count]);
      written :| written == BROKEN || written == EAGAIN || 0 <= written <= |bytes|;
      received := received + if written > 0 then bytes[..written] else [];
      writes, last := writes + 1, written;
    }
  }

  class FastRequest {
    const id: nat
    const keep: bool
    const socket: AppSocket
    var connWriteq: seq<Packet>
    var count: int
    const iovec: array<seq<byte>>
    var ioIndex: nat
    var ioCount: int
    var eof: bool
    var writeBlocked: bool
    var connReadq: seq<byte>
    var bytesRead: nat
    var heldBody: Option<seq<seq<byte>>>
    // Flow control
    var readqSuspended: bool
    var scheduled: bool
    var waitWritable: bool
    // The value-level state, and what has been asked of this request so far
    ghost var wire: Wire
    ghost var records: seq<Record>
    ghost var params: Option<seq<Pair>>
    ghost var body: seq<seq<byte>>
    ghost var inputDone: bool
    /** The client sent less body than it declared. */
    ghost var short: bool

    /** The slots in use are within the vector and none is empty. */
    ghost predicate Entries()
      reads `ioIndex, iovec
    {
      && iovec.Length == ME_MAX_IOVEC && ioIndex < ME_MAX_IOVEC
      && (forall i :: 0 <= i < ioIndex ==> iovec[i] != [])
    }

    ghost predicate Vector()
      reads `ioIndex, `ioCount, `wire, iovec
    {
      && Entries()
      && wire.vec == Flatten(iovec[..ioIndex])
      && ioCount == |wire.vec|
    }

    /** Everything that stands for `wire` but what the app has taken. */
    ghost predicate RepresentsQueue()
      reads `connWriteq, `count, `ioIndex, `ioCount, `wire, `records, iovec
    {
      && 0 < id < 0x10000 && Vector()
      && wire.queue == connWriteq && count == ContentCount(connWriteq)
      && Ok(wire) && EndHasBytes(wire)
      && AllValid(records) && wire.queued == StreamBytes(records)
    }

    /** The real fields and what the app has taken represent `wire`, a good state holding the bytes of `records`. */
    ghost predicate Represents()
      reads `connWriteq, `count, `ioIndex, `ioCount, `wire, `records, iovec, socket
    {
      RepresentsQueue() && socket.received == wire.sent
    }

    /** The records queued are exactly those of the request so far. */
    ghost predicate Protocol()
      reads `records, `heldBody, `params, `body, `inputDone, `short
    {
      && (params.Some? ==> heldBody.None? && records == RequestRecords(id, keep, params.value, body))
      && (params.None? && heldBody.Some? ==> records == [Begin(id, keep)] && heldBody.value == body)
      && (params.None? && heldBody.None? ==> records == [] && body == [] && !inputDone)
      && (params.None? && inputDone ==> short)
      && (short ==> inputDone && body != [] && body[|body| - 1] == [])
    }

    /** A suspended read queue always has someone who will resume it. */
    ghost predicate Flowing()
      reads `count, `eof, `scheduled, `waitWritable, `readqSuspended
    {
      readqSuspended && !eof ==> count >= FAST_Q_SIZE && (scheduled || waitWritable)
    }

    ghost predicate Valid()
      reads this, iovec, socket
    {
      Represents() && Protocol() && Flowing() && (wire.endQueued ==> inputDone && !short)
    }

    constructor (id: nat, keep: bool)
      requires 0 < id < 0x10000
      ensures Valid() && fresh(iovec) && fresh(socket) && this.id == id && this.keep == keep
      ensures socket.received == [] && params.None? && heldBody.None? && !eof && wire == START && !readqSuspended && !inputDone
    {
      this.id, this.keep := id, keep;
      socket := new AppSocket();
      connWriteq, count := [], 0;
      iovec := new seq<byte>[ME_MAX_IOVEC](_ => []);
      ioIndex, ioCount := 0, 0;
      eof, writeBlocked, connReadq, bytesRead := false, false, [], 0;
      heldBody := None;
      readqSuspended, scheduled, waitWritable := false, false, false;
      wire, records, params, body, inputDone, short := START, [], None, [], false, false;
      StartOk();
    }

    // ---- Queueing ----

    /** createFastPacket then httpPutForService. */
    method PutRecord(kind: byte, content: seq<byte>, end: bool)
      requires Represents() && !wire.endQueued && |content| <= FAST_MAX_RECORD
      modifies this`connWriteq, this`count, this`scheduled, this`wire, this`records
      ensures Represents() && scheduled
      ensures wire == Put(old(wire), FramedPacket(kind, id, content, end)) && count >= old(count)
      ensures records == old(records) + [Framed(kind, id, content)]
    {
      hide RecordBytes;
      hide PacketBytes;
      hide StreamBytes;
      hide QueueBytes;
      hide Ok;
      hide Header;
      var pad := if |content| % 8 == 0 then 0 else 8 - |content| % 8;
      var packet := Packet(Some(Header(kind, id, |content|, pad, 0)), content + Zeros(pad), end);
      FramedPacketIsRecord(kind, id, content, end);
      PutOk(wire, packet);
      QueueBytesOne(connWriteq, packet);
      StreamBytesOne(records, Framed(kind, id, content));
      connWriteq := connWriteq + [packet];
      count := count + |packet.content|;
      scheduled := true;
      wire := Put(wire, packet);
      records := records + [Framed(kind, id, content)];
    }

    /** putFastRecords: only the final record keeps the end-of-input flag. */
    method PutFastRecords(kind: byte, content: seq<byte>, end: bool)
      requires Represents() && !wire.endQueued
      modifies this`connWriteq, this`count, this`scheduled, this`wire, this`records
      ensures Represents() && scheduled && wire.endQueued == end
      ensures records == old(records) + Split(kind, id, content)
      ensures wire.vec == old(wire.vec) && wire.sent == old(wire.sent) && count >= old(count)
    {
      hide Ok;
      hide RecordBytes;
      hide StreamBytes;
      hide QueueBytes;
      hide FramedPacket;
      hide EndHasBytes;
      var tail := content;
      while |tail| > FAST_MAX_RECORD
        invariant Represents() && !wire.endQueued
        invariant wire.vec == old(wire.vec) && wire.sent == old(wire.sent) && count >= old(count)
        invariant records + Split(kind, id, tail) == old(records) + Split(kind, id, content)
        decreases |tail|
      {
        FramedPacketEnd(kind, id, tail[..FAST_MAX_RECORD], false);
        PutRecord(kind, tail[..FAST_MAX_RECORD], false);
        tail := tail[FAST_MAX_RECORD..];
      }
      FramedPacketEnd(kind, id, tail, end);
      PutRecord(kind, tail, end);
    }

    // ---- The gather write ----

    method BuildFastVec() returns (bytes: int)
      requires Represents() && ioIndex == 0 && !wire.endFreed
      modifies this`ioIndex, this`ioCount, this`wire, iovec
      ensures Represents() && wire == Build(old(wire)) && bytes == ioCount
      ensures wire.queued == old(wire.queued) && wire.endQueued == old(wire.endQueued)
      ensures wire.sent == old(wire.sent) && wire.endFreed == old(wire.endFreed)
      ensures ioIndex == 0 ==> QueueBytes(connWriteq) == []
    {
      hide Ok;
      hide EndHasBytes;
      hide StreamBytes;
      hide QueueBytes;
      hide Taken;
      BuildOk(wire);
      FillVector();
      wire := Build(wire);
      bytes := ioCount;
    }

    /** Take packets while fewer than 14 slots are used; each gives its prefix and its content when they have bytes. */
    method FillVector()
      requires iovec.Length == ME_MAX_IOVEC && ioIndex == 0 && ioCount == 0
      modifies this`ioIndex, this`ioCount, iovec
      ensures Entries()
      ensures Flatten(iovec[..ioIndex]) == QueueBytes(connWriteq[..Taken(connWriteq, 0)])
      ensures ioCount == |Flatten(iovec[..ioIndex])|
      ensures ioIndex == 0 ==> QueueBytes(connWriteq) == []
    {
      hide Entries, Flatten, PacketBytes, QueueBytes, Taken, Slots;
      NoEntries();
      NoBytes();
      var i := 0;
      assert connWriteq[0..] == connWriteq && connWriteq[..0] == [];
      while i < |connWriteq| && ioIndex < ME_MAX_IOVEC - 2
        invariant i <= |connWriteq| && Entries() && ioIndex <= iovec.Length
        invariant Flatten(iovec[..ioIndex]) == QueueBytes(connWriteq[..i])
        invariant ioCount == |QueueBytes(connWriteq[..i])|
        invariant i + Taken(connWriteq[i..], ioIndex) == Taken(connWriteq, 0)
        invariant ioIndex == 0 ==> QueueBytes(connWriteq[..i]) == []
      {
        TakeNext(connWriteq, i, ioIndex);
        AddFastPacket(connWriteq[i]);
        i := i + 1;
      }
      TakeNone(connWriteq, i, ioIndex);
      assert connWriteq[..|connWriteq|] == connWriteq;
    }

    lemma NoEntries()
      requires iovec.Length == ME_MAX_IOVEC && ioIndex == 0
      ensures Entries() && iovec[..0] == [] && Flatten([]) == []
    {
    }

    method AddFastPacket(packet: Packet)
      requires Entries() && ioIndex <= iovec.Length && ioIndex < ME_MAX_IOVEC - 2
      modifies this`ioIndex, this`ioCount, iovec
      ensures ioIndex == old(ioIndex) + Slots(packet) <= iovec.Length && Entries()
      ensures Flatten(iovec[..ioIndex]) == old(Flatten(iovec[..ioIndex])) + PacketBytes(packet)
      ensures ioCount == old(ioCount) + |PacketBytes(packet)|
      ensures ioIndex == old(ioIndex) ==> PacketBytes(packet) == []
    {
      hide Entries, Flatten;
      ghost var before := Flatten(iovec[..ioIndex]);
      if packet.prefix.Some? && |packet.prefix.value| > 0 {
        AddToFastVector(packet.prefix.value);
      }
      if |packet.content| > 0 {
        AddToFastVector(packet.content);
      }
      assert (before + PrefixBytes(packet)) + packet.content == before + PacketBytes(packet);
      assert before + [] == before;
    }

    method AddToFastVector(bytes: seq<byte>)
      requires Entries() && ioIndex <= iovec.Length && ioIndex < ME_MAX_IOVEC - 1 && bytes != []
      modifies this`ioIndex, this`ioCount, iovec
      ensures ioIndex == old(ioIndex) + 1 <= iovec.Length && Entries()
      ensures Flatten(iovec[..ioIndex]) == old(Flatten(iovec[..ioIndex])) + bytes
      ensures ioCount == old(ioCount) + |bytes|
    {
      iovec[ioIndex] := bytes;
      ioCount := ioCount + |bytes|;
      ioIndex := ioIndex + 1;
      FlattenOne(old(iovec[..ioIndex]), bytes);
      assert iovec[..ioIndex] == old(iovec[..ioIndex]) + [bytes];
    }

    /** Consume sent bytes from the front of the queue; an END packet is popped whenever it is reached. */
    method FreeFastPackets(bytes: nat)
      requires ValidQueue(connWriteq) && count == ContentCount(connWriteq)
      modifies this`connWriteq, this`count
      ensures connWriteq == Freed(old(connWriteq), bytes) && count == ContentCount(connWriteq)
    {
      hide Freed, ContentCount, ValidQueue, TrimPacket, PacketBytes;
      var left := bytes;
      while connWriteq != []
        invariant ValidQueue(connWriteq) && count == ContentCount(connWriteq)
        invariant Freed(connWriteq, left) == Freed(old(connWriteq), bytes)
        decreases |connWriteq|
      {
        FreedFirst(connWriteq, left);
        ghost var q := connWriteq;
        var packet := connWriteq[0];
        ValidTail(q);
        if !packet.end && left > 0 {
          var len;
          packet, left, len := TrimSent(packet, left);
          count := count - len;
          connWriteq := [packet] + connWriteq[1..];
          assert connWriteq[1..] == q[1..];
          ValidCons(packet, q[1..]);
          CountFirst(connWriteq);
        }
        if packet.end || (|packet.content| == 0 && packet.prefix.None?) {
          count := count - |packet.content|;
          connWriteq := connWriteq[1..];
        } else {
          assert left == 0 && connWriteq[0] == packet && [packet] + connWriteq[1..] == connWriteq;
          FreedFirst(connWriteq, 0);
          break;
        }
      }
      FreedNone(left);
    }

    /** Move the starts of a packet's prefix and content past sent bytes; a prefix that is all sent is dropped. */
    method TrimSent(packet: Packet, bytes: nat) returns (trimmed: Packet, left: nat, len: nat)
      requires bytes > 0 && ValidQueue([packet])
      ensures trimmed == TrimPacket(packet, bytes) && left == bytes - Min(|PacketBytes(packet)|, bytes)
      ensures len == |packet.content| - |trimmed.content| && ValidQueue([trimmed])
      ensures !Drained(trimmed) ==> left == 0
    {
      assert [packet][0] == packet;
      trimmed, left := packet, bytes;
      if packet.prefix.Some? {
        var sent := Min(|packet.prefix.value|, left);
        var rest := packet.prefix.value[sent..];
        left := left - sent;
        trimmed := trimmed.(prefix := if |rest| == 0 then None else Some(rest));
      }
      len := Min(|packet.content|, left);
      trimmed := trimmed.(content := packet.content[len..]);
      left := left - len;
    }

    /** Drop sent bytes from the vector: whole entries, then the start of one; the rest is copied down. */
    method AdjustFastVec(written: nat)
      requires Entries() && ioIndex <= iovec.Length
      requires ioCount == |Flatten(iovec[..ioIndex])| && written <= ioCount
      modifies this`ioIndex, this`ioCount, iovec
      ensures ioIndex <= old(ioIndex) && Entries() && ioIndex <= iovec.Length
      ensures Flatten(iovec[..ioIndex]) == old(Flatten(iovec[..ioIndex]))[written..]
      ensures ioCount == old(ioCount) - written
    {
      if written == ioCount {
        ioIndex := 0;
        ioCount := 0;
        return;
      }
      ioCount := ioCount - written;
      ghost var entries := iovec[..ioIndex];
      TrimmedBytes(entries, written);
      hide Flatten;
      var left := written;
      var i := 0;
      assert entries[0..] == entries;
      while i < ioIndex
        invariant i <= ioIndex == |entries| && 0 <= left
        invariant ioIndex == old(ioIndex) && ioCount == old(ioCount) - written && iovec[..ioIndex] == entries
        invariant Trimmed(entries[i..], left) == Trimmed(entries, written)
      {
        var len := |iovec[i]|;
        assert iovec[i] == iovec[..ioIndex][i] == entries[i..][0];
        if left < len {
          iovec[i] := iovec[i][left..];
          break;
        }
        assert entries[i..][1..] == entries[i + 1..];
        left := left - len;
        i := i + 1;
      }
      ghost var rest := Trimmed(entries, written);
      assert iovec[i..ioIndex] == rest;
      CompactFastVec(i);
      assert iovec[..ioIndex] == rest;
      assert forall j :: 0 <= j < ioIndex ==> iovec[j] == rest[j];
    }

    /** Copy the entries from index `from` down to the start of the vector. */
    method CompactFastVec(from: nat)
      requires from <= ioIndex <= iovec.Length
      modifies this`ioIndex, iovec
      ensures ioIndex == old(ioIndex) - from && iovec[..ioIndex] == old(iovec[from..ioIndex])
    {
      var i, j := from, 0;
      while i < ioIndex
        invariant ioIndex == old(ioIndex) && i == from + j && i <= ioIndex
        invariant forall x :: 0 <= x < j ==> iovec[x] == old(iovec[from + x])
        invariant forall x :: i <= x < ioIndex ==> iovec[x] == old(iovec[x])
      {
        iovec[j] := iovec[i];
        j := j + 1;
        i := i + 1;
      }
      ioIndex := j;
    }

    /** After a write: queue and vector are trimmed by the count that the app has taken. */
    method Transmitted(written: nat)
      requires RepresentsQueue() && 0 < written <= ioCount
      requires socket.received == wire.sent + wire.vec[..written]
      modifies this`connWriteq, this`count, this`ioIndex, this`ioCount, this`wire, iovec
      ensures Represents()
      ensures wire.queued == old(wire.queued) && wire.endQueued == old(wire.endQueued)
      ensures wire.sent == old(wire.sent) + old(wire.vec)[..written]
      ensures old(EndSafe(wire)) ==> EndSafe(wire)
    {
      hide RepresentsQueue, Represents, EndSafe, Write, Entries;
      TrimBoth(written);
      NothingTaken();
    }

    /** freeFastPackets and adjustFastVec trim queue and vector by the same count. */
    method TrimBoth(written: nat)
      requires RepresentsQueue() && 0 < written <= ioCount
      modifies this`connWriteq, this`count, this`ioIndex, this`ioCount, this`wire, iovec
      ensures RepresentsQueue() && wire == Write(old(wire), written)
      ensures wire.queued == old(wire.queued) && wire.endQueued == old(wire.endQueued)
      ensures wire.sent == old(wire.sent) + old(wire.vec)[..written]
      ensures old(EndSafe(wire)) ==> EndSafe(wire)
    {
      hide Ok;
      hide QueueBytes;
      hide EndHasBytes;
      hide EndSafe;
      hide StreamBytes;
      NoLossBeforeEnd(wire);
      WriteFacts(wire, written);
      FreeFastPackets(written);
      AdjustFastVec(written);
      wire := Write(wire, written);
    }

    /** freeFastPackets(q, 0) when the packets left have no bytes. */
    method DiscardRest()
      requires Represents() && ioIndex == 0 && !wire.endFreed && QueueBytes(connWriteq) == []
      modifies this`connWriteq, this`count, this`wire
      ensures Represents() && wire == Discard(old(wire)) && connWriteq == []
      ensures wire.queued == old(wire.queued) && wire.endQueued == old(wire.endQueued) && wire.sent == old(wire.sent)
    {
      hide Ok;
      hide QueueBytes;
      hide EndHasBytes;
      hide StreamBytes;
      NoLossBeforeEnd(wire);
      assert wire.vec == [];
      DiscardFacts(wire);
      FreeFastPackets(0);
      wire := Discard(wire);
    }

    /** Before END is queued nothing is lost. */
    lemma QueuedFacts()
      requires Represents() && !wire.endQueued
      ensures wire.lost == [] && wire.queued == wire.sent + Pending(wire)
    {
      hide StreamBytes;
      NoLossBeforeEnd(wire);
    }

    lemma VectorFacts()
      requires Represents()
      ensures ioCount == |wire.vec| && (ioIndex == 0 <==> ioCount == 0) && count == ContentCount(connWriteq)
      ensures |wire.sent| + |wire.vec| <= |wire.queued|
      ensures connWriteq != [] ==> !wire.endFreed
      ensures ioIndex == 0 && !wire.endFreed ==> !EndSafe(wire)
      ensures !wire.endQueued || EndSafe(wire) ==> wire.lost == []
    {
      EmptyVector(iovec[..ioIndex]);
      NoLossBeforeEnd(wire);
      if ioIndex == 0 && !wire.endFreed {
        EmptyVectorIsNotSafe(wire);
      }
    }

    /**
      Wait for the socket to become writable while content is counted. Bytes are pending without it exactly when the
      rest of a popped END is in the vector, or only prefixes are queued.
     */
    method EnableFastConnector()
      requires Represents()
      modifies this`waitWritable
      ensures eof ==> waitWritable == old(waitWritable)
      ensures !eof ==> waitWritable == (count > 0)
      ensures !eof ==> (Pending(wire) != [] && !waitWritable <==> Unarmed(wire))
    {
      PendingIsUnarmed(wire);
      if !eof {
        waitWritable := count > 0;
      }
    }

    /** Nothing is left to send, or the last of the writes made since found the socket full or broken. */
    twostate predicate SentOrRefused()
      reads `connWriteq, `ioIndex, socket
    {
      (connWriteq == [] && ioIndex == 0) || (socket.writes > old(socket.writes) && socket.last <= 0)
    }

    /** Send until the socket is full, fails, or nothing is left; then resume the client's read queue if there is room. */
    method FastConnectorOutgoingService()
      requires Valid()
      modifies this`connWriteq, this`count, this`ioIndex, this`ioCount, this`wire, this`eof, this`writeBlocked
      modifies this`scheduled, this`waitWritable, this`readqSuspended, iovec, socket
      ensures Valid() && records == old(records) && wire.queued == old(wire.queued)
      ensures old(socket.received) <= socket.received
      ensures old(eof) ==> eof && socket.received == old(socket.received)
      ensures old(!eof) ==> SentOrRefused() && (eof <==> socket.writes > old(socket.writes) && socket.last == BROKEN)
      ensures old(!eof) ==> readqSuspended == (old(readqSuspended) && count >= FAST_Q_SIZE)
      ensures !wire.endQueued || EndSafe(wire) ==> wire.lost == []
      ensures old(EndSafe(wire)) ==> EndSafe(wire)
      ensures !eof ==> (readqSuspended ==> waitWritable)
      ensures !eof ==> (Pending(wire) != [] && !waitWritable <==> Unarmed(wire))
    {
      hide Represents, RepresentsQueue, EndSafe, Protocol, Unarmed, Pending, Entries;
      RepresentsFacts();
      VectorFacts();
      scheduled := false;
      if eof {
        return;
      }
      SendAndResume();
    }

    /** The same on an open connection. */
    method SendAndResume()
      requires Represents() && !eof
      modifies this`connWriteq, this`count, this`ioIndex, this`ioCount, this`wire, this`eof, this`writeBlocked
      modifies this`waitWritable, this`readqSuspended, iovec, socket
      ensures Represents() && wire.queued == old(wire.queued) && wire.endQueued == old(wire.endQueued)
      ensures old(socket.received) <= socket.received
      ensures SentOrRefused() && (eof <==> socket.writes > old(socket.writes) && socket.last == BROKEN)
      ensures readqSuspended == (old(readqSuspended) && count >= FAST_Q_SIZE)
      ensures !wire.endQueued || EndSafe(wire) ==> wire.lost == []
      ensures old(EndSafe(wire)) ==> EndSafe(wire)
      ensures !eof ==> waitWritable == (count > 0) && (Pending(wire) != [] && !waitWritable <==> Unarmed(wire))
    {
      hide Represents, RepresentsQueue, EndSafe, Unarmed, Pending, Entries;
      RepresentsFacts();
      writeBlocked := false;
      SendQueue();
      RepresentsFacts();
      VectorFacts();
      ResumeReadQueue();
      EnableFastConnector();
    }

    /** Resume reading the body when the app has taken enough of what was queued. */
    method ResumeReadQueue()
      modifies this`readqSuspended
      ensures readqSuspended == (old(readqSuspended) && count >= FAST_Q_SIZE)
    {
      if count < FAST_Q_SIZE && readqSuspended {
        readqSuspended := false;
      }
    }

    lemma RepresentsFacts()
      requires Represents()
      ensures socket.received == wire.sent && RepresentsQueue()
    {
    }

    /** The write loop of fastConnectorOutgoingService. */
    method SendQueue()
      requires Represents() && !eof && !writeBlocked
      modifies this`connWriteq, this`count, this`ioIndex, this`ioCount, this`wire, this`eof, this`writeBlocked, iovec, socket
      ensures Represents() && wire.queued == old(wire.queued) && wire.endQueued == old(wire.endQueued)
      ensures old(wire.sent) <= wire.sent && SentOrRefused()
      ensures eof <==> socket.writes > old(socket.writes) && socket.last == BROKEN
      ensures writeBlocked <==> socket.writes > old(socket.writes) && socket.last == EAGAIN
      ensures old(EndSafe(wire)) ==> EndSafe(wire)
    {
      hide Represents, RepresentsQueue, EndSafe;
      VectorFacts();
      var going := true;
      while going && (connWriteq != [] || ioIndex > 0)
        invariant Represents() && wire.queued == old(wire.queued) && wire.endQueued == old(wire.endQueued)
        invariant old(wire.sent) <= wire.sent && |wire.sent| <= |wire.queued| && socket.writes >= old(socket.writes)
        invariant old(EndSafe(wire)) ==> EndSafe(wire)
        invariant going ==> !eof && !writeBlocked && (socket.writes > old(socket.writes) ==> socket.last > 0)
        invariant !going ==> SentOrRefused() && (eof <==> socket.writes > old(socket.writes) && socket.last == BROKEN)
        invariant !going ==> (writeBlocked <==> socket.writes > old(socket.writes) && socket.last == EAGAIN)
        decreases going, |wire.queued| - |wire.sent|
      {
        going := SendOnce();
        VectorFacts();
      }
    }

    /** One pass of the loop: build a vector if there is none, and offer it to the socket. */
    method SendOnce() returns (going: bool)
      requires Represents() && !eof && !writeBlocked && (connWriteq != [] || ioIndex > 0)
      modifies this`connWriteq, this`count, this`ioIndex, this`ioCount, this`wire, this`eof, this`writeBlocked, iovec, socket
      ensures Represents() && wire.queued == old(wire.queued) && wire.endQueued == old(wire.endQueued)
      ensures old(wire.sent) <= wire.sent && (old(EndSafe(wire)) ==> EndSafe(wire))
      ensures going ==> !eof && !writeBlocked && |wire.sent| > |old(wire.sent)| && socket.writes > old(socket.writes) && socket.last > 0
      ensures !going && socket.writes == old(socket.writes) ==>
                socket.last == old(socket.last) && connWriteq == [] && ioIndex == 0 && !eof && !writeBlocked
      ensures !going && socket.writes != old(socket.writes) ==>
                socket.writes > old(socket.writes) && socket.last <= 0 && eof == (socket.last == BROKEN) && writeBlocked == (socket.last == EAGAIN)
    {
      hide Represents, RepresentsQueue, EndSafe, Build, Write, Discard, QueueBytes;
      VectorFacts();
      if ioIndex == 0 {
        var bytes := BuildFastVec();
        VectorFacts();
        if bytes <= 0 {
          DiscardRest();
          return false;
        }
      }
      going := WriteOnce();
    }

    /** Offer the vector to the socket, and trim queue and vector by what it took. */
    method WriteOnce() returns (going: bool)
      requires Represents() && !eof && !writeBlocked && ioIndex > 0
      modifies this`connWriteq, this`count, this`ioIndex, this`ioCount, this`wire, this`eof, this`writeBlocked, iovec, socket
      ensures Represents() && wire.queued == old(wire.queued) && wire.endQueued == old(wire.endQueued)
      ensures socket.writes == old(socket.writes) + 1 && going == (socket.last > 0)
      ensures going ==> 0 < socket.last <= |old(wire.vec)| && wire.sent == old(wire.sent) + old(wire.vec)[..socket.last]
      ensures !going ==> wire.sent == old(wire.sent)
      ensures eof == (socket.last == BROKEN) && writeBlocked == (socket.last == EAGAIN)
      ensures old(EndSafe(wire)) ==> EndSafe(wire)
    {
      hide Represents, RepresentsQueue, EndSafe, Build, Write, Discard, QueueBytes;
      VectorFacts();
      RepresentsFacts();
      SlotFacts();
      var written := socket.WriteVector(iovec, ioIndex);
      if written < 0 {
        NothingTaken();
        if written == EAGAIN {
          writeBlocked := true;
          return false;
        }
        eof := true;
        return false;
      } else if written > 0 {
        Transmitted(written);
        return true;
      }
      NothingTaken();
      return false;
    }

    /** The vector that is offered to the socket. */
    lemma SlotFacts()
      requires RepresentsQueue()
      ensures ioIndex <= iovec.Length && wire.vec == Flatten(iovec[..ioIndex])
    {
    }

    lemma NothingTaken()
      requires RepresentsQueue() && socket.received == wire.sent
      ensures Represents()
    {
    }

    // ---- The request ----

    /** fastOpenRequest once connected: a body of unknown length is held so that PARAMS can follow it. */
    method OpenRequest(ps: seq<Pair>, hold: bool)
      requires Valid() && params.None? && heldBody.None? && !wire.endQueued
      modifies this`connWriteq, this`count, this`scheduled, this`wire, this`records
      modifies this`heldBody, this`params
      ensures Valid() && !wire.endQueued && !inputDone && scheduled
      ensures if hold then heldBody == Some([]) && params == None else params == Some(ps) && body == []
    {
      hide Represents;
      hide Split;
      hide StdinRecords;
      PutRecord(FAST_BEGIN_REQUEST, [0, FAST_RESPONDER, if keep then FAST_KEEP_CONN else 0, 0, 0, 0, 0, 0], false);
      if hold {
        heldBody := Some([]);
      } else {
        PrepFastRequestParams(ps);
      }
    }

    /**
      The part of retryFastRequest that sends a request again on a new connection: PARAMS and an empty body, its
      empty STDIN record framed from no packet.
     */
    method ResendRequest(ps: seq<Pair>)
      requires Valid() && params.None? && heldBody.None? && !wire.endQueued
      modifies this`connWriteq, this`count, this`scheduled, this`wire, this`records
      modifies this`heldBody, this`params, this`body, this`inputDone
      ensures Valid() && !wire.endQueued && inputDone && scheduled
      ensures params == Some(ps) && body == [[]] && records == RequestRecords(id, keep, ps, [[]])
    {
      hide Represents;
      hide RequestRecords;
      hide Split;
      OpenRequest(ps, false);
      RequestOne(id, keep, ps, [], []);
      PutFastRecords(FAST_STDIN, [], false);
      body := body + [[]];
      inputDone := true;
    }

    /** ps: the pairs that CopyRequestVars encodes. */
    method PrepFastRequestParams(ps: seq<Pair>)
      requires Represents() && !wire.endQueued && records == [Begin(id, keep)]
      modifies this`connWriteq, this`count, this`scheduled, this`wire, this`records, this`heldBody, this`params
      ensures Represents() && !wire.endQueued && scheduled && count >= old(count)
      ensures heldBody.None? && params == Some(ps) && records == RequestRecords(id, keep, ps, [])
    {
      hide Represents;
      hide Split;
      var content := EncodePairs(ps);
      PutFastRecords(FAST_PARAMS, content, false);
      PutFastRecords(FAST_PARAMS, [], false);
      heldBody := None;
      params := Some(ps);
    }

    /**
      fastIncomingRequestPacket: send or hold a body packet; the end packet sends PARAMS first if they were held. A
      short body is an error whose abort packet carries no end flag: it is held like body, or framed again as STDIN.
     */
    method FastIncomingRequestPacket(content: seq<byte>, end: bool, remaining: nat, ps: seq<Pair>)
      requires Valid() && !inputDone && !wire.endQueued && (params.Some? || heldBody.Some?)
      modifies this`connWriteq, this`count, this`scheduled, this`wire, this`records, this`heldBody, this`params
      modifies this`body, this`inputDone, this`short, this`readqSuspended
      ensures Valid() && inputDone == end && short == (end && remaining > 0)
      ensures body == old(body) + [if short then [] else content]
      ensures wire.endQueued == (end && !short)
      ensures old(params.Some?) ==> params == old(params)
      ensures old(params.None?) ==>
                if end && !short then params == Some(ps)
                else params == None && heldBody == Some(body) && records == old(records) == [Begin(id, keep)]
      ensures readqSuspended == (old(readqSuspended) || (params.Some? && count >= FAST_Q_SIZE))
      ensures params.Some? ==> scheduled
    {
      hide Represents;
      hide RequestRecords;
      hide Split;
      var data, last := content, end;
      if end && remaining > 0 {
        data, last := [], false;
      }
      short := end && remaining > 0;
      inputDone := end;
      if heldBody.Some? {
        if !last {
          body := body + [data];
          heldBody := Some(heldBody.value + [data]);
          return;
        }
        SendHeld(ps);
      }
      SendBody(data, last);
      if count >= FAST_Q_SIZE {
        readqSuspended := true;
      }
    }

    /** PARAMS for a held body, and then the body. */
    method SendHeld(ps: seq<Pair>)
      requires Represents() && !wire.endQueued && records == [Begin(id, keep)] && heldBody == Some(body)
      modifies this`connWriteq, this`count, this`scheduled, this`wire, this`records, this`heldBody, this`params
      ensures Represents() && !wire.endQueued && count >= old(count) && scheduled
      ensures heldBody == None && params == Some(ps) && records == RequestRecords(id, keep, ps, body)
    {
      hide Represents;
      hide RequestRecords;
      var held := heldBody.value;
      PrepFastRequestParams(ps);
      PutHeld(held, ps);
    }

    /** One packet of the body as STDIN records. */
    method SendBody(data: seq<byte>, last: bool)
      requires Represents() && !wire.endQueued && params.Some? && records == RequestRecords(id, keep, params.value, body)
      modifies this`connWriteq, this`count, this`scheduled, this`wire, this`records, this`body
      ensures Represents() && wire.endQueued == last && count >= old(count) && scheduled
      ensures body == old(body) + [data] && records == RequestRecords(id, keep, params.value, body)
    {
      hide Represents;
      hide RequestRecords;
      hide Split;
      RequestOne(id, keep, params.value, body, data);
      PutFastRecords(FAST_STDIN, data, last);
      body := body + [data];
    }

    /** Send the held body packets behind the PARAMS records. */
    method PutHeld(held: seq<seq<byte>>, ghost ps: seq<Pair>)
      requires Represents() && !wire.endQueued && records == RequestRecords(id, keep, ps, [])
      modifies this`connWriteq, this`count, this`scheduled, this`wire, this`records
      ensures Represents() && !wire.endQueued && count >= old(count) && (old(scheduled) ==> scheduled)
      ensures records == RequestRecords(id, keep, ps, held)
    {
      hide Represents;
      hide RequestRecords;
      hide Split;
      for i := 0 to |held|
        invariant Represents() && !wire.endQueued && count >= old(count) && (old(scheduled) ==> scheduled)
        invariant records == RequestRecords(id, keep, ps, held[..i])
      {
        RequestOne(id, keep, ps, held[..i], held[i]);
        PutFastRecords(FAST_STDIN, held[i], false);
        assert held[..i + 1] == held[..i] + [held[i]];
      }
      assert held[..|held|] == held;
    }

    /**
      fastConnectorIO: a writable event services the write queue; a readable event joins what was read to the read
      queue and may find that the app has closed. A connection found closed before is left alone.
     */
    method FastConnectorIO(writable: bool, readable: Option<seq<byte>>, closed: bool)
      requires Valid()
      modifies this`connWriteq, this`count, this`ioIndex, this`ioCount, this`wire, this`eof, this`writeBlocked
      modifies this`scheduled, this`waitWritable, this`readqSuspended, this`connReadq, this`bytesRead, iovec, socket
      ensures Valid() && records == old(records) && old(socket.received) <= socket.received
      ensures writable && old(!eof) ==> SentOrRefused()
      ensures !writable || old(eof) ==> socket.received == old(socket.received) && readqSuspended == old(readqSuspended)
      ensures connReadq == old(connReadq) + if readable.Some? && !old(eof) then readable.value else []
      ensures bytesRead - old(bytesRead) == |connReadq| - |old(connReadq)|
      ensures old(eof) || (readable.Some? && closed) ==> eof
      ensures eof ==> old(eof) || (readable.Some? && closed) || (writable && socket.last == BROKEN)
      ensures !eof && readqSuspended ==> old(readqSuspended) && waitWritable
      ensures !eof ==> (Pending(wire) != [] && !waitWritable <==> Unarmed(wire))
    {
      hide Represents, RepresentsQueue, Protocol, Unarmed, EndSafe, Pending;
      RepresentsFacts();
      if eof {
        return;
      }
      if writable {
        FastConnectorOutgoingService();
        RepresentsFacts();
      }
      if readable.Some? {
        TakeRead(readable.value, closed);
      }
      if !eof {
        EnableFastConnector();
      }
    }

    /** What a readable event brings joins the read queue. */
    method TakeRead(bytes: seq<byte>, closed: bool)
      modifies this`eof, this`bytesRead, this`connReadq
      ensures eof == (old(eof) || closed) && connReadq == old(connReadq) + bytes && bytesRead == old(bytesRead) + |bytes|
    {
      eof := eof || closed;
      if |bytes| > 0 {
        bytesRead := bytesRead + |bytes|;
        connReadq := connReadq + bytes;
      }
    }

    /**
      End to end: once a well-formed request has been queued and everything but an unsafe END has gone out, the
      application has read back its pairs and body; at any earlier time it has a prefix of those bytes.
     */
    lemma Delivered()
      requires Valid() && params.Some? && params.value != [] && WellFormedBody(body)
      requires forall i :: 0 <= i < |params.value| ==> ValidPair(params.value[i])
      requires !wire.endQueued || EndSafe(wire)
      ensures socket.received <= StreamBytes(records)
      ensures Pending(wire) == [] ==> ReadRequest(ReadAll(socket.received)) == Some(AppInput(keep, params.value, Flatten(body)))
    {
      hide RequestRecords, StreamBytes, ReadAll, ReadRequest;
      NoLossBeforeEnd(wire);
      RequestBytesRoundTrip(id, keep, params.value, body);
      assert wire.queued == wire.sent + Pending(wire);
      if Pending(wire) == [] {
        assert wire.sent == wire.queued;
      }
    }

    /**
      A short body. In immediate mode everything queued goes out, no record tells of the abort, and the app reads a
      complete request exactly when there are pairs and no packet before the end was empty. In held mode the app
      never gets more than BEGIN.
     */
    lemma ShortRequest()
      requires Valid() && short && (params.Some? ==> forall i :: 0 <= i < |params.value| ==> ValidPair(params.value[i]))
      ensures wire.lost == [] && socket.received + Pending(wire) == StreamBytes(records)
      ensures forall r <- records :: r.kind != FAST_ABORT_REQUEST
      ensures params.None? ==> records == [Begin(id, keep)] && ReadRequest(ReadAll(StreamBytes(records))) == None
      ensures params.Some? ==>
                (ReadRequest(ReadAll(StreamBytes(records))) == Some(AppInput(keep, params.value, Flatten(body)))
                 <==> params.value != [] && NonEmpty(body[..|body| - 1]))
    {
      hide RequestRecords, StreamBytes, ReadAll, ReadRequest, AllValid, Vector, Ok, Flowing, NonEmpty, EndHasBytes;
      QueuedFacts();
      if params.Some? {
        ShortReadBack(id, keep, params.value, body);
      } else {
        ReadAllOfStream(records);
        BeginAloneIsNoRequest(id, keep);
      }
    }
  }

  lemma ShortReadBack(id: nat, keep: bool, params: seq<Pair>, body: seq<seq<byte>>)
    requires id < 0x10000 && forall i :: 0 <= i < |params| ==> ValidPair(params[i])
    requires body != [] && body[|body| - 1] == []
    ensures var records := RequestRecords(id, keep, params, body);
            && AllValid(records) && (forall r <- records :: r.kind != FAST_ABORT_REQUEST)
            && (ReadRequest(ReadAll(StreamBytes(records))) == Some(AppInput(keep, params, Flatten(body)))
                <==> params != [] && NonEmpty(body[..|body| - 1]))
  {
    hide RequestRecords, StreamBytes, ReadAll, ReadRequest, AllValid;
    assert body == body[..|body| - 1] + [[]];
    ShortBody(body[..|body| - 1]);
    ShortRequestReadsComplete(id, keep, params, body[..|body| - 1]);
    NeverAborted(id, keep, params, body);
  }

  lemma FramedPacketEnd(kind: byte, id: nat, content: seq<byte>, end: bool)
    requires id < 0x10000 && |content| <= FAST_MAX_RECORD
    ensures FramedPacket(kind, id, content, end).end == end
  {
  }
}
