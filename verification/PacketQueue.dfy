/**
  Packets of the connector write queue and what freeFastPackets leaves of it after a write of n bytes.
  A packet sends its record header (prefix) and then its content.
 */
module PacketQueue {
  import opened Bytes

  datatype Packet = Packet(prefix: Option<seq<byte>>, content: seq<byte>, end: bool)

  const ME_MAX_IOVEC: nat := 16

  function PrefixBytes(p: Packet): seq<byte> {
    if p.prefix.Some? then p.prefix.value else []
  }

  function PacketBytes(p: Packet): seq<byte> {
    PrefixBytes(p) + p.content
  }

  function QueueBytes(q: seq<Packet>): seq<byte> {
    if q == [] then [] else PacketBytes(q[0]) + QueueBytes(q[1..])
  }

  /** q->count: content bytes only, prefixes are not counted. */
  function ContentCount(q: seq<Packet>): nat {
    if q == [] then 0 else |q[0].content| + ContentCount(q[1..])
  }

  /** A prefix is dropped as soon as it has been sent, so a prefix that is present has bytes. */
  ghost predicate ValidQueue(q: seq<Packet>) {
    forall i :: 0 <= i < |q| && q[i].prefix.Some? ==> q[i].prefix.value != []
  }

  ghost predicate NoEnd(q: seq<Packet>) {
    forall i :: 0 <= i < |q| ==> !q[i].end
  }

  lemma {:induction false} QueueBytesAppend(a: seq<Packet>, b: seq<Packet>)
    ensures QueueBytes(a + b) == QueueBytes(a) + QueueBytes(b)
    ensures ContentCount(a + b) == ContentCount(a) + ContentCount(b)
  {
    if a == [] {
      assert a + b == b;
    } else {
      assert (a + b)[1..] == a[1..] + b;
      QueueBytesAppend(a[1..], b);
    }
  }

  lemma {:induction false} QueueBytesOne(a: seq<Packet>, p: Packet)
    ensures QueueBytes(a + [p]) == QueueBytes(a) + PacketBytes(p)
    ensures ContentCount(a + [p]) == ContentCount(a) + |p.content|
  {
    QueueBytesAppend(a, [p]);
    assert QueueBytes([p]) == PacketBytes(p) + QueueBytes([]);
    assert ContentCount([p]) == |p.content| + ContentCount([]);
  }

  lemma {:induction false} QueueBytesSplit(q: seq<Packet>, k: nat)
    requires k <= |q|
    ensures QueueBytes(q) == QueueBytes(q[..k]) + QueueBytes(q[k..])
  {
    hide QueueBytes;
    assert q == q[..k] + q[k..];
    QueueBytesAppend(q[..k], q[k..]);
  }

  // ---- One packet of freeFastPackets ----

  function Min(a: nat, b: nat): nat {
    if a <= b then a else b
  }

  /** Drop n sent bytes from a packet: first from the prefix, then from the content. */
  function TrimPacket(p: Packet, n: nat): Packet {
    if n == 0 then p
    else
      var k := Min(|PrefixBytes(p)|, n);
      var c := Min(|p.content|, n - k);
      Packet(if p.prefix.Some? && k < |PrefixBytes(p)| then Some(PrefixBytes(p)[k..]) else None, p.content[c..], p.end)
  }

  predicate Drained(p: Packet) {
    p.content == [] && p.prefix.None?
  }

  lemma {:induction false} TrimPacketBytes(p: Packet, n: nat)
    requires n <= |PacketBytes(p)| && ValidQueue([p])
    ensures PacketBytes(TrimPacket(p, n)) == PacketBytes(p)[n..]
    ensures Drained(TrimPacket(p, n)) <==> n == |PacketBytes(p)|
    ensures ValidQueue([TrimPacket(p, n)])
  {
    assert [p][0] == p;
    var t := TrimPacket(p, n);
    assert [t][0] == t;
  }

  /** The queue after freeFastPackets(q, n). An END packet is removed whatever n says. */
  function Freed(q: seq<Packet>, n: nat): seq<Packet> {
    if q == [] then []
    else if q[0].end then Freed(q[1..], n)
    else
      var t := TrimPacket(q[0], n);
      if Drained(t) then Freed(q[1..], n - Min(|PacketBytes(q[0])|, n)) else [t] + q[1..]
  }

  lemma FreedNone(n: nat)
    ensures Freed([], n) == []
  {
  }

  /** What freeing does with the first packet of a queue. */
  lemma FreedFirst(q: seq<Packet>, n: nat)
    requires q != []
    ensures var t := TrimPacket(q[0], n);
            Freed(q, n) ==
            if q[0].end then Freed(q[1..], n)
            else if Drained(t) then Freed(q[1..], n - Min(|PacketBytes(q[0])|, n))
            else [t] + q[1..]
    ensures TrimPacket(q[0], 0) == q[0] && TrimPacket(q[0], n).end == q[0].end
    ensures ContentCount(q) == |q[0].content| + ContentCount(q[1..])
  {
    hide PacketBytes;
  }

  lemma CountFirst(q: seq<Packet>)
    requires q != []
    ensures ContentCount(q) == |q[0].content| + ContentCount(q[1..])
  {
  }

  lemma ValidTail(q: seq<Packet>)
    requires q != [] && ValidQueue(q)
    ensures ValidQueue(q[1..]) && ValidQueue([q[0]])
    ensures NoEnd(q) ==> NoEnd(q[1..])
  {
    assert forall i :: 0 <= i < |q[1..]| ==> q[1..][i] == q[i + 1];
    assert [q[0]][0] == q[0];
  }

  lemma ValidCons(p: Packet, q: seq<Packet>)
    requires ValidQueue([p]) && ValidQueue(q)
    ensures ValidQueue([p] + q)
    ensures !p.end && NoEnd(q) ==> NoEnd([p] + q)
  {
    assert [p][0] == p;
  }

  lemma ConsBytes(p: Packet, q: seq<Packet>)
    ensures QueueBytes([p] + q) == PacketBytes(p) + QueueBytes(q)
  {
    assert ([p] + q)[1..] == q;
  }

  /** Without an END packet, freeing n bytes removes exactly the first n bytes of the queue. */
  lemma {:induction false} FreedDropsExactly(q: seq<Packet>, n: nat)
    requires ValidQueue(q) && NoEnd(q) && n <= |QueueBytes(q)|
    ensures |Freed(q, n)| <= |q| && ValidQueue(Freed(q, n)) && NoEnd(Freed(q, n))
    ensures QueueBytes(Freed(q, n)) == QueueBytes(q)[n..]
    ensures Freed(q, n) == [] <==> n == |QueueBytes(q)|
  {
    hide PacketBytes, TrimPacket, Drained;
    if q != [] {
      var p := q[0];
      ValidTail(q);
      var m := Min(|PacketBytes(p)|, n);
      TrimPacketBytes(p, m);
      if m < n {
        TrimBeyond(p, n);
      }
      assert QueueBytes(q) == PacketBytes(p) + QueueBytes(q[1..]);
      if Drained(TrimPacket(p, n)) {
        FreedDropsExactly(q[1..], n - m);
        assert (PacketBytes(p) + QueueBytes(q[1..]))[n..] == QueueBytes(q[1..])[n - m..];
      } else {
        TrimKeepsEnd(p, n);
        ValidCons(TrimPacket(p, n), q[1..]);
        ConsBytes(TrimPacket(p, n), q[1..]);
        assert (PacketBytes(p) + QueueBytes(q[1..]))[n..] == PacketBytes(p)[n..] + QueueBytes(q[1..]);
      }
    }
  }

  lemma TrimKeepsEnd(p: Packet, n: nat)
    ensures TrimPacket(p, n).end == p.end
  {
  }

  lemma TrimBeyond(p: Packet, n: nat)
    requires ValidQueue([p]) && n > |PacketBytes(p)|
    ensures TrimPacket(p, n) == TrimPacket(p, |PacketBytes(p)|)
  {
    assert [p][0] == p;
  }

  /** Freeing goes through the front part first; an END packet in the back part goes once the front has gone. */
  lemma {:induction false} FreedAppend(a: seq<Packet>, b: seq<Packet>, n: nat)
    requires NoEnd(a)
    ensures Freed(a + b, n) == if Freed(a, n) == [] then Freed(b, n - Min(|QueueBytes(a)|, n)) else Freed(a, n) + b
  {
    hide TrimPacket, PacketBytes, Drained;
    var q := a + b;
    if a == [] {
      assert q == b;
    } else {
      assert q[1..] == a[1..] + b && q[0] == a[0];
      assert forall i :: 0 <= i < |a[1..]| ==> a[1..][i] == a[i + 1];
      if Drained(TrimPacket(a[0], n)) {
        FreedAppend(a[1..], b, n - Min(|PacketBytes(a[0])|, n));
      } else {
        assert [TrimPacket(a[0], n)] + q[1..] == [TrimPacket(a[0], n)] + a[1..] + b;
      }
    }
  }

  /** How many of the first `covered` packets are left after freeing. */
  function StillCovered(q: seq<Packet>, n: nat, covered: nat): nat {
    var popped := |q| - |Freed(q, n)|;
    if covered > popped then covered - popped else 0
  }

  lemma NoBytes()
    ensures QueueBytes([]) == []
  {
  }

  /**
    A vector over the first `covered` packets, trimmed by the same n as the queue, is again the bytes of whole
    packets at the front of the queue: the two structures stay in step.
   */
  lemma FreedKeepsCover(q: seq<Packet>, n: nat, covered: nat)
    requires ValidQueue(q) && covered <= |q| && NoEnd(q[..covered])
    requires n <= |QueueBytes(q[..covered])| && (NoEnd(q) || n < |QueueBytes(q[..covered])|)
    ensures |Freed(q, n)| <= |q| && StillCovered(q, n, covered) <= |Freed(q, n)|
    ensures QueueBytes(Freed(q, n)[..StillCovered(q, n, covered)]) == QueueBytes(q[..covered])[n..]
  {
    hide Freed, QueueBytes, PacketBytes;
    var a, b := q[..covered], q[covered..];
    assert q == a + b;
    assert ValidQueue(a) && ValidQueue(b);
    FreedDropsExactly(a, n);
    FreedAppend(a, b, n);
    if Freed(a, n) == [] {
      assert NoEnd(b);
      FreedDropsExactly(b, 0);
      NoBytes();
    } else {
      assert Freed(q, n)[..|Freed(a, n)|] == Freed(a, n);
    }
  }

  // ---- What buildFastVec takes ----

  function Slots(p: Packet): nat {
    (if PrefixBytes(p) != [] then 1 else 0) + (if p.content != [] then 1 else 0)
  }

  /** How many packets at the front of the queue buildFastVec puts in the vector when `used` slots are taken. */
  function Taken(q: seq<Packet>, used: nat): (k: nat)
    ensures k <= |q|
  {
    if q == [] || used >= ME_MAX_IOVEC - 2 then 0 else 1 + Taken(q[1..], used + Slots(q[0]))
  }

  lemma TakeNext(q: seq<Packet>, i: nat, used: nat)
    requires i < |q| && used < ME_MAX_IOVEC - 2
    ensures Taken(q[i..], used) == 1 + Taken(q[i + 1..], used + Slots(q[i]))
    ensures QueueBytes(q[..i + 1]) == QueueBytes(q[..i]) + PacketBytes(q[i])
  {
    assert q[i..][1..] == q[i + 1..];
    assert q[..i + 1] == q[..i] + [q[i]];
    QueueBytesOne(q[..i], q[i]);
  }

  lemma TakeNone(q: seq<Packet>, i: nat, used: nat)
    requires i <= |q| && (i == |q| || used >= ME_MAX_IOVEC - 2)
    ensures Taken(q[i..], used) == 0
  {
  }

  lemma SevenTaken(p: Packet, e: Packet)
    requires Slots(p) == 2
    ensures Taken([p, p, p, p, p, p, p] + [e], 0) == 7
  {
    hide Taken;
    assert [p, p, p, p, p, p, p] + [e] == [p] + ([p] + ([p] + ([p] + ([p] + ([p] + ([p] + [e]))))));
    TakenStep(p, [e], 12);
    TakenStep(p, [p] + [e], 10);
    TakenStep(p, [p] + ([p] + [e]), 8);
    TakenStep(p, [p] + ([p] + ([p] + [e])), 6);
    TakenStep(p, [p] + ([p] + ([p] + ([p] + [e]))), 4);
    TakenStep(p, [p] + ([p] + ([p] + ([p] + ([p] + [e])))), 2);
    TakenStep(p, [p] + ([p] + ([p] + ([p] + ([p] + ([p] + [e]))))), 0);
    assert [e][0..] == [e];
    TakeNone([e], 0, 14);
  }

  lemma SevenBytes(p: Packet)
    ensures |QueueBytes([p, p, p, p, p, p, p])| == 7 * |PacketBytes(p)|
  {
    hide QueueBytes, PacketBytes;
    assert [p, p, p, p, p, p, p] == [p] + ([p] + ([p] + ([p] + ([p] + ([p] + ([p] + []))))));
    NoBytes();
    BytesStep(p, []);
    BytesStep(p, [p] + []);
    BytesStep(p, [p] + ([p] + []));
    BytesStep(p, [p] + ([p] + ([p] + [])));
    BytesStep(p, [p] + ([p] + ([p] + ([p] + []))));
    BytesStep(p, [p] + ([p] + ([p] + ([p] + ([p] + [])))));
    BytesStep(p, [p] + ([p] + ([p] + ([p] + ([p] + ([p] + []))))));
  }

  /** The end of input can be dropped unsent: seven full records fill the vector, END is the eighth packet. */
  lemma EndBeyondSlotLimitIsDropped(p: Packet, e: Packet)
    requires p.prefix.Some? && |p.prefix.value| == 8 && |p.content| == 8 && !p.end
    requires e == Packet(p.prefix, [], true)
    ensures var q := [p, p, p, p, p, p, p];
            && Taken(q + [e], 0) == 7
            && |QueueBytes((q + [e])[..7])| == 112
            && Freed(q + [e], 112) == []
            && |QueueBytes(q + [e])| == 112 + 8
  {
    hide Taken, QueueBytes, Freed;
    var q := [p, p, p, p, p, p, p];
    assert (q + [e])[..7] == q;
    assert |PacketBytes(p)| == 16;
    SevenTaken(p, e);
    SevenBytes(p);
    assert ValidQueue(q) && NoEnd(q);
    FreedDropsExactly(q, 112);
    FreedAppend(q, [e], 112);
    FreedFirst([e], 0);
    FreedNone(0);
    QueueBytesOne(q, e);
  }

  lemma TakenStep(p: Packet, rest: seq<Packet>, used: nat)
    requires used < ME_MAX_IOVEC - 2
    ensures Taken([p] + rest, used) == 1 + Taken(rest, used + Slots(p))
  {
    assert ([p] + rest)[1..] == rest;
  }

  lemma BytesStep(p: Packet, rest: seq<Packet>)
    ensures |QueueBytes([p] + rest)| == |PacketBytes(p)| + |QueueBytes(rest)|
  {
    assert ([p] + rest)[1..] == rest;
  }

  // ---- What the count does not see ----

  /** Only prefixes are left: there are bytes to send and no content. */
  ghost predicate PrefixesOnly(q: seq<Packet>) {
    (forall i :: 0 <= i < |q| ==> q[i].content == []) && exists i :: 0 <= i < |q| && q[i].prefix.Some?
  }

  lemma {:induction false} ContentIsCounted(q: seq<Packet>)
    ensures ContentCount(q) == 0 <==> forall i :: 0 <= i < |q| ==> q[i].content == []
  {
    if q != [] {
      ContentIsCounted(q[1..]);
      assert q == [q[0]] + q[1..];
    }
  }

  lemma {:induction false} QueueHasBytes(q: seq<Packet>, i: nat)
    requires i < |q| && PacketBytes(q[i]) != []
    ensures QueueBytes(q) != []
  {
    hide PacketBytes;
    if i > 0 {
      QueueHasBytes(q[1..], i - 1);
    }
  }

  lemma {:induction false} NoBytesAtAll(q: seq<Packet>)
    requires forall i :: 0 <= i < |q| ==> q[i].content == [] && q[i].prefix.None?
    ensures QueueBytes(q) == []
  {
    if q != [] {
      NoBytesAtAll(q[1..]);
    }
  }

  /** The count misses bytes of a queue exactly when only prefixes are left. */
  lemma CountMissesPrefixes(q: seq<Packet>)
    requires ValidQueue(q)
    ensures ContentCount(q) == 0 && QueueBytes(q) != [] <==> PrefixesOnly(q)
  {
    ContentIsCounted(q);
    if i :| 0 <= i < |q| && q[i].prefix.Some? {
      QueueHasBytes(q, i);
    } else {
      if ContentCount(q) == 0 {
        NoBytesAtAll(q);
      }
    }
  }
}
