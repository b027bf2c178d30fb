/**
  The gather write of fastHandler.c as a state machine over values: records are queued, a vector is built over
  the packets at the front of the queue, and each socket write trims the queue and the vector by the same count.
 */
module GatherWrite {
  import opened Bytes
  import opened PacketQueue

  /** vec: the bytes the I/O vector still holds. covered: the packets at the front of the queue it was built from. */
  datatype Wire = Wire(vec: seq<byte>, covered: nat, queue: seq<Packet>, queued: seq<byte>, sent: seq<byte>,
                       lost: seq<byte>, endQueued: bool, endFreed: bool)

  const START := Wire([], 0, [], [], [], [], false, false)

  /** Bytes that will still be offered to the socket. */
  function Pending(w: Wire): seq<byte> {
    if w.endFreed then w.vec else QueueBytes(w.queue)
  }

  ghost predicate EndIsLast(q: seq<Packet>) {
    q != [] && q[|q| - 1].end && NoEnd(q[..|q| - 1])
  }

  ghost predicate Shape(w: Wire) {
    && ValidQueue(w.queue)
    && (!w.endQueued ==> NoEnd(w.queue) && !w.endFreed)
    && (w.endQueued && !w.endFreed ==> EndIsLast(w.queue))
    && (w.endFreed ==> w.queue == [])
  }

  /** The vector holds what is left of whole packets at the front of the queue. */
  ghost predicate InStep(w: Wire) {
    !w.endFreed ==> w.covered <= |w.queue| && w.vec == QueueBytes(w.queue[..w.covered])
  }

  /** Every byte queued is, in order and once, sent, pending or lost; only an END packet is ever lost. */
  ghost predicate Conserved(w: Wire) {
    && w.queued == w.sent + Pending(w) + w.lost
    && (w.lost != [] ==> w.endFreed && w.vec == [])
  }

  ghost predicate Ok(w: Wire) {
    Shape(w) && InStep(w) && Conserved(w)
  }

  // ---- Steps ----

  /** httpPutForService of a framed packet. */
  function Put(w: Wire, p: Packet): Wire {
    w.(queue := w.queue + [p], queued := w.queued + PacketBytes(p), endQueued := w.endQueued || p.end)
  }

  /** buildFastVec, called with an empty vector. */
  function Build(w: Wire): Wire {
    var k := Taken(w.queue, 0);
    w.(vec := QueueBytes(w.queue[..k]), covered := k)
  }

  /** A socket write of n bytes, then freeFastPackets and adjustFastVec. */
  function Write(w: Wire, n: nat): Wire
    requires n <= |w.vec|
  {
    var q := Freed(w.queue, n);
    var endGone := w.endQueued && !w.endFreed && q == [];
    Wire(w.vec[n..], StillCovered(w.queue, n, w.covered), q, w.queued, w.sent + w.vec[..n],
         if endGone && w.covered < |w.queue| then w.lost + PacketBytes(w.queue[|w.queue| - 1]) else w.lost,
         w.endQueued, w.endFreed || endGone)
  }

  /** freeFastPackets(q, 0) when there is nothing to send: only empty packets and END can be at the front. */
  function Discard(w: Wire): Wire {
    w.(queue := Freed(w.queue, 0), covered := 0, endFreed := w.endFreed || (w.endQueued && Freed(w.queue, 0) == []))
  }

  /** adjustFastVec: whole entries go while n covers them, then the start of one; the rest moves down. */
  function Trimmed(entries: seq<seq<byte>>, n: nat): seq<seq<byte>> {
    if entries == [] then []
    else if n < |entries[0]| then [entries[0][n..]] + entries[1..]
    else Trimmed(entries[1..], n - |entries[0]|)
  }

  lemma {:induction false} TrimmedBytes(entries: seq<seq<byte>>, n: nat)
    requires n <= |Flatten(entries)| && forall i :: 0 <= i < |entries| ==> entries[i] != []
    ensures Flatten(Trimmed(entries, n)) == Flatten(entries)[n..]
    ensures |Trimmed(entries, n)| <= |entries|
    ensures forall i :: 0 <= i < |Trimmed(entries, n)| ==> Trimmed(entries, n)[i] != []
  {
    if entries != [] {
      var first, rest := entries[0], entries[1..];
      assert forall i :: 0 <= i < |rest| ==> rest[i] == entries[i + 1];
      if n < |first| {
        assert ([first[n..]] + rest)[1..] == rest;
        assert (first + Flatten(rest))[n..] == first[n..] + Flatten(rest);
        hide Flatten;
      } else {
        TrimmedBytes(rest, n - |first|);
        assert (first + Flatten(rest))[n..] == Flatten(rest)[n - |first|..];
        hide Flatten;
      }
    }
  }

  // ---- Every step keeps Ok ----

  lemma StartOk()
    ensures Ok(START) && EndHasBytes(START)
  {
  }

  lemma PutOk(w: Wire, p: Packet)
    requires Ok(w) && !w.endQueued && ValidQueue([p])
    ensures Ok(Put(w, p))
  {
    hide QueueBytes;
    hide PacketBytes;
    var q := w.queue + [p];
    assert [p][0] == p;
    QueueBytesOne(w.queue, p);
    assert q[..|q| - 1] == w.queue;
    assert q[..w.covered] == w.queue[..w.covered];
    assert w.lost == [];
  }

  lemma BuildOk(w: Wire)
    requires Ok(w) && !w.endFreed
    ensures Ok(Build(w)) && (EndHasBytes(w) ==> EndHasBytes(Build(w)))
  {
  }

  /** Facts about the two parts of a queue that ends in END. */
  lemma EndSplit(q: seq<Packet>)
    requires ValidQueue(q) && EndIsLast(q)
    ensures var pre, e := q[..|q| - 1], q[|q| - 1];
            && q == pre + [e] && e.end && NoEnd(pre) && ValidQueue(pre)
            && QueueBytes(q) == QueueBytes(pre) + PacketBytes(e)
  {
    var pre, e := q[..|q| - 1], q[|q| - 1];
    assert q == pre + [e];
    QueueBytesOne(pre, e);
  }

  lemma MoveSent(queued: seq<byte>, sent: seq<byte>, vec: seq<byte>, rest: seq<byte>, lost: seq<byte>, n: nat)
    requires n <= |vec| && vec <= rest && queued == sent + rest + lost
    ensures queued == (sent + vec[..n]) + rest[n..] + lost
  {
    assert rest == vec[..n] + rest[n..];
    assert sent + rest == (sent + vec[..n]) + rest[n..];
  }

  /** Freeing that stops short of END frees the rest as if END were absent. */
  lemma FreedBeforeEnd(pre: seq<Packet>, e: Packet, n: nat)
    requires ValidQueue(pre + [e]) && ValidQueue(pre) && NoEnd(pre) && e.end && n < |QueueBytes(pre)|
    ensures var f := Freed(pre, n);
            && Freed(pre + [e], n) == f + [e] && f != [] && |f| <= |pre| && NoEnd(f) && ValidQueue(f + [e])
            && n <= |QueueBytes(pre + [e])| && QueueBytes(f + [e]) == QueueBytes(pre + [e])[n..]
  {
    hide QueueBytes;
    hide Freed;
    hide PacketBytes;
    var f := Freed(pre, n);
    FreedDropsExactly(pre, n);
    FreedAppend(pre, [e], n);
    QueueBytesOne(f, e);
    QueueBytesOne(pre, e);
    ValidSnoc(f, pre, e);
  }

  lemma CoverBeforeEnd(pre: seq<Packet>, e: Packet, n: nat, covered: nat)
    requires ValidQueue(pre) && NoEnd(pre) && covered <= |pre| && n <= |QueueBytes(pre[..covered])|
    requires n <= |QueueBytes((pre + [e])[..covered])| && Freed(pre + [e], n) == Freed(pre, n) + [e]
    ensures var q, f := pre + [e], Freed(pre + [e], n);
            && StillCovered(q, n, covered) <= |f|
            && QueueBytes(f[..StillCovered(q, n, covered)]) == QueueBytes(q[..covered])[n..]
  {
    hide QueueBytes;
    hide Freed;
    var f := Freed(pre, n);
    assert (pre + [e])[..covered] == pre[..covered];
    FreedKeepsCover(pre, n, covered);
    var left := StillCovered(pre, n, covered);
    assert StillCovered(pre + [e], n, covered) == left;
    assert (f + [e])[..left] == f[..left];
  }

  /** Freeing that stops short of END: END stays, and a cover of the queue stays a cover. */
  lemma FreedKeepsEnd(pre: seq<Packet>, e: Packet, n: nat, covered: nat)
    requires ValidQueue(pre + [e]) && ValidQueue(pre) && NoEnd(pre) && e.end
    requires covered <= |pre| + 1 && n < |QueueBytes(pre)| && n <= |QueueBytes((pre + [e])[..covered])|
    ensures var q, f := pre + [e], Freed(pre + [e], n);
            && ValidQueue(f) && EndIsLast(f) && |f| <= |q|
            && n <= |QueueBytes(q)| && QueueBytes(f) == QueueBytes(q)[n..]
            && StillCovered(q, n, covered) <= |f|
            && QueueBytes(f[..StillCovered(q, n, covered)]) == QueueBytes(q[..covered])[n..]
            && (covered == |q| ==> StillCovered(q, n, covered) == |f|)
  {
    hide QueueBytes;
    hide Freed;
    FreedBeforeEnd(pre, e, n);
    var q, f := pre + [e], Freed(pre, n);
    assert (f + [e])[..|f|] == f;
    if covered == |q| {
      assert q[..covered] == q;
      assert (f + [e])[..|f| + 1] == f + [e];
    } else {
      assert q[..covered] == pre[..covered];
      CoverBeforeEnd(pre, e, n, covered);
    }
  }

  lemma ValidSnoc(f: seq<Packet>, pre: seq<Packet>, e: Packet)
    requires ValidQueue(f) && ValidQueue(pre + [e])
    ensures ValidQueue(f + [e])
  {
    assert (pre + [e])[|pre|] == e;
  }

  lemma CoverBound(q: seq<Packet>, covered: nat)
    requires covered <= |q|
    ensures QueueBytes(q[..covered]) <= QueueBytes(q)
  {
    QueueBytesSplit(q, covered);
  }

  /** A write that stops short of END keeps END in the queue. */
  lemma WriteBeforeEnd(w: Wire, n: nat)
    requires Ok(w) && w.endQueued && !w.endFreed && n <= |w.vec| && n < |QueueBytes(w.queue[..|w.queue| - 1])|
    ensures Ok(Write(w, n)) && Write(w, n).lost == w.lost && !Write(w, n).endFreed
    ensures w.covered == |w.queue| ==> Write(w, n).covered == |Write(w, n).queue|
  {
    hide QueueBytes;
    hide Freed;
    hide StillCovered;
    var q := w.queue;
    EndSplit(q);
    CoverBound(q, w.covered);
    FreedKeepsEnd(q[..|q| - 1], q[|q| - 1], n, w.covered);
    MoveSent(w.queued, w.sent, w.vec, QueueBytes(q), w.lost, n);
  }

  /** A write that reaches an END the vector covers frees it, and its unsent bytes stay in the vector. */
  lemma WriteReachesCoveredEnd(w: Wire, n: nat)
    requires Ok(w) && w.endQueued && !w.endFreed && n <= |w.vec| && n >= |QueueBytes(w.queue[..|w.queue| - 1])|
    requires w.covered == |w.queue|
    ensures Ok(Write(w, n)) && Write(w, n).endFreed && Write(w, n).lost == w.lost
  {
    hide QueueBytes;
    hide Freed;
    hide PacketBytes;
    var q := w.queue;
    EndSplit(q);
    FreedToEnd(q[..|q| - 1], q[|q| - 1], n);
    assert q[..w.covered] == q;
    MoveSent(w.queued, w.sent, w.vec, w.vec, [], n);
  }

  /** A write that reaches an END the vector does not cover has sent the whole vector, and END is dropped unsent. */
  lemma WriteReachesUncoveredEnd(w: Wire, n: nat)
    requires Ok(w) && w.endQueued && !w.endFreed && n <= |w.vec| && n >= |QueueBytes(w.queue[..|w.queue| - 1])|
    requires w.covered < |w.queue|
    ensures Ok(Write(w, n)) && Write(w, n).endFreed
    ensures Write(w, n).lost == w.lost + PacketBytes(w.queue[|w.queue| - 1])
    ensures n == |w.vec| == |QueueBytes(w.queue[..|w.queue| - 1])|
  {
    hide QueueBytes;
    hide Freed;
    hide PacketBytes;
    var q := w.queue;
    var pre, e := q[..|q| - 1], q[|q| - 1];
    EndSplit(q);
    FreedToEnd(pre, e, n);
    assert q[..w.covered] == pre[..w.covered];
    CoverBound(pre, w.covered);
    assert w.vec == QueueBytes(pre) && n == |w.vec|;
    AllSent(w.queued, w.sent, w.vec, PacketBytes(e));
  }

  lemma AllSent(queued: seq<byte>, sent: seq<byte>, vec: seq<byte>, last: seq<byte>)
    requires queued == sent + (vec + last) + []
    ensures vec[|vec|..] == [] && queued == (sent + vec[..|vec|]) + [] + ([] + last)
  {
    assert vec[..|vec|] == vec;
    assert sent + (vec + last) == (sent + vec) + last;
  }

  lemma FreedToEnd(pre: seq<Packet>, e: Packet, n: nat)
    requires ValidQueue(pre) && NoEnd(pre) && e.end && n >= |QueueBytes(pre)|
    ensures Freed(pre + [e], n) == []
  {
    FreedAppend(pre, [e], n);
    FreedAll(pre, n);
    assert [e][0] == e && [e][1..] == [];
  }

  lemma {:induction false} FreedAll(q: seq<Packet>, n: nat)
    requires ValidQueue(q) && NoEnd(q) && n >= |QueueBytes(q)|
    ensures Freed(q, n) == []
  {
    if q != [] {
      ValidTail(q);
      var m := |PacketBytes(q[0])|;
      TrimPacketBytes(q[0], m);
      if m < n {
        TrimBeyond(q[0], n);
      }
      FreedAll(q[1..], n - m);
    }
  }

  lemma WriteWithoutEnd(w: Wire, n: nat)
    requires Ok(w) && !w.endQueued && n <= |w.vec|
    ensures Ok(Write(w, n)) && Write(w, n).lost == w.lost == []
  {
    hide QueueBytes;
    hide Freed;
    hide StillCovered;
    CoverBound(w.queue, w.covered);
    FreedDropsExactly(w.queue, n);
    FreedKeepsCover(w.queue, n, w.covered);
    MoveSent(w.queued, w.sent, w.vec, QueueBytes(w.queue), w.lost, n);
  }

  lemma WriteAfterEnd(w: Wire, n: nat)
    requires Ok(w) && w.endFreed && 0 < n <= |w.vec|
    ensures Ok(Write(w, n)) && Write(w, n).lost == w.lost == [] && Write(w, n).endFreed
  {
    MoveSent(w.queued, w.sent, w.vec, w.vec, [], n);
  }

  /**
    Every write keeps conservation, and END is lost exactly when the vector did not reach it and everything
    before it has been written.
   */
  lemma WriteOk(w: Wire, n: nat)
    requires Ok(w) && 0 < n <= |w.vec|
    requires w.endQueued && !w.endFreed ==> PacketBytes(w.queue[|w.queue| - 1]) != []
    ensures Ok(Write(w, n))
    ensures Write(w, n).lost != w.lost
            <==> w.endQueued && !w.endFreed && w.covered < |w.queue| && n == |QueueBytes(w.queue[..|w.queue| - 1])|
    ensures Write(w, n).lost != w.lost ==> Write(w, n).lost == PacketBytes(w.queue[|w.queue| - 1])
  {
    if !w.endQueued {
      WriteWithoutEnd(w, n);
    } else if w.endFreed {
      WriteAfterEnd(w, n);
    } else if n < |QueueBytes(w.queue[..|w.queue| - 1])| {
      WriteBeforeEnd(w, n);
    } else if w.covered == |w.queue| {
      WriteReachesCoveredEnd(w, n);
    } else {
      WriteReachesUncoveredEnd(w, n);
    }
  }

  lemma DiscardOk(w: Wire)
    requires Ok(w) && !w.endFreed && w.vec == [] && QueueBytes(w.queue) == []
    ensures Ok(Discard(w)) && Discard(w).queue == [] && Discard(w).lost == w.lost
  {
    if w.endQueued {
      var q := w.queue;
      EndSplit(q);
      FreedToEnd(q[..|q| - 1], q[|q| - 1], 0);
    } else {
      FreedAll(w.queue, 0);
    }
  }

  // ---- Runs ----

  datatype Step = Queue(packet: Packet) | Vector | Sent(n: nat)

  ghost predicate Enabled(w: Wire, s: Step) {
    match s
    case Queue(p) => !w.endQueued && p.prefix.Some? && p.prefix.value != []
    case Vector => !w.endFreed && w.vec == []
    case Sent(n) => 0 < n <= |w.vec|
  }

  ghost function Apply(w: Wire, s: Step): Wire
    requires Enabled(w, s)
  {
    match s
    case Queue(p) => Put(w, p)
    case Vector => Build(w)
    case Sent(n) => Write(w, n)
  }

  ghost predicate IsRun(run: seq<Wire>, steps: seq<Step>) {
    && |run| == |steps| + 1 && run[0] == START
    && forall i :: 0 <= i < |steps| ==> Enabled(run[i], steps[i]) && run[i + 1] == Apply(run[i], steps[i])
  }

  ghost predicate EndHasBytes(w: Wire) {
    w.endQueued && !w.endFreed ==> w.queue != [] && PrefixBytes(w.queue[|w.queue| - 1]) != []
  }

  lemma SentKeepsOk(w: Wire, n: nat)
    requires Ok(w) && EndHasBytes(w) && 0 < n <= |w.vec|
    ensures Ok(Write(w, n)) && EndHasBytes(Write(w, n))
  {
    hide QueueBytes;
    hide Freed;
    hide StillCovered;
    WriteOk(w, n);
    if w.endQueued && !w.endFreed {
      EndStays(w.queue, n);
    }
  }

  lemma StepKeepsOk(w: Wire, s: Step)
    requires Ok(w) && EndHasBytes(w) && Enabled(w, s)
    ensures Ok(Apply(w, s)) && EndHasBytes(Apply(w, s))
  {
    match s
    case Queue(p) =>
      assert [p][0] == p;
      PutOk(w, p);
    case Vector => BuildOk(w);
    case Sent(n) => SentKeepsOk(w, n);
  }

  lemma EndStays(q: seq<Packet>, n: nat)
    requires ValidQueue(q) && EndIsLast(q)
    ensures var f := Freed(q, n); f == [] || f[|f| - 1] == q[|q| - 1]
  {
    var pre, e := q[..|q| - 1], q[|q| - 1];
    EndSplit(q);
    FreedAppend(pre, [e], n);
    assert [e][0] == e && [e][1..] == [];
  }

  lemma {:induction false} RunKeepsOk(run: seq<Wire>, steps: seq<Step>, i: nat)
    requires IsRun(run, steps) && i < |run|
    ensures Ok(run[i]) && EndHasBytes(run[i])
  {
    hide Ok, EndHasBytes, Enabled, Apply;
    if i == 0 {
      StartOk();
    } else {
      RunKeepsOk(run, steps, i - 1);
      RunStep(run, steps, i - 1);
      StepKeepsOk(run[i - 1], steps[i - 1]);
    }
  }

  /** Before END is queued nothing is lost, in any interleaving of queueing, vector building and partial writes. */
  lemma RunConserves(run: seq<Wire>, steps: seq<Step>, i: nat)
    requires IsRun(run, steps) && i < |run| && !run[i].endQueued
    ensures run[i].queued == run[i].sent + QueueBytes(run[i].queue)
    ensures run[i].vec <= QueueBytes(run[i].queue)
  {
    RunKeepsOk(run, steps, i);
    CoverBound(run[i].queue, run[i].covered);
  }

  /** The vector covers END, or END has been freed with what is left of it in the vector. */
  ghost predicate EndSafe(w: Wire) {
    w.endQueued && w.lost == [] && (w.endFreed || w.covered == |w.queue|)
  }

  lemma StepKeepsEndSafe(w: Wire, s: Step)
    requires Ok(w) && EndHasBytes(w) && Enabled(w, s) && EndSafe(w)
    ensures EndSafe(Apply(w, s))
  {
    hide QueueBytes;
    hide Freed;
    hide StillCovered;
    if w.endFreed {
      WriteAfterEnd(w, s.n);
    } else {
      var q := w.queue;
      EndSplit(q);
      assert q[..|q|] == q;
      assert w.vec != [];
      if s.n < |QueueBytes(q[..|q| - 1])| {
        WriteBeforeEnd(w, s.n);
      } else {
        WriteReachesCoveredEnd(w, s.n);
      }
    }
  }

  lemma RunStep(run: seq<Wire>, steps: seq<Step>, i: nat)
    requires IsRun(run, steps) && i < |steps|
    ensures i + 1 < |run| && Enabled(run[i], steps[i]) && run[i + 1] == Apply(run[i], steps[i])
  {
    hide Enabled, Apply;
  }

  lemma SafeIsConserved(w: Wire)
    requires Ok(w) && EndSafe(w)
    ensures w.queued == w.sent + Pending(w)
  {
    assert w.sent + Pending(w) + [] == w.sent + Pending(w);
  }

  /** Once the vector covers END nothing is ever lost: at every later step all that is queued is sent or pending. */
  lemma {:induction false} CoveredEndIsNeverLost(run: seq<Wire>, steps: seq<Step>, i: nat, j: nat)
    requires IsRun(run, steps) && i <= j < |run| && EndSafe(run[i])
    ensures EndSafe(run[j]) && run[j].queued == run[j].sent + Pending(run[j])
  {
    hide Ok, EndHasBytes, EndSafe, Enabled, Apply;
    RunKeepsOk(run, steps, j);
    if i < j {
      CoveredEndIsNeverLost(run, steps, i, j - 1);
      RunKeepsOk(run, steps, j - 1);
      RunStep(run, steps, j - 1);
      StepKeepsEndSafe(run[j - 1], steps[j - 1]);
    }
    SafeIsConserved(run[j]);
  }

  /**
    A run that loses the end of input: a record is in the vector when the socket blocks, END is queued behind it,
    and the next write takes the whole vector.
   */
  lemma EndQueuedBehindVectorIsLost(p: Packet, e: Packet) returns (run: seq<Wire>, steps: seq<Step>)
    requires p.prefix.Some? && p.prefix.value != [] && !p.end
    requires e.prefix.Some? && e.prefix.value != [] && e.end
    ensures IsRun(run, steps) && run[|run| - 1].lost == PacketBytes(e) != [] && Pending(run[|run| - 1]) == []
  {
    hide Taken, Freed, QueueBytes, PacketBytes, IsRun;
    var n := |PacketBytes(p)|;
    OnePacket(p, e);
    var w1 := Put(START, p);
    assert w1.queue == [p];
    var w2 := Build(w1);
    var w3 := Put(w2, e);
    assert w3.queue == [p] + [e];
    var w4 := Write(w3, n);
    run, steps := [START, w1, w2, w3, w4], [Queue(p), Vector, Queue(e), Sent(n)];
    FourSteps(run, steps);
  }

  lemma FourSteps(run: seq<Wire>, steps: seq<Step>)
    requires |run| == 5 && |steps| == 4 && run[0] == START
    requires Enabled(run[0], steps[0]) && run[1] == Apply(run[0], steps[0])
    requires Enabled(run[1], steps[1]) && run[2] == Apply(run[1], steps[1])
    requires Enabled(run[2], steps[2]) && run[3] == Apply(run[2], steps[2])
    requires Enabled(run[3], steps[3]) && run[4] == Apply(run[3], steps[3])
    ensures IsRun(run, steps)
  {
    hide Enabled, Apply;
  }

  /** A record with END behind it: the vector takes the record, and freeing it pops both. */
  lemma OnePacket(p: Packet, e: Packet)
    requires p.prefix.Some? && p.prefix.value != [] && !p.end && e.prefix.Some? && e.prefix.value != [] && e.end
    ensures PacketBytes(p) != [] && PacketBytes(e) != [] && ([p] + [e])[..1] == [p]
    ensures Taken([p], 0) == 1 && [p][..1] == [p] && QueueBytes([p]) == PacketBytes(p)
    ensures Freed([p] + [e], |PacketBytes(p)|) == []
  {
    assert [p][1..] == [] && [p][0] == p;
    assert QueueBytes([p]) == PacketBytes(p) + QueueBytes([]);
    assert ValidQueue([p]) && NoEnd([p]);
    FreedToEnd([p], e, |PacketBytes(p)|);
  }

  // ---- When exactly END is lost ----

  /** The vector holds everything before END, and not END. */
  ghost predicate Doomed(w: Wire) {
    && w.endQueued && !w.endFreed && w.queue != [] && w.covered < |w.queue|
    && w.vec == QueueBytes(w.queue[..|w.queue| - 1])
  }

  lemma UncoveredVector(w: Wire)
    requires Ok(w) && w.endQueued && !w.endFreed && w.covered < |w.queue|
    ensures w.vec <= QueueBytes(w.queue[..|w.queue| - 1])
  {
    var pre := w.queue[..|w.queue| - 1];
    assert w.queue[..w.covered] == pre[..w.covered];
    CoverBound(pre, w.covered);
  }

  lemma CoveredVector(w: Wire)
    requires Ok(w) && EndHasBytes(w) && w.endQueued && !w.endFreed && w.covered == |w.queue|
    ensures |w.vec| > |QueueBytes(w.queue[..|w.queue| - 1])|
  {
    EndSplit(w.queue);
    assert w.queue[..|w.queue|] == w.queue;
  }

  /** What is left before END after a write that stops before it. */
  lemma BeforeEndLeft(w: Wire, n: nat)
    requires Ok(w) && w.endQueued && !w.endFreed && n < |QueueBytes(w.queue[..|w.queue| - 1])|
    ensures var q := Freed(w.queue, n);
            q != [] && QueueBytes(q[..|q| - 1]) == QueueBytes(w.queue[..|w.queue| - 1])[n..]
  {
    hide QueueBytes;
    var pre, e := w.queue[..|w.queue| - 1], w.queue[|w.queue| - 1];
    EndSplit(w.queue);
    FreedDropsExactly(pre, n);
    FreedAppend(pre, [e], n);
    var f := Freed(pre, n);
    assert Freed(w.queue, n) == f + [e] && (f + [e])[..|f + [e]| - 1] == f;
  }

  /** A partial write neither dooms nor saves END, and the write that empties a vector loses END if it was doomed. */
  lemma DoomStep(w: Wire, n: nat)
    requires Ok(w) && EndHasBytes(w) && w.endQueued && !w.endFreed && 0 < n <= |w.vec|
    ensures n < |w.vec| ==> (Doomed(Write(w, n)) <==> Doomed(w)) && Write(w, n).lost == []
    ensures n == |w.vec| ==> (Write(w, n).lost != [] <==> Doomed(w))
  {
    hide QueueBytes, Freed, StillCovered;
    assert w.lost == [];
    if w.covered == |w.queue| {
      CoveredVector(w);
      StepKeepsEndSafe(w, Sent(n));
      if !Write(w, n).endFreed {
        SentKeepsOk(w, n);
        CoveredVector(Write(w, n));
      }
    } else {
      UncoveredVector(w);
      WriteOk(w, n);
      if n < |QueueBytes(w.queue[..|w.queue| - 1])| {
        WriteBeforeEnd(w, n);
        BeforeEndLeft(w, n);
        if n < |w.vec| && Doomed(w) {
          SentKeepsOk(w, n);
          if Write(w, n).covered == |Write(w, n).queue| {
            CoveredVector(Write(w, n));
          }
        }
      }
    }
  }

  /** While the vector that was built is written out, END is lost if and only if the vector held all before END but not END. */
  lemma {:induction false} DrainLosesEnd(run: seq<Wire>, steps: seq<Step>, i: nat, j: nat)
    requires IsRun(run, steps) && i < j < |run| && run[i].endQueued && !run[i].endFreed
    requires (forall k :: i <= k < j ==> steps[k].Sent?) && run[j].vec == []
    ensures run[j].lost != [] <==> Doomed(run[i])
    decreases j - i
  {
    hide Ok, EndHasBytes, Doomed, EndSafe;
    RunKeepsOk(run, steps, i);
    assert Enabled(run[i], steps[i]) && run[i + 1] == Apply(run[i], steps[i]);
    DoomStep(run[i], steps[i].n);
    if i + 1 < j {
      assert Enabled(run[i + 1], steps[i + 1]);
      if run[i + 1].endFreed {
        FreedIsNotDoomed(run[i + 1]);
        AfterEndFreed(run, steps, i + 1, j);
      } else {
        DrainLosesEnd(run, steps, i + 1, j);
      }
    }
  }

  lemma FreedIsNotDoomed(w: Wire)
    requires w.endFreed
    ensures !Doomed(w)
  {
  }

  lemma {:induction false} AfterEndFreed(run: seq<Wire>, steps: seq<Step>, i: nat, j: nat)
    requires IsRun(run, steps) && i <= j < |run| && run[i].endFreed && run[i].lost == []
    requires forall k :: i <= k < j ==> steps[k].Sent?
    ensures run[j].lost == []
    decreases j - i
  {
    if i < j {
      RunKeepsOk(run, steps, i);
      assert Enabled(run[i], steps[i]) && run[i + 1] == Apply(run[i], steps[i]);
      WriteAfterEnd(run[i], steps[i].n);
      AfterEndFreed(run, steps, i + 1, j);
    }
  }

  // ---- Pending bytes that the writable event is not armed for ----

  /** Bytes are pending and the content count is zero: the rest of a popped END is in the vector, or only prefixes are queued. */
  ghost predicate Unarmed(w: Wire) {
    if w.endFreed then w.vec != [] else PrefixesOnly(w.queue)
  }

  /** The writable event is armed by the content count: bytes are pending without it exactly in these states. */
  lemma PendingIsUnarmed(w: Wire)
    requires Ok(w)
    ensures Pending(w) != [] && ContentCount(w.queue) == 0 <==> Unarmed(w)
  {
    if !w.endFreed {
      CountMissesPrefixes(w.queue);
    }
  }

  /** END alone in the queue: a run of one step whose pending bytes the event is not armed for. */
  lemma EndAloneIsUnarmed(e: Packet) returns (run: seq<Wire>, steps: seq<Step>)
    requires e.prefix.Some? && e.prefix.value != [] && e.content == [] && e.end
    ensures IsRun(run, steps) && run[|run| - 1].queue == [e] && Unarmed(run[|run| - 1])
    ensures Pending(run[|run| - 1]) == e.prefix.value
  {
    var w := Put(START, e);
    run, steps := [START, w], [Queue(e)];
    assert w.queue == [e] && [e][1..] == [] && [e][0] == e;
    assert QueueBytes([e]) == PacketBytes(e) + QueueBytes([]);
  }

  /** The socket takes a record and half of END: END is popped, its other half is in the vector, and nothing is counted. */
  lemma HalfEndIsUnarmed(p: Packet, e: Packet) returns (run: seq<Wire>, steps: seq<Step>)
    requires p.prefix.Some? && p.prefix.value != [] && !p.end
    requires e.prefix.Some? && |e.prefix.value| == 8 && e.content == [] && e.end
    ensures IsRun(run, steps) && run[|run| - 1].queue == [] && Unarmed(run[|run| - 1]) && run[|run| - 1].lost == []
    ensures Pending(run[|run| - 1]) == e.prefix.value[4..]
  {
    hide Taken, Freed, QueueBytes, PacketBytes, IsRun;
    var w1 := Put(START, p);
    var w2 := Put(w1, e);
    var w3 := Build(w2);
    var n := |PacketBytes(p)| + 4;
    TwoPackets(p, e);
    assert w2.queue == [p, e] && w3.vec == PacketBytes(p) + e.prefix.value;
    var w4 := Write(w3, n);
    run, steps := [START, w1, w2, w3, w4], [Queue(p), Queue(e), Vector, Sent(n)];
    FourSteps(run, steps);
  }

  /** A record and END: both fit in the vector, and freeing up to the middle of END pops both. */
  lemma TwoPackets(p: Packet, e: Packet)
    requires p.prefix.Some? && p.prefix.value != [] && !p.end
    requires e.prefix.Some? && |e.prefix.value| == 8 && e.content == [] && e.end
    ensures [p] + [e] == [p, e] && [p, e][..2] == [p, e]
    ensures Taken([p, e], 0) == 2 && QueueBytes([p, e]) == PacketBytes(p) + e.prefix.value
    ensures Freed([p, e], |PacketBytes(p)| + 4) == [] && PacketBytes(p) != [] && QueueBytes([]) == []
  {
    var q := [p, e];
    assert q[1..] == [e] && [e][1..] == [] && [e][0] == e && [p][0] == p;
    assert Taken([e], Slots(p)) == 1 + Taken([], Slots(p) + Slots(e));
    assert QueueBytes([e]) == PacketBytes(e) + QueueBytes([]) == e.prefix.value;
    assert [p] + [e] == q;
    assert ValidQueue([p]) && NoEnd([p]);
    assert QueueBytes([p]) == PacketBytes(p) + QueueBytes([]);
    FreedToEnd([p], e, |PacketBytes(p)| + 4);
  }

  // ---- Facts the connector's send loop uses ----

  lemma NoLossBeforeEnd(w: Wire)
    requires Ok(w)
    ensures ValidQueue(w.queue)
    ensures !w.endQueued ==> w.lost == []
    ensures EndSafe(w) ==> w.lost == []
    ensures |w.sent| + |w.vec| <= |w.queued|
    ensures w.queue != [] ==> !w.endFreed
  {
    if !w.endFreed {
      CoverBound(w.queue, w.covered);
    }
  }

  /** With an empty vector and END still queued, END is not yet safe. */
  lemma EmptyVectorIsNotSafe(w: Wire)
    requires Ok(w) && EndHasBytes(w) && !w.endFreed && w.vec == []
    ensures !EndSafe(w)
  {
    assert w.queue[..|w.queue|] == w.queue;
    if w.endQueued {
      EndSplit(w.queue);
    }
  }

  lemma WriteFacts(w: Wire, n: nat)
    requires Ok(w) && EndHasBytes(w) && 0 < n <= |w.vec|
    ensures Ok(Write(w, n)) && EndHasBytes(Write(w, n))
    ensures Write(w, n).queued == w.queued && Write(w, n).endQueued == w.endQueued
    ensures Write(w, n).sent == w.sent + w.vec[..n]
    ensures EndSafe(w) ==> EndSafe(Write(w, n))
  {
    SentKeepsOk(w, n);
    if EndSafe(w) {
      StepKeepsEndSafe(w, Sent(n));
    }
  }

  lemma DiscardFacts(w: Wire)
    requires Ok(w) && !w.endFreed && w.vec == [] && QueueBytes(w.queue) == []
    ensures Ok(Discard(w)) && EndHasBytes(Discard(w)) && Discard(w).queue == Freed(w.queue, 0) == []
    ensures Discard(w).vec == [] && Discard(w).queued == w.queued && Discard(w).endQueued == w.endQueued
    ensures Discard(w).sent == w.sent
  {
    DiscardOk(w);
  }

  lemma EmptyVector(entries: seq<seq<byte>>)
    requires forall i :: 0 <= i < |entries| ==> entries[i] != []
    ensures Flatten(entries) == [] <==> entries == []
  {
  }
}
