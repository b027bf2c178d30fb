/**
  The FastCGI record format (FastCGI Specification 1.0, section 3.3) and a reader for it
  that is independent of how this server writes or parses records.
 */
module FastRecords {
  import opened Bytes

  const FAST_VERSION: byte := 1
  const FAST_BEGIN_REQUEST: byte := 1
  const FAST_ABORT_REQUEST: byte := 2
  const FAST_END_REQUEST: byte := 3
  const FAST_PARAMS: byte := 4
  const FAST_STDIN: byte := 5
  const FAST_STDOUT: byte := 6
  const FAST_STDERR: byte := 7
  const FAST_PACKET_SIZE: nat := 8
  const FAST_MAX_RECORD: nat := 65528

  /** One record on the wire. The padding and reserved bytes carry no meaning but do occupy the stream. */
  datatype Record = Record(kind: byte, id: nat, content: seq<byte>, padding: seq<byte>, reserved: byte)

  predicate ValidRecord(r: Record) {
    r.id < 0x10000 && |r.content| < 0x10000 && |r.padding| < 0x100
  }

  function Header(kind: byte, id: nat, length: nat, pad: nat, reserved: byte): (h: seq<byte>)
    requires id < 0x10000 && length < 0x10000 && pad < 0x100
    ensures |h| == FAST_PACKET_SIZE
  {
    [FAST_VERSION, kind, id / 256, id % 256, length / 256, length % 256, pad, reserved]
  }

  function RecordBytes(r: Record): (b: seq<byte>)
    requires ValidRecord(r)
    ensures |b| == FAST_PACKET_SIZE + |r.content| + |r.padding|
  {
    Header(r.kind, r.id, |r.content|, |r.padding|, r.reserved) + r.content + r.padding
  }

  /** Section 3.3, byte by byte: version 1, type, request id and content length with the high byte first, padding length. */
  lemma RecordLayout(r: Record)
    requires ValidRecord(r)
    ensures var b, n := RecordBytes(r), |r.content|;
            && |b| == 8 + n + |r.padding| && b[0] == 1 && b[1] == r.kind
            && (b[2] as int) * 256 + b[3] == r.id && (b[4] as int) * 256 + b[5] == n && b[6] == |r.padding| && b[7] == r.reserved
            && b[8..8 + n] == r.content && b[8 + n..] == r.padding
  {
  }

  ghost predicate AllValid(rs: seq<Record>) {
    forall i :: 0 <= i < |rs| ==> ValidRecord(rs[i])
  }

  function StreamBytes(rs: seq<Record>): seq<byte>
    requires AllValid(rs)
  {
    if rs == [] then [] else RecordBytes(rs[0]) + StreamBytes(rs[1..])
  }

  lemma {:induction false} StreamBytesAppend(a: seq<Record>, b: seq<Record>)
    requires AllValid(a) && AllValid(b)
    ensures StreamBytes(a + b) == StreamBytes(a) + StreamBytes(b)
  {
    if a == [] {
      assert a + b == b;
    } else {
      assert (a + b)[1..] == a[1..] + b;
      StreamBytesAppend(a[1..], b);
    }
  }

  lemma StreamBytesOne(a: seq<Record>, r: Record)
    requires AllValid(a) && ValidRecord(r)
    ensures StreamBytes(a + [r]) == StreamBytes(a) + RecordBytes(r)
  {
    StreamBytesAppend(a, [r]);
    assert StreamBytes([r]) == RecordBytes(r) + StreamBytes([]);
  }

  // ---- The section 3.3 reader ----

  datatype ReadResult = More | Bad | Got(record: Record, rest: seq<byte>)

  /** Read one record from the front of a byte stream. */
  function ReadRecord(b: seq<byte>): (r: ReadResult)
    ensures r.Got? ==> ValidRecord(r.record) && b == RecordBytes(r.record) + r.rest
  {
    if |b| < FAST_PACKET_SIZE then More
    else if b[0] != FAST_VERSION then Bad
    else
      var length := Be16(b[4], b[5]);
      var total := FAST_PACKET_SIZE + length + b[6];
      if |b| < total then More
      else
        var rec := Record(b[1], Be16(b[2], b[3]), b[8..8 + length], b[8 + length..total], b[7]);
        assert b == b[..8] + b[8..8 + length] + b[8 + length..total] + b[total..];
        assert b[..8] == Header(rec.kind, rec.id, |rec.content|, |rec.padding|, rec.reserved);
        Got(rec, b[total..])
  }

  /** The header's fields come back from its eight bytes. */
  lemma HeaderFields(kind: byte, id: nat, length: nat, pad: nat, reserved: byte)
    requires id < 0x10000 && length < 0x10000 && pad < 0x100
    ensures var h := Header(kind, id, length, pad, reserved);
            h[0] == FAST_VERSION && h[1] == kind && Be16(h[2], h[3]) == id && Be16(h[4], h[5]) == length && h[6] == pad && h[7] == reserved
  {
  }

  /** Three parts in front of a rest, cut at their lengths. */
  lemma CutParts(h: seq<byte>, c: seq<byte>, p: seq<byte>, rest: seq<byte>)
    ensures var b := h + c + p + rest;
            && (forall i :: 0 <= i < |h| ==> b[i] == h[i])
            && b[|h|..|h| + |c|] == c && b[|h| + |c|..|h| + |c| + |p|] == p && b[|h| + |c| + |p|..] == rest
  {
    var b := h + c + p + rest;
    assert b == h + (c + (p + rest));
  }

  /** The reader takes back any record, whatever follows it. */
  lemma ReadRecordOfBytes(r: Record, rest: seq<byte>)
    requires ValidRecord(r)
    ensures ReadRecord(RecordBytes(r) + rest) == Got(r, rest)
  {
    var h := Header(r.kind, r.id, |r.content|, |r.padding|, r.reserved);
    HeaderFields(r.kind, r.id, |r.content|, |r.padding|, r.reserved);
    CutParts(h, r.content, r.padding, rest);
    assert RecordBytes(r) == h + r.content + r.padding;
    hide Header, RecordBytes, Be16;
  }

  /** Every complete record at the front of the stream. */
  function ReadAll(b: seq<byte>): seq<Record>
    decreases |b|
  {
    match ReadRecord(b)
    case Got(r, rest) => [r] + ReadAll(rest)
    case _ => []
  }

  /** Reading back a stream of records gives those records: the format loses nothing. */
  lemma {:induction false} ReadAllOfStream(rs: seq<Record>)
    requires AllValid(rs)
    ensures ReadAll(StreamBytes(rs)) == rs
  {
    hide ReadRecord;
    hide RecordBytes;
    if rs != [] {
      ReadRecordOfBytes(rs[0], StreamBytes(rs[1..]));
      ReadAllOfStream(rs[1..]);
    }
  }
}
