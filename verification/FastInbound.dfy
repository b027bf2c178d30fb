/**
  The incremental record parser of fastConnectorIncomingService: what it delivers and keeps, for any way the app's
  bytes are cut into socket reads.
 */
module FastInbound {
  import opened Bytes
  import opened FastRecords

  /** The header checks: version, a known type that an app may send, and this request's ID. */
  predicate HeaderOk(id: nat, b: seq<byte>)
    requires |b| >= FAST_PACKET_SIZE
  {
    && b[0] == FAST_VERSION
    && (b[1] == FAST_STDOUT || b[1] == FAST_STDERR || b[1] == FAST_END_REQUEST)
    && Be16(b[2], b[3]) == id
  }

  /** A record this parser accepts. */
  predicate Acceptable(id: nat, r: Record) {
    ValidRecord(r) && r.id == id && (r.kind == FAST_STDOUT || r.kind == FAST_STDERR || r.kind == FAST_END_REQUEST)
  }

  /** records: delivered in order. rest: bytes put back. bad: a bad header was seen and the connection given up. */
  datatype Parsed = Parsed(records: seq<Record>, rest: seq<byte>, bad: bool)

  /** Parse everything at once. Each step takes at least the eight header bytes or stops. */
  function ParseStream(id: nat, b: seq<byte>): Parsed
    decreases |b|
  {
    if |b| < FAST_PACKET_SIZE then Parsed([], b, false)
    else if !HeaderOk(id, b) then Parsed([], [], true)
    else match ReadRecord(b)
      case Got(r, rest) =>
        var p := ParseStream(id, rest);
        Parsed([r] + p.records, p.rest, p.bad)
      case _ => Parsed([], b, false)
  }

  lemma ParseShort(id: nat, b: seq<byte>)
    requires |b| < FAST_PACKET_SIZE
    ensures ParseStream(id, b) == Parsed([], b, false)
  {
  }

  lemma ParseBad(id: nat, b: seq<byte>)
    requires |b| >= FAST_PACKET_SIZE && !HeaderOk(id, b)
    ensures ParseStream(id, b) == Parsed([], [], true)
  {
  }

  lemma ParseMore(id: nat, b: seq<byte>)
    requires |b| >= FAST_PACKET_SIZE && HeaderOk(id, b) && !ReadRecord(b).Got?
    ensures ParseStream(id, b) == Parsed([], b, false)
  {
  }

  lemma ParseGot(id: nat, b: seq<byte>)
    requires |b| >= FAST_PACKET_SIZE && HeaderOk(id, b) && ReadRecord(b).Got?
    ensures |ReadRecord(b).rest| < |b|
    ensures var p := ParseStream(id, ReadRecord(b).rest);
            ParseStream(id, b) == Parsed([ReadRecord(b).record] + p.records, p.rest, p.bad)
  {
  }

  /** When a record behind a good header is complete, and what it holds. */
  lemma RecordIsComplete(id: nat, b: seq<byte>)
    requires |b| >= FAST_PACKET_SIZE && HeaderOk(id, b)
    ensures ReadRecord(b).Got? <==> |b| - FAST_PACKET_SIZE >= Be16(b[4], b[5]) + b[6]
    ensures var length := Be16(b[4], b[5]);
            ReadRecord(b).Got? ==>
              && ReadRecord(b).record.kind == b[1] && ReadRecord(b).record.content == b[8..8 + length]
              && ReadRecord(b).rest == b[8 + length + b[6]..]
  {
  }

  /** One pass of the record loop. */
  lemma ParseStep(id: nat, b: seq<byte>)
    ensures |b| < FAST_PACKET_SIZE ==> ParseStream(id, b) == Parsed([], b, false)
    ensures |b| >= FAST_PACKET_SIZE && !HeaderOk(id, b) ==> ParseStream(id, b) == Parsed([], [], true)
    ensures |b| >= FAST_PACKET_SIZE && HeaderOk(id, b) ==>
              var length := Be16(b[4], b[5]);
              if |b| - FAST_PACKET_SIZE < length + b[6] then ParseStream(id, b) == Parsed([], b, false)
              else
                && ReadRecord(b).Got? && ReadRecord(b).record.kind == b[1]
                && ReadRecord(b).record.content == b[8..8 + length] && ReadRecord(b).rest == b[8 + length + b[6]..]
                && (var p := ParseStream(id, ReadRecord(b).rest);
                    ParseStream(id, b) == Parsed([ReadRecord(b).record] + p.records, p.rest, p.bad))
  {
    hide ParseStream, ReadRecord, HeaderOk, Be16;
    if |b| < FAST_PACKET_SIZE {
      ParseShort(id, b);
    } else if !HeaderOk(id, b) {
      ParseBad(id, b);
    } else {
      RecordIsComplete(id, b);
      if ReadRecord(b).Got? {
        ParseGot(id, b);
      } else {
        ParseMore(id, b);
      }
    }
  }

  /** Parse as reads arrive, each read being joined to the bytes put back, until a bad header. */
  function ParseReads(id: nat, kept: seq<byte>, arrivals: seq<seq<byte>>): Parsed
    decreases |arrivals|
  {
    if arrivals == [] then Parsed([], kept, false)
    else
      var p := ParseStream(id, kept + arrivals[0]);
      if p.bad then p
      else
        var q := ParseReads(id, p.rest, arrivals[1..]);
        Parsed(p.records + q.records, q.rest, q.bad)
  }

  lemma ReadRecordPrefix(b: seq<byte>, more: seq<byte>)
    requires ReadRecord(b).Got?
    ensures ReadRecord(b + more) == Got(ReadRecord(b).record, ReadRecord(b).rest + more)
  {
    var r, rest := ReadRecord(b).record, ReadRecord(b).rest;
    assert b + more == RecordBytes(r) + (rest + more);
    ReadRecordOfBytes(r, rest + more);
  }

  /** Bytes that arrive later do not change what was already parsed. */
  lemma {:induction false} ParseSplit(id: nat, b: seq<byte>, more: seq<byte>)
    ensures var p := ParseStream(id, b);
            ParseStream(id, b + more) ==
            if p.bad then p
            else Parsed(p.records + ParseStream(id, p.rest + more).records,
                        ParseStream(id, p.rest + more).rest, ParseStream(id, p.rest + more).bad)
    decreases |b|
  {
    hide RecordBytes, ReadRecord, HeaderOk, ParseStream;
    if |b| < FAST_PACKET_SIZE {
      ParseShort(id, b);
    } else {
      HeaderOkPrefix(id, b, more);
      if !HeaderOk(id, b) {
        ParseBad(id, b);
        ParseBad(id, b + more);
      } else if ReadRecord(b).Got? {
        var r, rest := ReadRecord(b).record, ReadRecord(b).rest;
        ReadRecordPrefix(b, more);
        ParseGot(id, b);
        ParseGot(id, b + more);
        ParseSplit(id, rest, more);
        var p, q := ParseStream(id, rest), ParseStream(id, ParseStream(id, rest).rest + more);
        assert [r] + (p.records + q.records) == ([r] + p.records) + q.records;
      } else {
        ParseMore(id, b);
      }
    }
    if ParseStream(id, b).records == [] {
      assert [] + ParseStream(id, b + more).records == ParseStream(id, b + more).records;
    }
  }

  lemma HeaderOkPrefix(id: nat, b: seq<byte>, more: seq<byte>)
    requires |b| >= FAST_PACKET_SIZE
    ensures HeaderOk(id, b + more) == HeaderOk(id, b)
  {
  }

  /** However the stream is cut into reads, the same records are delivered and the same bytes are kept. */
  lemma {:induction false} ReadsEqualBatch(id: nat, kept: seq<byte>, arrivals: seq<seq<byte>>)
    requires ParseStream(id, kept) == Parsed([], kept, false)
    ensures ParseReads(id, kept, arrivals) == ParseStream(id, kept + Flatten(arrivals))
    decreases |arrivals|
  {
    if arrivals == [] {
      assert kept + Flatten(arrivals) == kept;
    } else {
      var b := kept + arrivals[0];
      var p := ParseStream(id, b);
      assert kept + Flatten(arrivals) == b + Flatten(arrivals[1..]);
      ParseSplit(id, b, Flatten(arrivals[1..]));
      if !p.bad {
        KeptIsIncomplete(id, b);
        ReadsEqualBatch(id, p.rest, arrivals[1..]);
      }
    }
  }

  /** The bytes kept are exactly the unparsed suffix, and no complete record is left in them. */
  lemma {:induction false} KeptIsIncomplete(id: nat, b: seq<byte>)
    requires !ParseStream(id, b).bad
    ensures var p := ParseStream(id, b);
            && (forall i :: 0 <= i < |p.records| ==> Acceptable(id, p.records[i]))
            && AllValid(p.records) && b == StreamBytes(p.records) + p.rest
            && ParseStream(id, p.rest) == Parsed([], p.rest, false)
    decreases |b|
  {
    hide RecordBytes, ReadRecord, HeaderOk, ParseStream, Acceptable, StreamBytes, AllValid;
    NoRecords();
    if |b| < FAST_PACKET_SIZE {
      ParseShort(id, b);
      assert [] + b == b;
    } else if !HeaderOk(id, b) {
      ParseBad(id, b);
    } else if ReadRecord(b).Got? {
      var r, rest := ReadRecord(b).record, ReadRecord(b).rest;
      ParseGot(id, b);
      AcceptedHeader(id, b);
      KeptIsIncomplete(id, rest);
      var p := ParseStream(id, rest);
      OneMoreRecord(r, p.records);
      assert RecordBytes(r) + (StreamBytes(p.records) + p.rest) == RecordBytes(r) + StreamBytes(p.records) + p.rest;
    } else {
      ParseMore(id, b);
      assert [] + b == b;
    }
  }

  lemma NoRecords()
    ensures AllValid([]) && StreamBytes([]) == []
  {
  }

  lemma OneMoreRecord(r: Record, rs: seq<Record>)
    requires ValidRecord(r) && AllValid(rs)
    ensures AllValid([r] + rs) && StreamBytes([r] + rs) == RecordBytes(r) + StreamBytes(rs)
  {
    hide RecordBytes;
    assert ([r] + rs)[1..] == rs;
  }

  lemma AcceptedHeader(id: nat, b: seq<byte>)
    requires |b| >= FAST_PACKET_SIZE && ReadRecord(b).Got?
    ensures HeaderOk(id, b) <==> Acceptable(id, ReadRecord(b).record)
  {
  }

  /** A stream of acceptable records is parsed completely. */
  lemma {:induction false} StreamIsParsed(id: nat, rs: seq<Record>)
    requires AllValid(rs) && forall i :: 0 <= i < |rs| ==> Acceptable(id, rs[i])
    ensures ParseStream(id, StreamBytes(rs)) == Parsed(rs, [], false)
  {
    hide ReadRecord, HeaderOk, RecordBytes, ParseStream, Acceptable;
    if rs == [] {
      ParseShort(id, []);
    } else {
      var b := RecordBytes(rs[0]) + StreamBytes(rs[1..]);
      ReadRecordOfBytes(rs[0], StreamBytes(rs[1..]));
      AcceptedHeader(id, b);
      ParseGot(id, b);
      StreamIsParsed(id, rs[1..]);
      assert [rs[0]] + rs[1..] == rs;
    }
  }
}
