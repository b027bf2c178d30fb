/** The response parser as it runs: in place on the packet buffer, cutting tokens out of it with NULs. */
module CgiBuffer {
  import opened Bytes
  import opened CgiText
  import opened CgiResponse

  lemma Window(all: seq<byte>, start: nat, end: nat, i: nat, n: nat)
    requires start + i + n <= end <= |all|
    ensures all[start..end][i..][..n] == all[start + i..start + i + n]
  {
  }

  lemma Cut(all: seq<byte>, start: nat, end: nat, k: nat)
    requires start + k < end <= |all|
    ensures all[start..start + k] == all[start..end][..k]
    ensures all[start + k := NUL][start + k + 1..end] == all[start..end][k + 1..]
    ensures forall j :: start <= j <= start + k ==> all[j] == all[start..end][j - start]
  {
  }

  lemma FindEdges(s: seq<byte>, pattern: seq<byte>)
    ensures s == [] || s[0] == NUL ==> Find(s, pattern) == None
    ensures s != [] && s[0] != NUL && StartsWith(s, pattern) ==> Find(s, pattern) == Some(0)
  {
  }

  /** An MprBuf. There is always room for the NUL that the parser puts after the content. */
  class MprBuf {
    const data: array<byte>
    var start: nat
    var end: nat

    ghost predicate Valid()
      reads this
    {
      start <= end < data.Length
    }

    ghost function Contents(): seq<byte>
      requires Valid()
      reads this, data
    {
      data[start..end]
    }

    constructor (content: seq<byte>, space: nat)
      requires space > 0
      ensures Valid() && fresh(data) && Contents() == content
    {
      data := new byte[|content| + space](i requires 0 <= i => if i < |content| then content[i] else NUL);
      start, end := 0, |content|;
      new;
      assert data[0..|content|] == content;
    }

    /** sncontains over the content: the offset of the first match before any NUL, or -1. */
    method SnContains(pattern: seq<byte>) returns (k: int)
      requires Valid() && pattern != []
      ensures k == match Find(Contents(), pattern) case None => -1 case Some(i) => i
    {
      hide Find;
      var i := 0;
      ghost var s := Contents();
      assert s[0..] == s;
      while i < end - start
        invariant 0 <= i <= |s| == end - start
        invariant Find(s, pattern) == match Find(s[i..], pattern) case None => None case Some(j) => Some(i + j)
      {
        assert s[i..][0] == data[start + i];
        if data[start + i] == NUL {
          FindEdges(s[i..], pattern);
          return -1;
        }
        if i + |pattern| <= end - start {
          Window(data[..], start, end, i, |pattern|);
          if data[start + i..start + i + |pattern|] == pattern {
            FindEdges(s[i..], pattern);
            return i;
          }
        }
        assert s[i..][1..] == s[i + 1..];
        FindStep(s[i..], pattern);
        i := i + 1;
      }
      FindEdges(s[i..], pattern);
      k := -1;
    }

    /** The C string at the start of the content. */
    method StringAtStart() returns (token: seq<byte>)
      requires Valid()
      ensures token == CString(Contents())
    {
      token := [];
      var i := start;
      assert data[start..end][0..] == Contents();
      while i < end && data[i] != NUL
        invariant start <= i <= end
        invariant token + CString(data[i..end]) == CString(Contents())
        decreases end - i
      {
        assert data[i..end][0] == data[i] && data[i..end][1..] == data[i + 1..end];
        token := token + [data[i]];
        i := i + 1;
      }
      if i < end {
        assert data[i..end][0] == NUL;
      }
      assert CString(data[i..end]) == [];
    }

    /** Put a NUL at offset k of the content and move past it. */
    method CutAt(k: nat) returns (token: seq<byte>)
      requires Valid() && start + k < end
      modifies this`start, data
      ensures Valid() && start == old(start) + k + 1
      ensures token == old(Contents())[..k] && Contents() == old(Contents())[k + 1..]
      ensures forall j :: 0 <= j < data.Length && j != start - 1 ==> data[j] == old(data[j])
      ensures forall j :: old(start) <= j < start ==> old(data[j]) == old(Contents())[j - old(start)]
    {
      Cut(data[..], start, end, k);
      assert data[..][start..end] == Contents();
      token := data[start..start + k];
      data[start + k] := NUL;
      start := start + k + 1;
      assert data[..] == old(data[..])[old(start) + k := NUL];
      assert data[start..end] == data[..][start..end];
    }

    /** The C string at the start, and nothing left. */
    method TakeString() returns (token: seq<byte>)
      requires Valid()
      modifies this`start
      ensures Valid() && start == end && token == CString(old(Contents())) && Contents() == []
    {
      token := StringAtStart();
      start := end;
      assert data[end..end] == [];
    }

    /** The token before a delimiter that was found at offset k. */
    method CutToken(delim: byte, k: nat) returns (token: seq<byte>)
      requires Valid() && delim != NUL && Find(Contents(), [delim]) == Some(k)
      modifies this`start, data
      ensures Valid() && token == GetToken(old(Contents()), delim).0 && Contents() == GetToken(old(Contents()), delim).1
      ensures start == old(start) + |token| + 1
      ensures forall j :: 0 <= j < data.Length && j != start - 1 ==> data[j] == old(data[j])
      ensures forall j :: old(start) <= j < start ==> old(data[j]) != NUL
    {
      hide Find, GetToken;
      ghost var s := Contents();
      GetTokenFound(s, delim, k);
      token := CutAt(k);
      assert forall j :: old(start) <= j < start ==> old(data[j]) == s[j - old(start)];
    }

    /** getToken: cut at the delimiter with a NUL and move past it, or take everything. */
    method GetTokenInPlace(delim: byte) returns (token: seq<byte>, ghost found: bool)
      requires Valid() && delim != NUL
      modifies this`start, data
      ensures Valid() && token == GetToken(old(Contents()), delim).0 && Contents() == GetToken(old(Contents()), delim).1
      ensures found ==> start == old(start) + |token| + 1
      ensures found ==> forall j :: 0 <= j < data.Length && j != start - 1 ==> data[j] == old(data[j])
      ensures found ==> forall j :: old(start) <= j < start ==> old(data[j]) != NUL
      ensures !found ==> start == end && data[..] == old(data[..])
    {
      hide Find, GetToken, CString, Contents;
      var k := SnContains([delim]);
      found := k >= 0;
      if k >= 0 {
        token := CutToken(delim, k);
      } else {
        GetTokenAbsent(Contents(), delim);
        token := TakeString();
      }
    }
  }

  /** Skip leading white space of a value and cut its trailing CR and LF. */
  method TrimValue(text: seq<byte>) returns (value: seq<byte>)
    ensures value == TrimEol(SkipSpace(text))
  {
    value := text;
    while |value| > 0 && IsSpace(value[0])
      invariant SkipSpace(value) == SkipSpace(text)
      decreases |value|
    {
      value := value[1..];
    }
    while |value| > 0 && IsEol(value[|value| - 1])
      invariant TrimEol(value) == TrimEol(SkipSpace(text))
      decreases |value|
    {
      value := value[..|value| - 1];
    }
  }

  /** schr(value, '\r') || schr(value, '\n'). */
  method ContainsEol(value: seq<byte>) returns (found: bool)
    ensures found == HasEol(value)
  {
    for i := 0 to |value|
      invariant forall j :: 0 <= j < i ==> !IsEol(value[j])
    {
      if IsEol(value[i]) {
        return true;
      }
    }
    found := false;
  }

  /** The content still to parse lies before the NUL that replaced the end of the header block, or is used up. */
  ghost predicate InBlock(buf: MprBuf, nul: nat)
    reads buf, buf.data
  {
    buf.Valid() && nul < buf.end && buf.data[nul] == NUL && (buf.start <= nul || buf.start == buf.end)
  }

  ghost predicate SameFrom(now: seq<byte>, before: seq<byte>, from: nat) {
    |now| == |before| && forall j :: from <= j < |now| ==> now[j] == before[j]
  }

  /** getToken. Cutting tokens out of a block leaves everything from the block's NUL onwards alone. */
  method NextToken(buf: MprBuf, delim: byte, ghost nul: nat) returns (token: seq<byte>)
    requires buf.Valid() && delim != NUL
    modifies buf`start, buf.data
    ensures buf.Valid()
    ensures old(InBlock(buf, nul)) ==> InBlock(buf, nul) && SameFrom(buf.data[..], old(buf.data[..]), nul)
    ensures token == GetToken(old(buf.Contents()), delim).0 && buf.Contents() == GetToken(old(buf.Contents()), delim).1
  {
    hide GetToken;
    ghost var found;
    token, found := buf.GetTokenInPlace(delim);
    if old(InBlock(buf, nul)) && found {
      assert old(buf.start) <= nul ==> buf.start <= nul;
    }
  }

  /** One field line, in place: its effect, or none if it is refused. */
  method ParseFieldInPlace(buf: MprBuf, ghost nul: nat) returns (op: Option<Op>)
    requires InBlock(buf, nul) && FieldAhead(buf.Contents())
    modifies buf`start, buf.data
    ensures InBlock(buf, nul) && SameFrom(buf.data[..], old(buf.data[..]), nul)
    ensures op.None? ==> ParseFields(old(buf.Contents())) == Fields([], false)
    ensures op.Some? ==>
              && |buf.Contents()| < |old(buf.Contents())|
              && var more := ParseFields(buf.Contents());
                 ParseFields(old(buf.Contents())) == Fields([op.value] + more.ops, more.ok)
  {
    hide GetToken, FieldOp, IsToken, TrimEol, SkipSpace, HasEol, SameFrom, ParseFields;
    ghost var r, before := buf.Contents(), buf.data[..];
    var key := NextToken(buf, COLON, nul);
    ghost var between := buf.data[..];
    if !IsToken(key) {
      BadName(r);
      return None;
    }
    var text := NextToken(buf, LF, nul);
    SameFromThen(buf.data[..], between, before, nul);
    var value := TrimValue(text);
    ParseFieldsStep(r, key, text, buf.Contents(), value);
    var bad := ContainsEol(value);
    if bad {
      return None;
    }
    op := FieldOp(key, value);
  }

  /** The field loop, in place. Ops are applied as they are met; ok is false at the first bad line. */
  method ParseFieldsInPlace(buf: MprBuf, ghost nul: nat) returns (fields: Fields)
    requires InBlock(buf, nul)
    modifies buf`start, buf.data
    ensures InBlock(buf, nul) && SameFrom(buf.data[..], old(buf.data[..]), nul)
    ensures fields == ParseFields(old(buf.Contents()))
  {
    hide SameFrom, ParseFields;
    var ops: seq<Op> := [];
    ghost var whole, data := buf.Contents(), buf.data[..];
    SameFromItself(data, nul);
    assert [] + ParseFields(whole).ops == ParseFields(whole).ops;
    while buf.end - buf.start > 0 && buf.data[buf.start] != NUL && !IsEol(buf.data[buf.start])
      invariant InBlock(buf, nul) && SameFrom(buf.data[..], data, nul)
      invariant ParseFields(whole) == Fields(ops + ParseFields(buf.Contents()).ops, ParseFields(buf.Contents()).ok)
      decreases |buf.Contents()|
    {
      ghost var before := buf.data[..];
      var op := ParseFieldInPlace(buf, nul);
      SameFromThen(buf.data[..], before, data, nul);
      assert ops + [] == ops;
      if op.None? {
        return Fields(ops, false);
      }
      ghost var more := ParseFields(buf.Contents()).ops;
      assert ops + ([op.value] + more) == (ops + [op.value]) + more;
      ops := ops + [op.value];
    }
    FieldsEnd(buf.Contents());
    assert ops + [] == ops;
    fields := Fields(ops, true);
  }

  lemma FieldsEnd(r: seq<byte>)
    requires !FieldAhead(r)
    ensures ParseFields(r) == Fields([], true)
  {
  }

  lemma SameFromItself(a: seq<byte>, nul: nat)
    ensures SameFrom(a, a, nul)
  {
  }

  lemma SameFromThen(a: seq<byte>, b: seq<byte>, c: seq<byte>, nul: nat)
    requires SameFrom(a, b, nul) && SameFrom(b, c, nul)
    ensures SameFrom(a, c, nul)
  {
  }

  lemma BadName(r: seq<byte>)
    requires FieldAhead(r) && !IsToken(GetToken(r, COLON).0)
    ensures ParseFields(r) == Fields([], false)
  {
  }

  /** parseStatusLine, in place. */
  method ParseStatusLineInPlace(buf: MprBuf, ghost nul: nat) returns (code: Option<nat>)
    requires buf.Valid()
    modifies buf`start, buf.data
    ensures buf.Valid()
    ensures old(InBlock(buf, nul)) ==> InBlock(buf, nul) && SameFrom(buf.data[..], old(buf.data[..]), nul)
    ensures match ParseStatusLine(old(buf.Contents()))
            case None => code == None
            case Some((status, rest)) => code == Some(status) && buf.Contents() == rest
  {
    hide GetToken;
    hide ParseStatus;
    hide InBlock;
    var protocol := NextToken(buf, SPACE, nul);
    var text := NextToken(buf, LF, nul);
    code := ParseStatus(TrimCr(text));
    if code.Some? && code.value < HTTP_CODE_OK {
      code := None;
    }
  }

  lemma ParseNoBlock(b: seq<byte>, eof: bool)
    requires Terminator(b) == None
    ensures Parse(b, eof) ==
            if !eof && |b| < ME_MAX_HEADERS then NeedMore
            else if !StartsWith(b, HTTP_1) then Done([], b)
            else match ParseStatusLine(b)
              case None => Fail([])
              case Some((code, rest)) => Done([SetStatus(code)], rest)
  {
  }

  /** maParseCgiResponse: the outcome, with the buffer left at the body, or as it was when more is needed. */
  method MaParseCgiResponse(buf: MprBuf, eof: bool) returns (outcome: Outcome)
    requires buf.Valid()
    modifies buf`start, buf.data
    ensures buf.Valid() && outcome == Parse(old(buf.Contents()), eof)
    ensures outcome.Done? ==> buf.Contents() == outcome.body
    ensures outcome.NeedMore? ==> buf.start == old(buf.start) && buf.Contents() == old(buf.Contents())
  {
    hide Parse;
    hide ParseFields;
    hide ParseStatusLine;
    hide StartsWithHeader;
    hide Find;
    ghost var b := buf.Contents();
    buf.data[buf.end] := NUL;
    assert buf.Contents() == b;
    var p := buf.SnContains(CRLFCRLF);
    var len := 4;
    if p < 0 {
      p := buf.SnContains(LFLF);
      len := 2;
    }
    var statusLine := buf.end - buf.start >= |HTTP_1| && buf.data[buf.start..buf.start + |HTTP_1|] == HTTP_1;
    assert statusLine == StartsWith(b, HTTP_1) by {
      if |b| >= |HTTP_1| { assert b[..|HTTP_1|] == buf.data[buf.start..buf.start + |HTTP_1|]; }
    }
    if p < 0 {
      outcome := ParseWithoutBlock(buf, eof, statusLine);
    } else {
      ParseBlockOutcome(b, eof, p, len);
      var content := buf.data[buf.start..buf.end];
      if !statusLine && !StartsWithHeader(content[..p]) {
        return Done([], content);
      }
      outcome := ParseWithBlock(buf, statusLine, p, len);
    }
  }

  /** Output without the end of a header block. */
  method ParseWithoutBlock(buf: MprBuf, eof: bool, statusLine: bool) returns (outcome: Outcome)
    requires buf.Valid() && Terminator(buf.Contents()) == None && statusLine == StartsWith(buf.Contents(), HTTP_1)
    modifies buf`start, buf.data
    ensures buf.Valid() && outcome == Parse(old(buf.Contents()), eof)
    ensures outcome.Done? ==> buf.Contents() == outcome.body
    ensures outcome.NeedMore? ==> buf.start == old(buf.start) && buf.Contents() == old(buf.Contents())
  {
    hide Parse;
    hide ParseStatusLine;
    hide Terminator;
    hide StartsWith;
    ParseNoBlock(buf.Contents(), eof);
    if !eof && buf.end - buf.start < ME_MAX_HEADERS {
      return NeedMore;
    }
    if !statusLine {
      return Done([], buf.data[buf.start..buf.end]);
    }
    var code := ParseStatusLineInPlace(buf, 0);
    if code.None? {
      return Fail([]);
    }
    outcome := Done([SetStatus(code.value)], buf.data[buf.start..buf.end]);
  }

  /** Output whose header block ends at offset p with a terminator of the given length. */
  method ParseWithBlock(buf: MprBuf, statusLine: bool, p: nat, len: nat) returns (outcome: Outcome)
    requires buf.Valid() && len >= 1 && buf.start + p + len <= buf.end
    modifies buf`start, buf.data
    ensures var b := old(buf.Contents());
            var r := b[p + len - 1 := NUL];
            outcome == if statusLine && ParseStatusLine(r).None? then Fail([])
                       else
                         var ops := if statusLine then [SetStatus(ParseStatusLine(r).value.0)] else [];
                         var fields := ParseFields(if statusLine then ParseStatusLine(r).value.1 else r);
                         if fields.ok then Done(ops + fields.ops, b[p + len..]) else Fail(ops + fields.ops)
    ensures buf.Valid() && (outcome.Done? ==> buf.Contents() == outcome.body)
    ensures !outcome.NeedMore?
  {
    hide ParseFields;
    hide ParseStatusLine;
    ghost var b := buf.Contents();
    var endHeaders := buf.start + p + len;
    buf.data[endHeaders - 1] := NUL;
    ghost var nul := endHeaders - 1;
    assert buf.Contents() == b[p + len - 1 := NUL];
    assert buf.data[endHeaders..buf.end] == b[p + len..];
    ghost var before := buf.data[..];
    assert before[endHeaders..buf.end] == b[p + len..];
    var ops: seq<Op> := [];
    if statusLine {
      var code := ParseStatusLineInPlace(buf, nul);
      if code.None? {
        return Fail([]);
      }
      ops := [SetStatus(code.value)];
    }
    var fields := ParseFieldsInPlace(buf, nul);
    ops := ops + fields.ops;
    if !fields.ok {
      return Fail(ops);
    }
    buf.start := endHeaders;
    assert SameFrom(buf.data[..], before, nul);
    assert buf.data[..][endHeaders..buf.end] == before[endHeaders..buf.end];
    assert buf.data[endHeaders..buf.end] == buf.data[..][endHeaders..buf.end];
    outcome := Done(ops, buf.data[buf.start..buf.end]);
  }
}
