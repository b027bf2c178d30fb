/**
  maParseCgiResponse (cgiResponse.c): splitting a gateway's output into response fields and body. First the
  meaning over values, then the parser that works in place on the packet buffer.
 */
module CgiResponse {
  import opened Bytes
  import opened CgiText

  const ME_MAX_HEADERS: nat := 512 * 1024
  const HTTP_CODE_OK: nat := 200

  const CRLFCRLF: seq<byte> := [13, 10, 13, 10]
  const LFLF: seq<byte> := [10, 10]
  const HTTP_1: seq<byte> := [72, 84, 84, 80, 47, 49, 46]

  const LOCATION: seq<byte> := [108, 111, 99, 97, 116, 105, 111, 110]
  const STATUS: seq<byte> := [115, 116, 97, 116, 117, 115]
  const CONTENT_TYPE: seq<byte> := [99, 111, 110, 116, 101, 110, 116, 45, 116, 121, 112, 101]
  const CONTENT_LENGTH: seq<byte> := [99, 111, 110, 116, 101, 110, 116, 45, 108, 101, 110, 103, 116, 104]
  const TRANSFER_ENCODING: seq<byte> :=
    [116, 114, 97, 110, 115, 102, 101, 114, 45, 101, 110, 99, 111, 100, 105, 110, 103]

  /** What one response line does to the client's stream. */
  datatype Op =
    | SetStatus(code: nat)
    | Redirect(target: seq<byte>)
    | ContentType(mime: seq<byte>)
    | ContentLength(length: nat)
    | SetHeader(name: seq<byte>, value: seq<byte>)

  /** NeedMore: call again with more output. Fail: a 502 after the given ops. Done: the ops, and what is left as body. */
  datatype Outcome = NeedMore | Fail(ops: seq<Op>) | Done(ops: seq<Op>, body: seq<byte>)

  datatype Fields = Fields(ops: seq<Op>, ok: bool)

  // ---- The header block ----

  /** Where the header block ends: the offset and length of its terminator. CRLF CRLF is looked for first. */
  function Terminator(b: seq<byte>): Option<(nat, nat)> {
    match Find(b, CRLFCRLF)
    case Some(p) => Some((p, 4))
    case None =>
      match Find(b, LFLF)
      case Some(p) => Some((p, 2))
      case None => None
  }

  lemma TerminatorInside(b: seq<byte>)
    ensures Terminator(b).Some? ==>
              var (p, len) := Terminator(b).value; p + len <= |b| && (len == 4 || len == 2)
  {
    FindIsMatch(b, CRLFCRLF);
    FindIsMatch(b, LFLF);
  }

  function IndexOf(s: seq<byte>, c: byte): Option<nat> {
    if s == [] then None
    else if s[0] == c then Some(0)
    else match IndexOf(s[1..], c)
      case None => None
      case Some(k) => Some(k + 1)
  }

  lemma {:induction false} IndexOfInside(s: seq<byte>, c: byte)
    ensures IndexOf(s, c).Some? ==> IndexOf(s, c).value < |s|
  {
    if s != [] {
      IndexOfInside(s[1..], c);
    }
  }

  /** startsWithHeader: a token and a colon on the first line. */
  predicate StartsWithHeader(block: seq<byte>) {
    IndexOfInside(block, COLON);
    match IndexOf(block, COLON)
    case None => false
    case Some(k) => IndexOf(block[..k], LF).None? && IsToken(block[..k])
  }

  /** getToken: the C string up to the delimiter, and what follows it; everything when it is absent. */
  function GetToken(r: seq<byte>, delim: byte): (t: (seq<byte>, seq<byte>))
    ensures r != [] ==> |t.1| < |r|
    ensures |t.1| <= |r|
  {
    FindIsMatch(r, [delim]);
    match Find(r, [delim])
    case Some(k) => (r[..k], r[k + 1..])
    case None => (CString(r), [])
  }

  lemma GetTokenFound(r: seq<byte>, delim: byte, k: nat)
    requires Find(r, [delim]) == Some(k) && delim != NUL
    ensures k < |r| && GetToken(r, delim) == (r[..k], r[k + 1..])
    ensures forall j :: 0 <= j <= k ==> r[j] != NUL
  {
    hide Find;
    FindIsMatch(r, [delim]);
    assert r[k..k + 1] == [delim];
  }

  lemma GetTokenAbsent(r: seq<byte>, delim: byte)
    requires Find(r, [delim]) == None
    ensures GetToken(r, delim) == (CString(r), [])
  {
  }

  /** One field line. None is a 502. */
  function FieldOp(key: seq<byte>, value: seq<byte>): Option<Op> {
    if SameName(key, LOCATION) then Some(Redirect(value))
    else if SameName(key, STATUS) then
      match ParseStatus(value)
      case None => None
      case Some(code) => if code < HTTP_CODE_OK then None else Some(SetStatus(code))
    else if SameName(key, CONTENT_TYPE) then Some(ContentType(value))
    else if SameName(key, TRANSFER_ENCODING) then None
    else if SameName(key, CONTENT_LENGTH) then
      match ParseDigits(value)
      case None => None
      case Some(n) => Some(ContentLength(n))
    else Some(SetHeader(key, value))
  }

  /** The field loop. It stops at a blank line or a NUL. */
  predicate FieldAhead(r: seq<byte>) {
    r != [] && r[0] != NUL && !IsEol(r[0])
  }

  function ParseFields(r: seq<byte>): Fields
    decreases |r|
  {
    if !FieldAhead(r) then Fields([], true)
    else
      var (key, afterKey) := GetToken(r, COLON);
      if !IsToken(key) then Fields([], false)
      else
        var (text, rest) := GetToken(afterKey, LF);
        var value := TrimEol(SkipSpace(text));
        if HasEol(value) then Fields([], false)
        else match FieldOp(key, value)
          case None => Fields([], false)
          case Some(op) =>
            var more := ParseFields(rest);
            Fields([op] + more.ops, more.ok)
  }

  lemma ParseFieldsStep(r: seq<byte>, key: seq<byte>, text: seq<byte>, rest: seq<byte>, value: seq<byte>)
    requires FieldAhead(r)
    requires key == GetToken(r, COLON).0 && value == TrimEol(SkipSpace(text))
    requires text == GetToken(GetToken(r, COLON).1, LF).0 && rest == GetToken(GetToken(r, COLON).1, LF).1
    ensures |rest| < |r|
    ensures ParseFields(r) == if !IsToken(key) || HasEol(value) || FieldOp(key, value).None? then Fields([], false)
                              else Fields([FieldOp(key, value).value] + ParseFields(rest).ops, ParseFields(rest).ok)
  {
  }

  /** parseStatusLine: the status and the rest of the buffer. */
  function ParseStatusLine(r: seq<byte>): Option<(nat, seq<byte>)> {
    var (protocol, afterProtocol) := GetToken(r, SPACE);
    var (text, rest) := GetToken(afterProtocol, LF);
    match ParseStatus(TrimCr(text))
    case None => None
    case Some(code) => if code < HTTP_CODE_OK then None else Some((code, rest))
  }

  /** maParseCgiResponse over the content of the packet. */
  function Parse(b: seq<byte>, eof: bool): Outcome {
    TerminatorInside(b);
    var t := Terminator(b);
    if t.None? && !eof && |b| < ME_MAX_HEADERS then NeedMore
    else
      var statusLine := StartsWith(b, HTTP_1);
      if !statusLine && !(t.Some? && StartsWithHeader(b[..t.value.0])) then Done([], b)
      else
        var r := if t.Some? then b[t.value.0 + t.value.1 - 1 := NUL] else b;
        if statusLine && ParseStatusLine(r).None? then Fail([])
        else
          var ops := if statusLine then [SetStatus(ParseStatusLine(r).value.0)] else [];
          var after := if statusLine then ParseStatusLine(r).value.1 else r;
          if t.None? then Done(ops, after)
          else
            var fields := ParseFields(after);
            if fields.ok then Done(ops + fields.ops, b[t.value.0 + t.value.1..]) else Fail(ops + fields.ops)
  }

  /** Parse when the header block ends at offset p with a terminator of length len. */
  lemma ParseBlockOutcome(b: seq<byte>, eof: bool, p: nat, len: nat)
    requires Terminator(b) == Some((p, len))
    ensures p + len <= |b| && len >= 1
    ensures var statusLine := StartsWith(b, HTTP_1);
            var r := b[p + len - 1 := NUL];
            Parse(b, eof) ==
            if !statusLine && !StartsWithHeader(b[..p]) then Done([], b)
            else if statusLine && ParseStatusLine(r).None? then Fail([])
            else
              var ops := if statusLine then [SetStatus(ParseStatusLine(r).value.0)] else [];
              var fields := ParseFields(if statusLine then ParseStatusLine(r).value.1 else r);
              if fields.ok then Done(ops + fields.ops, b[p + len..]) else Fail(ops + fields.ops)
  {
    TerminatorInside(b);
  }

  // ---- Printing and parsing back ----

  datatype Field = Field(name: seq<byte>, value: seq<byte>)

  /** A field a gateway can print so that it comes back unchanged. */
  predicate Printable(f: Field) {
    && IsToken(f.name)
    && (forall i :: 0 <= i < |f.value| ==> f.value[i] != NUL && !IsEol(f.value[i]))
    && (f.value != [] ==> !IsSpace(f.value[0]))
  }

  function PrintLine(f: Field): seq<byte> {
    f.name + [COLON, SPACE] + f.value + [CR, LF]
  }

  function PrintLines(fs: seq<Field>): seq<byte> {
    if fs == [] then [] else PrintLine(fs[0]) + PrintLines(fs[1..])
  }

  function Print(fs: seq<Field>, body: seq<byte>): seq<byte> {
    PrintLines(fs) + [CR, LF] + body
  }

  /** What a list of fields means: its ops in order, up to the first that is refused. */
  function Meaning(fs: seq<Field>): Fields {
    if fs == [] then Fields([], true)
    else match FieldOp(fs[0].name, fs[0].value)
      case None => Fields([], false)
      case Some(op) => Fields([op] + Meaning(fs[1..]).ops, Meaning(fs[1..]).ok)
  }

  ghost predicate AllPrintable(fs: seq<Field>) {
    forall i :: 0 <= i < |fs| ==> Printable(fs[i])
  }

  lemma TokenChars(name: seq<byte>)
    requires IsToken(name)
    ensures forall i :: 0 <= i < |name| ==> name[i] != NUL && name[i] != CR && name[i] != LF && name[i] != COLON && name[i] != 47
  {
    assert forall i :: 0 <= i < |name| ==> IsTokenChar(name[i]);
  }

  lemma GetTokenAt(token: seq<byte>, delim: byte, rest: seq<byte>)
    requires delim != NUL && forall i :: 0 <= i < |token| ==> token[i] != NUL && token[i] != delim
    ensures GetToken(token + [delim] + rest, delim) == (token, rest)
  {
    var r := token + ([delim] + rest);
    assert token + [delim] + rest == r;
    assert ([delim] + rest)[..1] == [delim];
    FindSkip(token, [delim] + rest, [delim]);
    assert r[|token| + 1..] == rest;
  }

  lemma TrimValue(value: seq<byte>)
    requires forall i :: 0 <= i < |value| ==> !IsEol(value[i])
    requires value != [] ==> !IsSpace(value[0])
    ensures TrimEol(SkipSpace([SPACE] + value + [CR])) == value && !HasEol(value)
  {
    var v, w := [SPACE] + value + [CR], value + [CR];
    assert v[0] == SPACE && v[1..] == w;
    if value == [] {
      assert w == [CR] && w[1..] == [];
      assert SkipSpace(w) == SkipSpace(w[1..]);
    } else {
      assert w[0] == value[0] && SkipSpace(v) == w;
      assert w[|w| - 1] == CR && w[..|w| - 1] == value;
      assert TrimEol(w) == TrimEol(value);
    }
  }

  /** One printed line is read as its field. */
  lemma ParsePrintedLine(f: Field, rest: seq<byte>)
    requires Printable(f)
    ensures var r := PrintLine(f) + rest;
            && r != [] && r[0] != NUL && !IsEol(r[0])
            && GetToken(r, COLON).0 == f.name
            && GetToken(GetToken(r, COLON).1, LF).1 == rest
            && TrimEol(SkipSpace(GetToken(GetToken(r, COLON).1, LF).0)) == f.value && !HasEol(f.value)
  {
    var r := PrintLine(f) + rest;
    TokenChars(f.name);
    var text := [SPACE] + f.value + [CR];
    assert r == f.name + [COLON] + (text + [LF] + rest);
    GetTokenAt(f.name, COLON, text + [LF] + rest);
    GetTokenAt(text, LF, rest);
    TrimValue(f.value);
  }

  lemma {:induction false} ParsePrintedFields(fs: seq<Field>, rest: seq<byte>)
    requires AllPrintable(fs)
    ensures ParseFields(PrintLines(fs) + [CR] + rest) == Meaning(fs)
  {
    if fs == [] {
      assert PrintLines(fs) + [CR] + rest == [CR] + rest;
    } else {
      var tail := PrintLines(fs[1..]) + [CR] + rest;
      assert PrintLines(fs) + [CR] + rest == PrintLine(fs[0]) + tail;
      ParsePrintedLine(fs[0], tail);
      ParsePrintedFields(fs[1..], rest);
    }
  }

  lemma LineChars(f: Field)
    requires Printable(f)
    ensures var line := f.name + [COLON, SPACE] + f.value;
            forall i :: 0 <= i < |line| ==> line[i] != NUL && line[i] != CR && line[i] != LF
  {
    TokenChars(f.name);
  }

  lemma FindPastLine(line: seq<byte>, rest: seq<byte>)
    requires forall i :: 0 <= i < |line| ==> line[i] != NUL && line[i] != CR
    requires rest != [] && rest[0] != CR
    ensures Find(line + [CR, LF] + rest, CRLFCRLF) == match Find(rest, CRLFCRLF)
                                                      case None => None
                                                      case Some(k) => Some(|line| + 2 + k)
  {
    hide Find;
    var s := [CR, LF] + rest;
    assert line + [CR, LF] + rest == line + s;
    FindSkip(line, s, CRLFCRLF);
    assert s[2] == rest[0];
    NotCrlfCrlf(s);
    FindStep(s, CRLFCRLF);
    assert s[1..] == [LF] + rest;
    FindSkip([LF], rest, CRLFCRLF);
  }

  lemma NotCrlfCrlf(s: seq<byte>)
    requires |s| >= 3 && s[2] != CR
    ensures !StartsWith(s, CRLFCRLF)
  {
    if |s| >= 4 {
      assert s[..4][2] == s[2];
    }
  }

  lemma FindAtLineEnd(line: seq<byte>, body: seq<byte>)
    requires forall i :: 0 <= i < |line| ==> line[i] != NUL && line[i] != CR
    ensures Find(line + [CR, LF] + ([CR, LF] + body), CRLFCRLF) == Some(|line|)
  {
    var s := CRLFCRLF + body;
    assert line + [CR, LF] + ([CR, LF] + body) == line + s;
    FindSkip(line, s, CRLFCRLF);
    assert s[..4] == CRLFCRLF;
  }

  /** The first CRLF CRLF of a printed response is the end of its last field line. */
  lemma {:induction false} TerminatorOfPrinted(fs: seq<Field>, body: seq<byte>)
    requires fs != [] && AllPrintable(fs)
    ensures Find(Print(fs, body), CRLFCRLF) == Some(|PrintLines(fs)| - 2)
  {
    hide Find, Print, PrintLines, AllPrintable;
    var f := fs[0];
    var line := f.name + [COLON, SPACE] + f.value;
    PrintFirst(fs, body);
    if |fs| == 1 {
      FindAtLineEnd(line, body);
    } else {
      assert AllPrintable(fs[1..]) by { PrintableRest(fs); }
      FirstByte(fs[1..], body);
      TerminatorOfPrinted(fs[1..], body);
      FindPastLine(line, Print(fs[1..], body));
    }
  }

  /** A printed response is its first line and what the other fields print. */
  lemma PrintFirst(fs: seq<Field>, body: seq<byte>)
    requires fs != [] && AllPrintable(fs)
    ensures var line := fs[0].name + [COLON, SPACE] + fs[0].value;
            && (forall i :: 0 <= i < |line| ==> line[i] != NUL && line[i] != CR && line[i] != LF)
            && Print(fs, body) == line + [CR, LF] + Print(fs[1..], body)
            && |PrintLines(fs)| == |line| + 2 + |PrintLines(fs[1..])|
            && (|fs| == 1 ==> PrintLines(fs[1..]) == [] && Print(fs[1..], body) == [CR, LF] + body)
  {
    LineChars(fs[0]);
    hide AllPrintable, Printable;
    var line := fs[0].name + [COLON, SPACE] + fs[0].value;
    var lines := PrintLines(fs[1..]);
    assert PrintLine(fs[0]) == line + [CR, LF];
    assert PrintLines(fs) == line + [CR, LF] + lines;
    hide PrintLine, PrintLines;
    assert (line + [CR, LF] + lines) + [CR, LF] + body == line + [CR, LF] + (lines + [CR, LF] + body);
    if |fs| == 1 {
      NoLines();
    }
  }

  lemma PrintableRest(fs: seq<Field>)
    requires fs != [] && AllPrintable(fs)
    ensures AllPrintable(fs[1..])
  {
  }

  lemma NoLines()
    ensures PrintLines([]) == []
  {
  }

  lemma FirstByte(fs: seq<Field>, body: seq<byte>)
    requires fs != [] && AllPrintable(fs)
    ensures Print(fs, body) != [] && Print(fs, body)[0] == fs[0].name[0] && fs[0].name[0] != CR
  {
    TokenChars(fs[0].name);
    assert PrintLines(fs) == PrintLine(fs[0]) + PrintLines(fs[1..]);
  }

  lemma {:induction false} IndexOfSkip(skip: seq<byte>, c: byte, s: seq<byte>)
    requires forall i :: 0 <= i < |skip| ==> skip[i] != c
    ensures IndexOf(skip + ([c] + s), c) == Some(|skip|)
  {
    if skip == [] {
      assert skip + ([c] + s) == [c] + s;
    } else {
      assert (skip + ([c] + s))[1..] == skip[1..] + ([c] + s);
      IndexOfSkip(skip[1..], c, s);
    }
  }

  lemma {:induction false} IndexOfAbsent(s: seq<byte>, c: byte)
    requires forall i :: 0 <= i < |s| ==> s[i] != c
    ensures IndexOf(s, c) == None
  {
    if s != [] {
      IndexOfAbsent(s[1..], c);
    }
  }

  /** A printed response as its first name, a colon, and the rest. */
  lemma PrintedLayout(fs: seq<Field>, body: seq<byte>) returns (after: seq<byte>)
    requires fs != [] && AllPrintable(fs)
    ensures |PrintLines(fs)| >= 2
    ensures Print(fs, body)[..|PrintLines(fs)| - 2] == fs[0].name + ([COLON] + after)
    ensures |Print(fs, body)| > |fs[0].name| && Print(fs, body)[..|fs[0].name|] == fs[0].name
    ensures Print(fs, body)[|fs[0].name|] == COLON
  {
    hide AllPrintable;
    var name, rest := fs[0].name, [SPACE] + fs[0].value + [CR, LF] + PrintLines(fs[1..]);
    assert PrintLines(fs) == name + ([COLON] + rest);
    after := rest[..|rest| - 2];
    var b, tail := Print(fs, body), rest[|rest| - 2..] + ([CR, LF] + body);
    assert b == name + ([COLON] + after) + tail by {
      hide PrintLines;
      assert rest == after + rest[|rest| - 2..];
    }
    hide PrintLines, Print;
    ColonLayout(name, after, tail);
  }

  lemma ColonLayout(name: seq<byte>, after: seq<byte>, tail: seq<byte>)
    ensures var b := name + ([COLON] + after) + tail;
            && b[..|name| + 1 + |after|] == name + ([COLON] + after)
            && b[..|name|] == name && b[|name|] == COLON
  {
  }

  lemma PrintedStart(fs: seq<Field>, body: seq<byte>)
    requires fs != [] && AllPrintable(fs)
    ensures |PrintLines(fs)| >= 2
    ensures StartsWithHeader(Print(fs, body)[..|PrintLines(fs)| - 2]) && !StartsWith(Print(fs, body), HTTP_1)
  {
    hide PrintLines;
    hide Print;
    var name, b := fs[0].name, Print(fs, body);
    TokenChars(name);
    var after := PrintedLayout(fs, body);
    IndexOfSkip(name, COLON, after);
    IndexOfAbsent(name, LF);
    assert (name + ([COLON] + after))[..|name|] == name;
    NotStatusLine(b, name);
  }

  lemma NotStatusLine(b: seq<byte>, name: seq<byte>)
    requires |b| > |name| && b[..|name|] == name && b[|name|] == COLON
    requires forall i :: 0 <= i < |name| ==> name[i] != 47
    ensures !StartsWith(b, HTTP_1)
  {
    if |b| >= 7 {
      var start := b[..7];
      if |name| > 4 {
        assert start[4] == b[4] == b[..|name|][4] != 47;
      } else {
        assert start[|name|] == COLON;
      }
    }
  }

  /**
    Round trip: a printed non-empty list of fields is applied in order, up to the first field that is refused,
    and parsing leaves the buffer exactly at the body.
   */
  lemma PrintParse(fs: seq<Field>, body: seq<byte>, eof: bool)
    requires fs != [] && AllPrintable(fs)
    ensures Parse(Print(fs, body), eof) == if Meaning(fs).ok then Done(Meaning(fs).ops, body) else Fail(Meaning(fs).ops)
  {
    hide Find;
    hide StartsWithHeader;
    hide ParseFields;
    hide Meaning;
    hide PrintLines;
    var b := Print(fs, body);
    TerminatorOfPrinted(fs, body);
    PrintedStart(fs, body);
    var p := |PrintLines(fs)| - 2;
    assert Terminator(b) == Some((p, 4));
    var r := b[p + 3 := NUL];
    assert r == PrintLines(fs) + [CR] + ([NUL] + body);
    ParsePrintedFields(fs, [NUL] + body);
    assert b[p + 4..] == body;
    assert [] + Meaning(fs).ops == Meaning(fs).ops;
  }
}
