/**
  What the lines of a gateway response mean, said of their text alone: names in any letter case, a status as three
  digits, a length in decimal. The parser finds exactly this in what is printed.
 */
module CgiLines {
  import opened Bytes
  import opened CgiText
  import opened CgiResponse

  // ---- Text ----

  /** The bytes of ASCII text. */
  function Ascii(s: string): (b: seq<byte>)
    requires forall i :: 0 <= i < |s| ==> s[i] as int < 128
    ensures |b| == |s| && forall i :: 0 <= i < |s| ==> b[i] == s[i] as int
  {
    seq(|s|, i requires 0 <= i < |s| => s[i] as int)
  }

  /** The name in any letter case. */
  predicate Named(name: seq<byte>, text: string) {
    && |name| == |text|
    && forall i :: 0 <= i < |name| ==>
         name[i] == text[i] as int || ('a' <= text[i] <= 'z' && name[i] == text[i] as int - 32)
  }

  lemma SameAsNamed(name: seq<byte>, lower: seq<byte>, text: string)
    requires |lower| == |text| && forall i :: 0 <= i < |lower| ==> lower[i] == text[i] as int && !('A' <= text[i] <= 'Z')
    ensures SameName(name, lower) <==> Named(name, text)
  {
    forall i | 0 <= i < |name| && |name| == |text|
      ensures Lower(name[i]) == Lower(lower[i])
              <==> name[i] == text[i] as int || ('a' <= text[i] <= 'z' && name[i] == text[i] as int - 32)
    {
    }
  }

  lemma Names(name: seq<byte>)
    ensures SameName(name, LOCATION) <==> Named(name, "location")
    ensures SameName(name, STATUS) <==> Named(name, "status")
    ensures SameName(name, CONTENT_TYPE) <==> Named(name, "content-type")
    ensures SameName(name, CONTENT_LENGTH) <==> Named(name, "content-length")
    ensures SameName(name, TRANSFER_ENCODING) <==> Named(name, "transfer-encoding")
  {
    hide SameName, Named;
    SameAsNamed(name, LOCATION, "location");
    SameAsNamed(name, STATUS, "status");
    SameAsNamed(name, CONTENT_TYPE, "content-type");
    SameAsNamed(name, CONTENT_LENGTH, "content-length");
    SameAsNamed(name, TRANSFER_ENCODING, "transfer-encoding");
  }

  /** The characters of a token, of RFC 9110 section 5.6.2: letters, digits, and these. */
  lemma TokenCharacters(c: byte)
    ensures IsTokenChar(c) <==>
            || '0' as int <= c <= '9' as int || 'a' as int <= c <= 'z' as int || 'A' as int <= c <= 'Z' as int
            || c == '!' as int || c == '#' as int || c == '$' as int || c == '%' as int || c == '&' as int || c == 39
            || c == '*' as int || c == '+' as int || c == '-' as int || c == '.' as int || c == '^' as int || c == '_' as int
            || c == '`' as int || c == '|' as int || c == '~' as int
  {
  }

  // ---- Numbers ----

  predicate AllDigits(s: seq<byte>) {
    forall i :: 0 <= i < |s| ==> '0' as int <= s[i] <= '9' as int
  }

  /** The value of decimal digits. */
  function Number(s: seq<byte>): nat
    requires AllDigits(s)
  {
    if s == [] then 0 else Number(s[..|s| - 1]) * 10 + (s[|s| - 1] - '0' as int)
  }

  /** Decimal digits of a number, without leading zeros. */
  function Decimal(n: nat): seq<byte> {
    (if n < 10 then [] else Decimal(n / 10)) + [n % 10 + '0' as int]
  }

  lemma {:induction false} NumberOfDecimal(n: nat)
    ensures Decimal(n) != [] && AllDigits(Decimal(n)) && Number(Decimal(n)) == n
  {
    if n >= 10 {
      NumberOfDecimal(n / 10);
      var d := Decimal(n);
      assert d[..|d| - 1] == Decimal(n / 10);
    } else {
      assert Decimal(n) == [n + '0' as int] && Decimal(n)[..0] == [];
    }
  }

  /** The number of digits behind others. */
  function NumberFrom(s: seq<byte>, value: nat): nat
    requires AllDigits(s)
  {
    if s == [] then value else NumberFrom(s[1..], value * 10 + (s[0] - '0' as int))
  }

  lemma {:induction false} NumberFromGrows(s: seq<byte>, value: nat)
    requires AllDigits(s)
    ensures NumberFrom(s, value) >= value
  {
    if s != [] {
      NumberFromGrows(s[1..], value * 10 + (s[0] - '0' as int));
    }
  }

  lemma {:induction false} NumberFromLast(s: seq<byte>, value: nat)
    requires AllDigits(s) && s != []
    ensures NumberFrom(s, value) == NumberFrom(s[..|s| - 1], value) * 10 + (s[|s| - 1] - '0' as int)
  {
    if |s| > 1 {
      var next := value * 10 + (s[0] - '0' as int);
      assert s[..|s| - 1][1..] == s[1..][..|s| - 2];
      NumberFromLast(s[1..], next);
    }
  }

  lemma {:induction false} NumberFromZero(s: seq<byte>)
    requires AllDigits(s)
    ensures NumberFrom(s, 0) == Number(s)
  {
    if s != [] {
      NumberFromLast(s, 0);
      NumberFromZero(s[..|s| - 1]);
    }
  }

  lemma {:induction false} DigitsAreNumber(s: seq<byte>, value: nat)
    requires value <= MAXINT64
    ensures DigitsFrom(s, value) == if AllDigits(s) && NumberFrom(s, value) <= 0x7FFF_FFFF_FFFF_FFFF then Some(NumberFrom(s, value)) else None
  {
    if s != [] && IsDigit(s[0]) {
      var next := value * 10 + (s[0] - 48);
      assert AllDigits(s) <==> AllDigits(s[1..]);
      if AllDigits(s) {
        NumberFromGrows(s[1..], next);
      }
      if next <= MAXINT64 {
        DigitsAreNumber(s[1..], next);
      }
    }
  }

  /** A length is one or more decimal digits whose number fits in 64 bits, and nothing else is. */
  lemma LengthIs(s: seq<byte>)
    ensures ParseDigits(s) ==
            if s != [] && AllDigits(s) && Number(s) <= 0x7FFF_FFFF_FFFF_FFFF then Some(Number(s)) else None
  {
    if s != [] {
      DigitsAreNumber(s, 0);
      if AllDigits(s) {
        NumberFromZero(s);
      }
    }
  }

  /** Three digits. */
  function Three(code: nat): seq<byte> {
    [code / 100 % 10 + '0' as int, code / 10 % 10 + '0' as int, code % 10 + '0' as int]
  }

  predicate White(c: byte) {
    c == ' ' as int || c == '\t' as int || c == '\n' as int || c == 11 || c == 12 || c == '\r' as int
  }

  /** A status from 200 to 599: three digits, and then nothing or white space and a reason. */
  predicate StatusText(s: seq<byte>, code: nat) {
    && 200 <= code <= 599 && |s| >= 3 && s[..3] == Three(code) && (|s| > 3 ==> White(s[3]))
  }

  lemma StatusRead(s: seq<byte>, code: nat)
    requires (s != [] ==> !IsSpace(s[0])) && StatusText(s, code)
    ensures ParseStatus(s) == Some(code) && code >= 200
  {
    assert SkipSpace(s) == s;
    assert s[0] == s[..3][0] && s[1] == s[..3][1] && s[2] == s[..3][2];
    ThreeDigits(code);
  }

  lemma StatusWritten(s: seq<byte>, code: nat)
    requires (s != [] ==> !IsSpace(s[0])) && ParseStatus(s) == Some(code) && code >= 200
    ensures StatusText(s, code)
  {
    assert SkipSpace(s) == s;
    var d0: int, d1: int, d2: int := s[0] - 48, s[1] - 48, s[2] - 48;
    ThreeOf(d0, d1, d2);
    hide Three;
    assert s[..3] == [s[0], s[1], s[2]];
  }

  /** Text without leading white space is a status from 200 on exactly if it is one of these. */
  lemma StatusIs(s: seq<byte>, code: nat)
    requires s != [] ==> !IsSpace(s[0])
    ensures ParseStatus(s) == Some(code) && code >= 200 <==> StatusText(s, code)
  {
    hide ParseStatus, StatusText;
    if StatusText(s, code) {
      StatusRead(s, code);
    }
    if ParseStatus(s) == Some(code) && code >= 200 {
      StatusWritten(s, code);
    }
  }

  lemma ThreeDigits(code: nat)
    requires code < 1000
    ensures (code / 100) * 100 + (code / 10 % 10) * 10 + code % 10 == code && code / 100 < 10
  {
  }

  lemma ThreeOf(d0: int, d1: int, d2: int)
    requires 0 <= d0 < 10 && 0 <= d1 < 10 && 0 <= d2 < 10
    ensures Three(d0 * 100 + d1 * 10 + d2) == [d0 + 48, d1 + 48, d2 + 48]
  {
    var code := d0 * 100 + d1 * 10 + d2;
    assert code % 10 == d2 && code / 10 == d0 * 10 + d1;
    assert code / 10 % 10 == d1 && code / 100 == d0;
  }

  lemma {:induction false} SkipsWhite(w: seq<byte>, s: seq<byte>)
    requires (forall i :: 0 <= i < |w| ==> White(w[i])) && (s != [] ==> !White(s[0]))
    ensures SkipSpace(w + s) == s
  {
    if w == [] {
      assert w + s == s;
    } else {
      assert (w + s)[1..] == w[1..] + s;
      SkipsWhite(w[1..], s);
    }
  }

  // ---- Lines ----

  /** What a line does, by its name and its value. */
  predicate Says(f: Field, op: Op) {
    if Named(f.name, "location") then op == Redirect(f.value)
    else if Named(f.name, "status") then op.SetStatus? && StatusText(f.value, op.code)
    else if Named(f.name, "content-type") then op == ContentType(f.value)
    else if Named(f.name, "content-length") then
      f.value != [] && AllDigits(f.value) && Number(f.value) < 0x8000_0000_0000_0000 && op == ContentLength(Number(f.value))
    else !Named(f.name, "transfer-encoding") && op == SetHeader(f.name, f.value)
  }

  /** A line that is a failure: an encoding, a status that is none from 200 on, or a length that is no number. */
  predicate Refused(f: Field) {
    || Named(f.name, "transfer-encoding")
    || (Named(f.name, "status") && forall code :: 200 <= code <= 599 ==> !StatusText(f.value, code))
    || (Named(f.name, "content-length")
        && (f.value == [] || !AllDigits(f.value) || Number(f.value) >= 0x8000_0000_0000_0000))
  }

  lemma OtherNames(f: Field)
    ensures Named(f.name, "location") ==> !Named(f.name, "status") && !Named(f.name, "content-type")
    ensures Named(f.name, "location") ==> !Named(f.name, "content-length") && !Named(f.name, "transfer-encoding")
    ensures Named(f.name, "status") ==> !Named(f.name, "content-type") && !Named(f.name, "content-length")
    ensures Named(f.name, "status") ==> !Named(f.name, "transfer-encoding")
    ensures Named(f.name, "content-type") ==> !Named(f.name, "content-length") && !Named(f.name, "transfer-encoding")
    ensures Named(f.name, "content-length") ==> !Named(f.name, "transfer-encoding")
  {
  }

  /** The parser takes a line for exactly what it says, and refuses exactly the lines above. */
  lemma LineIs(f: Field, op: Op)
    requires f.value != [] ==> !IsSpace(f.value[0])
    ensures FieldOp(f.name, f.value) == Some(op) <==> Says(f, op)
    ensures FieldOp(f.name, f.value).None? <==> Refused(f)
  {
    hide SameName, Named, ParseStatus, ParseDigits, StatusText, Number, AllDigits;
    Names(f.name);
    OtherNames(f);
    LengthIs(f.value);
    if op.SetStatus? {
      StatusIs(f.value, op.code);
    }
    if ParseStatus(f.value).Some? && ParseStatus(f.value).value >= 200 {
      StatusIs(f.value, ParseStatus(f.value).value);
      StatusBounds(f.value, ParseStatus(f.value).value);
    }
    forall code | StatusText(f.value, code) ensures ParseStatus(f.value) == Some(code) && code >= 200 {
      StatusIs(f.value, code);
    }
  }

  lemma StatusBounds(s: seq<byte>, code: nat)
    requires StatusText(s, code)
    ensures 200 <= code <= 599
  {
  }

  // ---- Blocks ----

  ghost predicate Say(fs: seq<Field>, ops: seq<Op>) {
    |fs| == |ops| && forall i :: 0 <= i < |fs| ==> Says(fs[i], ops[i])
  }

  lemma {:induction false} MeaningOf(fs: seq<Field>, ops: seq<Op>, more: seq<Field>)
    requires AllPrintable(fs) && Say(fs, ops)
    ensures Meaning(fs + more) == Fields(ops + Meaning(more).ops, Meaning(more).ok)
  {
    hide Says;
    if fs == [] {
      assert fs + more == more && ops + Meaning(more).ops == Meaning(more).ops;
    } else {
      LineIs(fs[0], ops[0]);
      assert (fs + more)[1..] == fs[1..] + more;
      MeaningOf(fs[1..], ops[1..], more);
      assert [ops[0]] + (ops[1..] + Meaning(more).ops) == ops + Meaning(more).ops;
    }
  }

  /** Round trip from what lines say: printed with a body, they are taken for exactly that, in order, and the body is left. */
  lemma LinesParse(fs: seq<Field>, ops: seq<Op>, body: seq<byte>, eof: bool)
    requires fs != [] && AllPrintable(fs) && Say(fs, ops)
    ensures Parse(Print(fs, body), eof) == Done(ops, body)
  {
    hide Parse, Print, Say, AllPrintable;
    MeaningOf(fs, ops, []);
    assert fs + [] == fs && ops + [] == ops && Meaning([]) == Fields([], true);
    hide Meaning;
    PrintParse(fs, body, eof);
  }

  /** The first refused line makes the response a failure; the lines before it have taken effect, those behind it not. */
  lemma RefusedLineFails(fs: seq<Field>, ops: seq<Op>, bad: Field, more: seq<Field>, body: seq<byte>, eof: bool)
    requires AllPrintable(fs + ([bad] + more)) && Say(fs, ops) && Refused(bad)
    ensures Parse(Print(fs + ([bad] + more), body), eof) == Fail(ops)
  {
    hide Parse, Print, Say, Refused;
    var all := fs + ([bad] + more);
    assert all[|fs|] == bad && Printable(all[|fs|]);
    forall i | 0 <= i < |fs| ensures Printable(fs[i]) {
      assert all[i] == fs[i];
    }
    MeaningOf(fs, ops, [bad] + more);
    LineIs(bad, SetStatus(0));
    assert ops + [] == ops;
    PrintParse(all, body, eof);
  }

  /** How a gateway prints an op. */
  function AsField(op: Op): Field {
    match op
    case SetStatus(code) => Field(Ascii("Status"), Three(code))
    case Redirect(target) => Field(Ascii("Location"), target)
    case ContentType(mime) => Field(Ascii("Content-Type"), mime)
    case ContentLength(length) => Field(Ascii("Content-Length"), Decimal(length))
    case SetHeader(name, value) => Field(name, value)
  }

  predicate PlainValue(s: seq<byte>) {
    (forall i :: 0 <= i < |s| ==> s[i] != NUL && !IsEol(s[i])) && (s != [] ==> !IsSpace(s[0]))
  }

  /** An op that can be printed: a final status, a length in 64 bits, and any other header by a token of its own. */
  predicate PrintableOp(op: Op) {
    match op
    case SetStatus(code) => 200 <= code <= 599
    case Redirect(target) => PlainValue(target)
    case ContentType(mime) => PlainValue(mime)
    case ContentLength(length) => length < 0x8000_0000_0000_0000
    case SetHeader(name, value) =>
      && IsToken(name) && PlainValue(value)
      && !Named(name, "location") && !Named(name, "status") && !Named(name, "content-type")
      && !Named(name, "content-length") && !Named(name, "transfer-encoding")
  }

  lemma {:induction false} DecimalIsPlain(n: nat)
    ensures PlainValue(Decimal(n))
  {
    hide Decimal, Number;
    NumberOfDecimal(n);
    DigitsArePlain(Decimal(n));
  }

  lemma DigitsArePlain(s: seq<byte>)
    requires AllDigits(s)
    ensures PlainValue(s)
  {
  }

  lemma CodeSaid(code: nat)
    requires 200 <= code <= 599
    ensures PlainValue(Three(code)) && StatusText(Three(code), code)
  {
    assert Three(code)[..3] == Three(code);
  }

  /** A name in letters and hyphens, some of them capital. */
  lemma NameFits(text: string, lower: string)
    requires text != "" && |text| == |lower|
    requires forall i :: 0 <= i < |text| ==> 'a' <= text[i] <= 'z' || 'A' <= text[i] <= 'Z' || text[i] == '-'
    requires forall i :: 0 <= i < |text| ==>
               text[i] == lower[i] || ('a' <= lower[i] <= 'z' && text[i] as int == lower[i] as int - 32)
    ensures (forall i :: 0 <= i < |text| ==> text[i] as int < 128) && IsToken(Ascii(text)) && Named(Ascii(text), lower)
  {
    assert Ascii(text) != [];
  }

  lemma FixedNames()
    ensures IsToken(Ascii("Status")) && Named(Ascii("Status"), "status")
    ensures IsToken(Ascii("Location")) && Named(Ascii("Location"), "location")
    ensures IsToken(Ascii("Content-Type")) && Named(Ascii("Content-Type"), "content-type")
    ensures IsToken(Ascii("Content-Length")) && Named(Ascii("Content-Length"), "content-length")
  {
    hide IsToken, Named, Ascii;
    NameFits("Status", "status");
    NameFits("Location", "location");
    NameFits("Content-Type", "content-type");
    NameFits("Content-Length", "content-length");
  }

  lemma PlainPrints(name: seq<byte>, value: seq<byte>)
    requires IsToken(name) && PlainValue(value)
    ensures Printable(Field(name, value))
  {
  }

  lemma NameSaid(op: Op)
    requires PrintableOp(op)
    ensures IsToken(AsField(op).name)
    ensures match op
            case SetStatus(_) => Named(AsField(op).name, "status")
            case Redirect(_) => Named(AsField(op).name, "location")
            case ContentType(_) => Named(AsField(op).name, "content-type")
            case ContentLength(_) => Named(AsField(op).name, "content-length")
            case SetHeader(_, _) => true
  {
    FixedNames();
    hide Named, IsToken, Ascii, Three, Decimal;
  }

  lemma ValueSaid(op: Op)
    requires PrintableOp(op)
    ensures PlainValue(AsField(op).value)
    ensures op.SetStatus? ==> StatusText(AsField(op).value, op.code)
    ensures op.ContentLength? ==>
              var v := AsField(op).value; v != [] && AllDigits(v) && Number(v) == op.length < 0x8000_0000_0000_0000
  {
    hide Named, IsToken, Ascii;
    match op
    case SetStatus(code) => CodeSaid(code);
    case ContentLength(length) =>
      NumberOfDecimal(length);
      DecimalIsPlain(length);
      hide Decimal, Number, PlainValue;
    case _ =>
  }

  lemma OpSaid(op: Op)
    requires PrintableOp(op)
    ensures Printable(AsField(op)) && Says(AsField(op), op)
  {
    var f := AsField(op);
    hide Named, IsToken, Ascii, PlainValue, Printable, StatusText, Three, Decimal, Number, AllDigits;
    NameSaid(op);
    ValueSaid(op);
    OtherNames(f);
    PlainPrints(f.name, f.value);
  }

  function AsFields(ops: seq<Op>): (fs: seq<Field>)
    ensures |fs| == |ops| && forall i :: 0 <= i < |ops| ==> fs[i] == AsField(ops[i])
  {
    seq(|ops|, i requires 0 <= i < |ops| => AsField(ops[i]))
  }

  /** Round trip from ops: printed one to a line with a body, they come back, and so does the body. */
  lemma OpsRoundTrip(ops: seq<Op>, body: seq<byte>, eof: bool)
    requires ops != [] && forall i :: 0 <= i < |ops| ==> PrintableOp(ops[i])
    ensures Parse(Print(AsFields(ops), body), eof) == Done(ops, body)
  {
    hide Parse, Print, AsField, PrintableOp, Says, Printable;
    forall i | 0 <= i < |ops| ensures Printable(AsField(ops[i])) && Says(AsField(ops[i]), ops[i]) {
      OpSaid(ops[i]);
    }
    LinesParse(AsFields(ops), ops, body, eof);
  }

  // ---- A status line ----

  /** "HTTP/1." and the rest of the version, the code, and a reason. */
  function StatusLine(version: seq<byte>, code: nat, reason: seq<byte>): seq<byte> {
    Ascii("HTTP/1.") + version + [SPACE] + (Three(code) + [SPACE] + reason)
  }

  predicate PlainText(s: seq<byte>) {
    forall i :: 0 <= i < |s| ==> s[i] != NUL && s[i] != CR && s[i] != LF
  }

  lemma TextIsPlain(version: seq<byte>, code: nat, reason: seq<byte>)
    requires code < 1000 && PlainText(version) && PlainText(reason)
    ensures PlainText(StatusLine(version, code, reason)) && StartsWith(StatusLine(version, code, reason), HTTP_1)
  {
    var line := StatusLine(version, code, reason);
    assert line[..7] == Ascii("HTTP/1.") == HTTP_1;
  }

  /** The header end behind a status line and the lines that follow it. */
  lemma StatusLineEnds(line: seq<byte>, fs: seq<Field>, body: seq<byte>)
    requires PlainText(line) && AllPrintable(fs)
    ensures Find(line + [CR, LF] + Print(fs, body), CRLFCRLF) == Some(|line| + |PrintLines(fs)|)
  {
    hide Find, PrintLines, AllPrintable, Print;
    if fs == [] {
      NoLines();
      PrintNone(body);
      FindAtLineEnd(line, body);
    } else {
      TerminatorOfPrinted(fs, body);
      FirstByte(fs, body);
      assert Print(fs, body)[0] != CR;
      FindPastLine(line, Print(fs, body));
      PrintFirst(fs, body);
    }
  }

  lemma PrintNone(body: seq<byte>)
    ensures Print([], body) == [CR, LF] + body
  {
    assert [] + [CR, LF] + body == [CR, LF] + body;
  }

  /** The parser's view of a status line: its code, and the lines behind it. */
  lemma StatusLineIs(version: seq<byte>, code: nat, reason: seq<byte>, rest: seq<byte>)
    requires code < 1000 && PlainText(version) && PlainText(reason) && SPACE !in version
    ensures ParseStatusLine(StatusLine(version, code, reason) + [CR, LF] + rest)
            == if 200 <= code <= 599 then Some((code, rest)) else None
  {
    hide ParseStatus;
    var text := Three(code) + [SPACE] + reason;
    var protocol := Ascii("HTTP/1.") + version;
    var r := StatusLine(version, code, reason) + [CR, LF] + rest;
    assert r == protocol + [SPACE] + (text + [CR] + [LF] + rest);
    GetTokenAt(protocol, SPACE, text + [CR] + [LF] + rest);
    GetTokenAt(text + [CR], LF, rest);
    LastIsText(code, reason);
    StatusOfText(code, reason, TrimCr(text + [CR]));
  }

  lemma LastIsText(code: nat, reason: seq<byte>)
    requires code < 1000 && PlainText(reason)
    ensures TrimCr(Three(code) + [SPACE] + reason + [CR]) == Three(code) + [SPACE] + reason
  {
    var text := Three(code) + [SPACE] + reason;
    assert (text + [CR])[..|text|] == text;
    assert text[|text| - 1] != CR;
    assert TrimCr(text) == text;
  }

  lemma StatusOfText(code: nat, reason: seq<byte>, text: seq<byte>)
    requires code < 1000 && text == Three(code) + [SPACE] + reason
    ensures match ParseStatus(text)
            case None => !(200 <= code <= 599)
            case Some(c) => if 200 <= code <= 599 then c == code else c < 200
  {
    assert text[..3] == Three(code) && text[3] == SPACE;
    ThreeDigits(code);
    assert SkipSpace(text) == text;
    if 200 <= code <= 599 {
      StatusIs(text, code);
    }
  }

  /**
    Output that begins with a status line: its code first, then what the lines say, and the body. A code below 200 or
    above 599 is a failure.
   */
  lemma StatusLineParses(version: seq<byte>, code: nat, reason: seq<byte>, fs: seq<Field>, ops: seq<Op>, body: seq<byte>, eof: bool)
    requires code < 1000 && PlainText(version) && PlainText(reason) && SPACE !in version
    requires AllPrintable(fs) && Say(fs, ops)
    ensures Parse(StatusLine(version, code, reason) + [CR, LF] + Print(fs, body), eof)
            == if 200 <= code <= 599 then Done([SetStatus(code)] + ops, body) else Fail([])
  {
    hide Find, ParseFields, ParseStatusLine, StatusLine, PrintLines, Meaning, Say, Three;
    var line := StatusLine(version, code, reason);
    var b := line + [CR, LF] + Print(fs, body);
    var p := |line| + |PrintLines(fs)|;
    TextIsPlain(version, code, reason);
    StatusLineEnds(line, fs, body);
    assert Terminator(b) == Some((p, 4));
    assert b[..7] == line[..7];
    ParseBlockOutcome(b, eof, p, 4);
    var r := b[p + 3 := NUL];
    var rest := PrintLines(fs) + [CR] + ([NUL] + body);
    assert r == line + [CR, LF] + rest;
    StatusLineIs(version, code, reason, rest);
    ParsePrintedFields(fs, [NUL] + body);
    MeaningOfAll(fs, ops);
    assert b[p + 4..] == body;
  }

  lemma MeaningOfAll(fs: seq<Field>, ops: seq<Op>)
    requires AllPrintable(fs) && Say(fs, ops)
    ensures Meaning(fs) == Fields(ops, true)
  {
    MeaningOf(fs, ops, []);
    assert fs + [] == fs && ops + [] == ops;
  }

  /** A status line in output that has no header end, once it is taken as it stands: what is behind the line is body. */
  lemma StatusLineAlone(version: seq<byte>, code: nat, reason: seq<byte>, rest: seq<byte>, eof: bool)
    requires code < 1000 && PlainText(version) && PlainText(reason) && SPACE !in version
    requires Terminator(StatusLine(version, code, reason) + [CR, LF] + rest).None?
    ensures var b := StatusLine(version, code, reason) + [CR, LF] + rest;
            Parse(b, eof) == if !eof && |b| < 524288 then NeedMore
                             else if 200 <= code <= 599 then Done([SetStatus(code)], rest)
                             else Fail([])
  {
    hide Terminator, ParseStatusLine, StatusLine;
    var line := StatusLine(version, code, reason);
    var b := line + [CR, LF] + rest;
    TextIsPlain(version, code, reason);
    assert b[..7] == line[..7];
    StatusLineIs(version, code, reason, rest);
  }

  // ---- Lines that are not well formed ----

  lemma {:induction false} TrimsLineEnds(v: seq<byte>, e: seq<byte>)
    requires (forall i :: 0 <= i < |e| ==> e[i] == 13 || e[i] == 10) && (v != [] ==> v[|v| - 1] != 13 && v[|v| - 1] != 10)
    ensures TrimEol(v + e) == v
  {
    if e == [] {
      assert v + e == v;
    } else {
      assert (v + e)[..|v + e| - 1] == v + e[..|e| - 1];
      TrimsLineEnds(v, e[..|e| - 1]);
    }
  }

  /** A value with a carriage return inside it is refused: it could split the response. */
  lemma SplitLineFails(name: seq<byte>, w: seq<byte>, v: seq<byte>, rest: seq<byte>)
    requires IsToken(name) && (forall i :: 0 <= i < |w| ==> White(w[i]) && w[i] != 10)
    requires v != [] && !White(v[0]) && v[|v| - 1] != 13 && 13 in v && forall i :: 0 <= i < |v| ==> v[i] != 0 && v[i] != 10
    ensures ParseFields(name + [COLON] + (w + v + [CR] + [LF] + rest)) == Fields([], false)
  {
    hide FieldOp, IsToken, TrimEol, SkipSpace;
    var text := w + v + [CR];
    var r := name + [COLON] + (text + [LF] + rest);
    TokenChars(name);
    TokenNotEmpty(name);
    assert w + v + [CR] + [LF] + rest == text + [LF] + rest;
    GetTokenAt(name, COLON, text + [LF] + rest);
    GetTokenAt(text, LF, rest);
    assert w + (v + [CR]) == text;
    SkipsWhite(w, v + [CR]);
    TrimsLineEnds(v, [CR]);
    hide GetToken;
    var k :| 0 <= k < |v| && v[k] == 13;
    assert IsEol(v[k]) && HasEol(v);
    assert r[0] == name[0];
    ParseFieldsStep(r, name, text, rest, v);
  }

  lemma TokenNotEmpty(name: seq<byte>)
    requires IsToken(name)
    ensures name != []
  {
  }

  /** A line whose name is no token, such as one with a space in front of the colon, is refused. */
  lemma BadNameFails(name: seq<byte>, rest: seq<byte>)
    requires name != [] && !IsToken(name) && name[0] != 13 && name[0] != 10
    requires forall i :: 0 <= i < |name| ==> name[i] != 0 && name[i] != COLON
    ensures ParseFields(name + [COLON] + rest) == Fields([], false)
  {
    hide IsToken;
    var r := name + [COLON] + rest;
    GetTokenAt(name, COLON, rest);
    assert r[0] == name[0];
    hide GetToken;
  }

  // ---- Output without a header ----

  /** A block starts with a header exactly if it starts with a token and a colon. */
  lemma HeaderIs(b: seq<byte>)
    ensures StartsWithHeader(b) <==> exists k :: 0 <= k < |b| && IsToken(b[..k]) && b[k] == ':' as int
  {
    hide IsToken;
    IndexOfInside(b, COLON);
    if IndexOf(b, COLON).Some? {
      var k := IndexOf(b, COLON).value;
      FirstColon(b, k);
      if IsToken(b[..k]) {
        NoLineEnd(b[..k]);
      }
    }
    forall k | 0 <= k < |b| && IsToken(b[..k]) && b[k] == COLON ensures IndexOf(b, COLON) == Some(k) {
      TokenChars(b[..k]);
      assert forall i :: 0 <= i < k ==> b[i] == b[..k][i];
      assert b == b[..k] + ([COLON] + b[k + 1..]);
      IndexOfSkip(b[..k], COLON, b[k + 1..]);
    }
  }

  lemma {:induction false} FirstColon(b: seq<byte>, k: nat)
    requires IndexOf(b, COLON) == Some(k)
    ensures k < |b| && b[k] == COLON
  {
    if b[0] != COLON {
      FirstColon(b[1..], k - 1);
    }
  }

  lemma NoLineEnd(name: seq<byte>)
    requires IsToken(name)
    ensures IndexOf(name, LF).None?
  {
    TokenChars(name);
    IndexOfAbsent(name, LF);
  }

  /** Neither a status line nor a header at the start. */
  predicate BodyOnly(b: seq<byte>) {
    !(|b| >= 7 && b[..7] == Ascii("HTTP/1.")) && forall k :: 0 <= k < |b| && IsToken(b[..k]) ==> b[k] != ':' as int
  }

  /** Output that starts with neither is all body, once a header end, half a megabyte, or its end has come. */
  lemma BodyOnlyParses(b: seq<byte>, eof: bool)
    requires BodyOnly(b)
    ensures Parse(b, eof) == if Find(b, [13, 10, 13, 10]).None? && Find(b, [10, 10]).None? && !eof && |b| < 524288 then NeedMore else Done([], b)
  {
    hide Find, IsToken, ParseFields, ParseStatusLine, StartsWithHeader, StartsWith, BodyOnly, Ascii;
    NoStatusLine(b);
    TerminatorInside(b);
    if Terminator(b).Some? {
      NoHeader(b, Terminator(b).value.0);
    }
  }

  lemma NoStatusLine(b: seq<byte>)
    requires BodyOnly(b)
    ensures !StartsWith(b, HTTP_1)
  {
    assert Ascii("HTTP/1.") == HTTP_1;
  }

  lemma NoHeader(b: seq<byte>, p: nat)
    requires BodyOnly(b) && p <= |b|
    ensures !StartsWithHeader(b[..p])
  {
    hide IsToken, StartsWithHeader;
    HeaderIs(b[..p]);
    assert forall k :: 0 <= k < p ==> b[..p][..k] == b[..k] && b[..p][k] == b[k];
  }
}
