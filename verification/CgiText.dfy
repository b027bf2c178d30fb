/** The C string and character tests that the gateway response parser relies on, over NUL-terminated bytes. */
module CgiText {
  import opened Bytes

  const COLON: byte := 58
  const SPACE: byte := 32

  predicate IsSpace(c: byte) {
    c == 32 || 9 <= c <= 13
  }

  predicate IsDigit(c: byte) {
    48 <= c <= 57
  }

  /** tchar of RFC 9110 section 5.6.2. */
  predicate IsTokenChar(c: byte) {
    || 48 <= c <= 57 || 65 <= c <= 90 || 97 <= c <= 122
    || c == 33 || 35 <= c <= 39 || c == 42 || c == 43 || c == 45 || c == 46 || 94 <= c <= 96 || c == 124 || c == 126
  }

  predicate IsToken(s: seq<byte>) {
    s != [] && forall i :: 0 <= i < |s| ==> IsTokenChar(s[i])
  }

  function Lower(c: byte): byte {
    if 65 <= c <= 90 then c + 32 else c
  }

  /** scaselesscmp(a, b) == 0. */
  predicate SameName(a: seq<byte>, b: seq<byte>) {
    |a| == |b| && forall i :: 0 <= i < |a| ==> Lower(a[i]) == Lower(b[i])
  }

  predicate StartsWith(s: seq<byte>, prefix: seq<byte>) {
    |prefix| <= |s| && s[..|prefix|] == prefix
  }

  /** The bytes a C string function sees: up to the first NUL. */
  function CString(s: seq<byte>): seq<byte> {
    if s == [] || s[0] == NUL then [] else [s[0]] + CString(s[1..])
  }

  /** sncontains(s, pattern, length of s): the first match that no NUL precedes. */
  function Find(s: seq<byte>, pattern: seq<byte>): Option<nat>
  {
    if s == [] || s[0] == NUL then None
    else if StartsWith(s, pattern) then Some(0)
    else match Find(s[1..], pattern)
      case None => None
      case Some(k) => Some(k + 1)
  }

  lemma {:induction false} FindIsMatch(s: seq<byte>, pattern: seq<byte>)
    ensures Find(s, pattern).Some? ==>
              var k := Find(s, pattern).value;
              k + |pattern| <= |s| && s[k..k + |pattern|] == pattern && (forall j :: 0 <= j < k ==> s[j] != NUL) && k < |s|
  {
    if s != [] && s[0] != NUL && !StartsWith(s, pattern) {
      FindIsMatch(s[1..], pattern);
      if Find(s[1..], pattern).Some? {
        var k := Find(s[1..], pattern).value;
        assert s[1..][k..k + |pattern|] == s[k + 1..k + 1 + |pattern|];
        assert forall j :: 1 <= j < k + 1 ==> s[j] == s[1..][j - 1];
      }
    }
  }

  /** A match that no NUL precedes or starts is found, or an earlier one is. */
  lemma {:induction false} FindIsFirst(s: seq<byte>, pattern: seq<byte>, j: nat)
    requires j < |s| && (forall i :: 0 <= i <= j ==> s[i] != NUL) && StartsWith(s[j..], pattern)
    ensures Find(s, pattern).Some? && Find(s, pattern).value <= j
  {
    if !StartsWith(s, pattern) {
      assert s[1..][j - 1..] == s[j..];
      FindIsFirst(s[1..], pattern, j - 1);
    }
  }

  /** A prefix that holds the match finds the same match. */
  lemma {:induction false} FindInPrefix(s: seq<byte>, pattern: seq<byte>, n: nat)
    requires n <= |s| && pattern != []
    ensures Find(s[..n], pattern) == match Find(s, pattern)
                                     case None => None
                                     case Some(k) => if k + |pattern| <= n then Some(k) else None
  {
    FindIsMatch(s, pattern);
    if n > 0 && s[0] != NUL {
      assert s[..n][1..] == s[1..][..n - 1];
      FindInPrefix(s[1..], pattern, n - 1);
      if StartsWith(s, pattern) {
        if |pattern| <= n {
          assert s[..n][..|pattern|] == s[..|pattern|];
        } else {
          FindLongPattern(s[..n], pattern);
        }
      } else {
        FindIsMatch(s[1..], pattern);
      }
    }
  }

  lemma {:induction false} FindLongPattern(s: seq<byte>, pattern: seq<byte>)
    requires |s| < |pattern|
    ensures Find(s, pattern) == None
  {
    if s != [] {
      FindLongPattern(s[1..], pattern);
    }
  }

  lemma {:induction false} FindStep(s: seq<byte>, pattern: seq<byte>)
    requires s != [] && s[0] != NUL && !StartsWith(s, pattern)
    ensures Find(s, pattern) == match Find(s[1..], pattern)
                                case None => None
                                case Some(k) => Some(k + 1)
  {
    hide StartsWith;
  }

  lemma OtherStart(s: seq<byte>, pattern: seq<byte>)
    requires s != [] && pattern != [] && s[0] != pattern[0]
    ensures !StartsWith(s, pattern)
  {
  }

  /** Bytes that cannot start the pattern are skipped. */
  lemma {:induction false} FindSkip(skip: seq<byte>, s: seq<byte>, pattern: seq<byte>)
    requires pattern != [] && forall i :: 0 <= i < |skip| ==> skip[i] != NUL && skip[i] != pattern[0]
    ensures Find(skip + s, pattern) == match Find(s, pattern)
                                       case None => None
                                       case Some(k) => Some(|skip| + k)
  {
    if skip == [] {
      assert skip + s == s;
    } else {
      assert (skip + s)[1..] == skip[1..] + s;
      OtherStart(skip + s, pattern);
      FindSkip(skip[1..], s, pattern);
    }
  }

  /** strspn-style trimming. */
  function SkipSpace(s: seq<byte>): seq<byte> {
    if s != [] && IsSpace(s[0]) then SkipSpace(s[1..]) else s
  }

  predicate IsEol(c: byte) {
    c == CR || c == LF
  }

  function TrimEol(s: seq<byte>): seq<byte> {
    if s != [] && IsEol(s[|s| - 1]) then TrimEol(s[..|s| - 1]) else s
  }

  function TrimCr(s: seq<byte>): seq<byte> {
    if s != [] && s[|s| - 1] == CR then TrimCr(s[..|s| - 1]) else s
  }

  predicate HasEol(s: seq<byte>) {
    exists i :: 0 <= i < |s| && IsEol(s[i])
  }

  /** httpParseStatus: three digits, then nothing or a space and a reason. */
  function ParseStatus(text: seq<byte>): Option<nat> {
    var s := SkipSpace(text);
    if |s| < 3 || !IsDigit(s[0]) || !IsDigit(s[1]) || !IsDigit(s[2]) then None
    else if |s| > 3 && !IsSpace(s[3]) then None
    else
      var d0: int, d1: int, d2: int := s[0] - 48, s[1] - 48, s[2] - 48;
      var code := d0 * 100 + d1 * 10 + d2;
      if code < 100 || code > 599 then None else Some(code)
  }

  const MAXINT64: int := 0x7FFF_FFFF_FFFF_FFFF

  function DigitsFrom(s: seq<byte>, value: nat): Option<nat> {
    if s == [] then Some(value)
    else if !IsDigit(s[0]) then None
    else
      var digit: int := s[0] - 48;
      if value * 10 + digit > MAXINT64 then None else DigitsFrom(s[1..], value * 10 + digit)
  }

  /** httpParseDigits: one or more digits that fit in 64 bits. */
  function ParseDigits(s: seq<byte>): Option<nat> {
    if s == [] then None else DigitsFrom(s, 0)
  }
}
