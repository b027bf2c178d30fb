/**
  What the gateway response parser answers when it is given the output up to some boundary and the rest comes as body:
  where its answer can fall, and which answers are the same.
 */
module OutputAnswers {
  import opened Bytes
  import opened CgiText
  import opened CgiResponse
  import opened FastSegmentation

  /** The parser's answer when it is given the first n bytes of the output and the others come as body. */
  function Answer(o: seq<byte>, n: nat): Outcome
    requires n <= |o|
  {
    Extend(Parse(o[..n], false), o[n..])
  }

  // ---- Where output is decided ----

  /** How much of the output holds the first match of a pattern; more than there is when it has none. */
  function Arrival(o: seq<byte>, pattern: seq<byte>): nat {
    match Find(o, pattern)
    case Some(k) => k + |pattern|
    case None => |o| + 1
  }

  function Least(a: nat, b: nat): nat {
    if a <= b then a else b
  }

  /** The parser answers as soon as this much of the output has arrived: a header end, or the header limit. */
  function First(o: seq<byte>): nat {
    Least(Least(Arrival(o, LFLF), Arrival(o, CRLFCRLF)), ME_MAX_HEADERS)
  }

  predicate Decided(o: seq<byte>, n: nat)
    requires n <= |o|
  {
    !Parse(o[..n], false).NeedMore?
  }

  lemma TerminatorArrives(o: seq<byte>, n: nat)
    requires n <= |o|
    ensures Terminator(o[..n]) ==
            if n >= Arrival(o, CRLFCRLF) then Some((Arrival(o, CRLFCRLF) - 4, 4))
            else if n >= Arrival(o, LFLF) then Some((Arrival(o, LFLF) - 2, 2))
            else None
  {
    hide Find;
    FindInPrefix(o, CRLFCRLF, n);
    FindInPrefix(o, LFLF, n);
  }

  lemma DecidedIff(o: seq<byte>, n: nat)
    requires n <= |o|
    ensures Decided(o, n) <==> n >= First(o)
    ensures First(o) > 0
  {
    TerminatorArrives(o, n);
    hide Terminator, Find;
    AnswersWhen(o[..n]);
  }

  lemma AnswersWhen(b: seq<byte>)
    ensures Parse(b, false).NeedMore? <==> Terminator(b).None? && |b| < ME_MAX_HEADERS
  {
    hide Terminator;
  }

  lemma AnswerIs(o: seq<byte>, n: nat)
    requires n <= |o|
    ensures Answer(o, n) == Extend(Parse(o[..n], false), o[n..])
    ensures Decided(o, n) ==> !Answer(o, n).NeedMore?
  {
    hide Parse;
  }

  lemma FirstPositive(o: seq<byte>)
    ensures First(o) > 0
  {
  }

  /** A boundary further on with the same header end gives the same answer. */
  lemma AnswerStays(o: seq<byte>, n: nat, m: nat)
    requires n <= m <= |o| && Terminator(o[..n]).Some? && Terminator(o[..m]) == Terminator(o[..n])
    ensures Answer(o, m) == Answer(o, n)
  {
    hide Terminator, Parse;
    assert o[..m] == o[..n] + o[n..m] && o[n..] == o[n..m] + o[m..];
    ParseExtend(o[..n], o[n..m], false);
    ExtendTwice(Parse(o[..n], false), o[n..m], o[m..]);
  }

  lemma NoHeaderBefore(o: seq<byte>, d: nat, e: nat)
    requires d <= e <= |o| && Terminator(o[..e]).None?
    ensures Terminator(o[..d]).None?
  {
    hide Terminator, Find;
    TerminatorArrives(o, d);
    TerminatorArrives(o, e);
  }

  // ---- The lines in front of a header end ----

  /** The header fields end at a blank line, whatever comes behind it. */
  lemma {:induction false} FieldsStopAtBlank(a: seq<byte>, t: seq<byte>)
    requires NulFree(a) && NulFree(t) && (a == [] || a[|a| - 1] == LF)
    ensures ParseFields(a + [LF] + t) == ParseFields(a)
    decreases |a|
  {
    var r := a + [LF] + t;
    if a != [] && !IsEol(a[0]) {
      assert r[0] == a[0];
      TokenBeforeBlank(a, t, COLON);
      hide GetToken, FieldOp, IsToken, HasEol, TrimEol;
      var key := GetToken(a, COLON).0;
      if LF in key {
        LfIsNoToken(key);
        LfIsNoToken(GetToken(r, COLON).0);
        FieldsOfBadKey(a);
        FieldsOfBadKey(r);
      } else {
        var a1 := GetToken(a, COLON).1;
        TokenBeforeBlank(a1, t, LF);
        var a2, text := GetToken(a1, LF).1, GetToken(a1, LF).0;
        ParseFieldsStep(a, key, text, a2, TrimEol(SkipSpace(text)));
        ParseFieldsStep(r, key, text, a2 + [LF] + t, TrimEol(SkipSpace(text)));
        FieldsStopAtBlank(a2, t);
      }
    }
  }

  lemma LfIsNoToken(key: seq<byte>)
    requires LF in key
    ensures !IsToken(key)
  {
  }

  lemma FieldsOfBadKey(r: seq<byte>)
    requires r != [] && r[0] != NUL && !IsEol(r[0]) && !IsToken(GetToken(r, COLON).0)
    ensures ParseFields(r) == Fields([], false)
  {
    hide GetToken, IsToken;
  }

  /**
    A token of lines with a blank line behind them: the same token with the rest of the lines, or, if the delimiter is
    not in the lines, a token that runs over a line end.
   */
  lemma TokenBeforeBlank(a: seq<byte>, t: seq<byte>, delim: byte)
    requires NulFree(a) && NulFree(t) && a != [] && a[|a| - 1] == LF && delim != NUL
    ensures var r := a + [LF] + t;
            var (token, rest) := GetToken(a, delim);
            if delim != LF && Find(a, [delim]).None? then LF in token && LF in GetToken(r, delim).0
            else
              && GetToken(r, delim) == (token, rest + [LF] + t) && NulFree(rest) && (rest == [] || rest[|rest| - 1] == LF)
              && (delim != LF ==> rest != []) && |rest| < |a|
  {
    var r := a + [LF] + t;
    hide Find, GetToken, NulFree, CString;
    assert r[..|a|] == a && r[|a| - 1] == LF;
    FindInPrefix(r, [delim], |a|);
    if Find(a, [delim]).Some? {
      TokenFoundBeforeBlank(a, t, delim, Find(a, [delim]).value);
    } else if delim == LF {
      FindsLast(a);
    } else {
      WholeIsCString(a);
      GetTokenAbsent(a, delim);
      NulFreeJoin(a, t);
      LongToken(r, delim, |a| - 1);
    }
  }

  lemma NulFreeJoin(a: seq<byte>, t: seq<byte>)
    requires NulFree(a) && NulFree(t)
    ensures NulFree(a + [LF] + t)
  {
  }

  lemma TokenFoundBeforeBlank(a: seq<byte>, t: seq<byte>, delim: byte, k: nat)
    requires NulFree(a) && a != [] && a[|a| - 1] == LF && delim != NUL
    requires Find(a, [delim]) == Some(k) && Find(a + [LF] + t, [delim]) == Some(k)
    ensures var (token, rest) := GetToken(a, delim);
            && GetToken(a + [LF] + t, delim) == (token, rest + [LF] + t) && NulFree(rest)
            && (rest == [] || rest[|rest| - 1] == LF) && (delim != LF ==> rest != []) && |rest| < |a|
  {
    var r := a + [LF] + t;
    hide Find, GetToken;
    FindIsMatch(a, [delim]);
    assert a[k..k + 1] == [delim] && a[k] == delim;
    GetTokenFound(a, delim, k);
    GetTokenFound(r, delim, k);
    assert r[..k] == a[..k] && r[k + 1..] == a[k + 1..] + [LF] + t;
  }

  lemma FindsLast(a: seq<byte>)
    requires NulFree(a) && a != [] && a[|a| - 1] == LF
    ensures Find(a, [LF]).Some?
  {
    hide Find;
    assert a[|a| - 1..][..1] == [LF];
    FindIsFirst(a, [LF], |a| - 1);
  }

  lemma {:induction false} WholeIsCString(a: seq<byte>)
    requires NulFree(a)
    ensures CString(a) == a
  {
    if a != [] {
      WholeIsCString(a[1..]);
    }
  }

  /** A token reaches at least to j when the delimiter is not found by then. */
  lemma LongToken(r: seq<byte>, delim: byte, j: nat)
    requires NulFree(r) && j < |r| && r[j] == LF && delim != NUL && delim != LF
    requires Find(r, [delim]).None? || Find(r, [delim]).value + 1 > j + 1
    ensures LF in GetToken(r, delim).0
  {
    hide Find;
    if Find(r, [delim]).Some? {
      var k := Find(r, [delim]).value;
      GetTokenFound(r, delim, k);
      assert r[..k][j] == LF;
    } else {
      WholeIsCString(r);
      GetTokenAbsent(r, delim);
    }
  }

  /** Whether a block starts with a header is settled by its first line. */
  lemma HeaderSettled(o: seq<byte>, p: nat, q: nat)
    requires p < q <= |o| && o[p] == LF
    ensures StartsWithHeader(o[..q]) == StartsWithHeader(o[..p])
  {
    hide IsToken;
    IndexInPrefix(o[..q], COLON, p);
    IndexOfInside(o[..q], COLON);
    assert o[..q][..p] == o[..p];
    if IndexOf(o[..q], COLON).Some? {
      var k := IndexOf(o[..q], COLON).value;
      if k < p {
        assert o[..p][..k] == o[..q][..k];
      } else {
        IndexAt(o[..q], COLON, k);
        IndexFinds(o[..q][..k], LF, p);
      }
    }
  }

  lemma {:induction false} IndexInPrefix(s: seq<byte>, c: byte, n: nat)
    requires n <= |s|
    ensures IndexOf(s[..n], c) == match IndexOf(s, c)
                                  case None => None
                                  case Some(k) => if k < n then Some(k) else None
  {
    if n > 0 {
      assert s[..n][1..] == s[1..][..n - 1];
      IndexInPrefix(s[1..], c, n - 1);
    }
  }

  lemma {:induction false} IndexAt(s: seq<byte>, c: byte, k: nat)
    requires IndexOf(s, c) == Some(k)
    ensures k < |s| && s[k] == c
  {
    if s[0] != c {
      IndexAt(s[1..], c, k - 1);
    }
  }

  lemma {:induction false} IndexFinds(s: seq<byte>, c: byte, j: nat)
    requires j < |s| && s[j] == c
    ensures IndexOf(s, c).Some?
  {
    if s[0] != c {
      IndexFinds(s[1..], c, j - 1);
    }
  }

  /** What the lines in front of a header end do, the status line included. */
  function LinesOf(h: seq<byte>): Fields {
    if !StartsWith(h, HTTP_1) then ParseFields(h)
    else match ParseStatusLine(h)
      case None => Fields([], false)
      case Some((code, rest)) => Fields([SetStatus(code)] + ParseFields(rest).ops, ParseFields(rest).ok)
  }

  /** Output starts with a status line or with a header in front of offset p. */
  predicate HasLines(o: seq<byte>, p: nat)
    requires p <= |o|
  {
    StartsWith(o, HTTP_1) || StartsWithHeader(o[..p])
  }

  /** The answer for output whose header end has arrived at boundary d. */
  lemma AnswerOfHeader(o: seq<byte>, d: nat, p: nat, len: nat)
    requires d <= |o| && Terminator(o[..d]) == Some((p, len))
    ensures p + len <= d && len >= 2 && StartsWith(o[..p + len - 1], HTTP_1) == StartsWith(o, HTTP_1)
    ensures Answer(o, d) ==
            if !HasLines(o, p) then Done([], o)
            else
              var fields := LinesOf(o[..p + len - 1]);
              if fields.ok then Done(fields.ops, o[p + len..]) else Fail(fields.ops)
  {
    hide Terminator, Parse, ParseFields, ParseStatusLine, StartsWithHeader, StartsWith, LinesOf;
    var b := o[..d];
    ParseIsBlockOutcome(b, false, p, len);
    TerminatorBlock(b, p, len);
    Slices(o, d, p + len - 1, p);
    Slices(o, d, p + len, p);
    StartsEarly(o, p, len);
    LinesOfBlock(o[..p + len - 1], p, b, b[p + len..]);
  }

  lemma Slices(o: seq<byte>, d: nat, n: nat, p: nat)
    requires p <= n <= d <= |o|
    ensures o[..d][..n] == o[..n] && o[..n][..p] == o[..p] && o[..d][n..] + o[d..] == o[n..] && o[..d] + o[d..] == o
    ensures p < n ==> o[..d][p] == o[p]
  {
  }

  lemma LinesOfBlock(h: seq<byte>, p: nat, whole: seq<byte>, body: seq<byte>)
    requires p <= |h|
    ensures BlockOutcome(h, p, whole, body) ==
            if !StartsWith(h, HTTP_1) && !StartsWithHeader(h[..p]) then Done([], whole)
            else if LinesOf(h).ok then Done(LinesOf(h).ops, body) else Fail(LinesOf(h).ops)
  {
    hide ParseFields, ParseStatusLine, StartsWithHeader, StartsWith;
    if !StartsWith(h, HTTP_1) {
      assert [] + ParseFields(h).ops == ParseFields(h).ops;
    }
  }

  lemma NoStatusLine(o: seq<byte>, n: nat)
    requires n <= |o| && !StartsWith(o, HTTP_1)
    ensures !StartsWith(o[..n], HTTP_1)
  {
    if n >= 7 {
      assert o[..n][..7] == o[..7];
    }
  }

  /** The answer for output without a status line that reached the header limit first. */
  lemma AnswerOfLimit(o: seq<byte>, d: nat)
    requires d <= |o| && Terminator(o[..d]).None? && d >= ME_MAX_HEADERS && !StartsWith(o, HTTP_1)
    ensures Answer(o, d) == Done([], o)
  {
    hide Terminator, ParseFields, StartsWithHeader, StartsWith;
    NoStatusLine(o, d);
    assert o[..d] + o[d..] == o;
  }

  /** A header end in a boundary's reach with header lines in front of it. */
  predicate HasHeader(o: seq<byte>, d: nat)
    requires d <= |o|
  {
    TerminatorInside(o[..d]);
    Terminator(o[..d]).Some? && StartsWithHeader(o[..Terminator(o[..d]).value.0])
  }

  /** A header in reach of a boundary is in reach of every later one, and the other way round once it has ended. */
  lemma HeaderStays(o: seq<byte>, d: nat, e: nat)
    requires d <= e <= |o| && HasHeader(o, d)
    ensures HasHeader(o, e)
  {
    hide Find, Terminator, StartsWithHeader;
    ArrivalsInside(o);
    TerminatorArrives(o, d);
    TerminatorArrives(o, e);
    var l, c := Arrival(o, LFLF), Arrival(o, CRLFCRLF);
    if d < c <= e {
      HeaderSettled(o, l - 2, c - 4);
    }
  }

  lemma ArrivalsInside(o: seq<byte>)
    ensures Arrival(o, LFLF) <= |o| ==> 2 <= Arrival(o, LFLF) && o[Arrival(o, LFLF) - 2] == LF && o[Arrival(o, LFLF) - 1] == LF
    ensures Arrival(o, CRLFCRLF) <= |o| ==> 4 <= Arrival(o, CRLFCRLF) && o[Arrival(o, CRLFCRLF) - 4] == o[Arrival(o, CRLFCRLF) - 2] == CR
                                             && NulFree(o[..Arrival(o, CRLFCRLF)])
    ensures Arrival(o, LFLF) != Arrival(o, CRLFCRLF) || Arrival(o, LFLF) > |o|
  {
    hide Find;
    FindIsMatch(o, LFLF);
    FindIsMatch(o, CRLFCRLF);
    if Find(o, LFLF).Some? {
      var k := Find(o, LFLF).value;
      assert o[k..k + 2][0] == o[k] && o[k..k + 2][1] == o[k + 1];
    }
    if Find(o, CRLFCRLF).Some? {
      var k := Find(o, CRLFCRLF).value;
      assert forall i :: k <= i < k + 4 ==> o[i] == o[k..k + 4][i - k];
    }
  }

  lemma NoSpaceNoStatus(h: seq<byte>)
    requires StartsWith(h, HTTP_1) && Find(h, [SPACE]).None?
    ensures LinesOf(h) == Fields([], false)
  {
    hide Find;
    GetTokenAbsent(h, SPACE);
    GetTokenOfEmpty(LF);
  }

  /** The lines in front of LF LF are the lines in front of CRLF CRLF. */
  lemma SameLines(o: seq<byte>, l: nat, c: nat)
    requires 2 <= l < c <= |o| && 4 <= c && o[l - 2] == LF && o[l - 1] == LF && o[c - 4] == o[c - 2] == CR && NulFree(o[..c])
    requires StartsWith(o[..l - 1], HTTP_1) == StartsWith(o[..c - 1], HTTP_1) == StartsWith(o, HTTP_1)
    requires StartsWith(o, HTTP_1) ==> Find(o[..l - 1], [SPACE]).Some?
    ensures LinesOf(o[..c - 1]) == LinesOf(o[..l - 1])
  {
    hide ParseFields, StartsWithHeader, StartsWith, ParseStatusLine, Find;
    var a, t := o[..l - 1], o[l..c - 1];
    assert o[..c - 1] == a + [LF] + t;
    assert forall i :: 0 <= i < c ==> o[i] == o[..c][i];
    if StartsWith(o, HTTP_1) {
      StatusBeforeBlank(a, t);
      if ParseStatusLine(a).Some? {
        FieldsStopAtBlank(ParseStatusLine(a).value.1, t);
      }
    } else {
      FieldsStopAtBlank(a, t);
    }
  }

  /** A status line in front of a blank line leaves the lines up to it, and what is behind it. */
  lemma StatusBeforeBlank(a: seq<byte>, t: seq<byte>)
    requires NulFree(a) && NulFree(t) && a != [] && a[|a| - 1] == LF && Find(a, [SPACE]).Some?
    ensures ParseStatusLine(a).Some? ==>
              var rest := ParseStatusLine(a).value.1; NulFree(rest) && (rest == [] || rest[|rest| - 1] == LF)
    ensures ParseStatusLine(a + [LF] + t) == match ParseStatusLine(a)
                                             case None => None
                                             case Some((code, rest)) => Some((code, rest + [LF] + t))
  {
    hide GetToken, ParseStatus, Find, NulFree;
    TokenBeforeBlank(a, t, SPACE);
    TokenBeforeBlank(GetToken(a, SPACE).1, t, LF);
  }

  // ---- A status line that reaches the limit ----

  /** The status line has come to its end: a space, and behind it a line end. */
  predicate StatusEnds(b: seq<byte>) {
    Find(b, [SPACE]).Some? && Find(GetToken(b, SPACE).1, [LF]).Some?
  }

  /** The answer at a boundary behind the limit that no header end has reached. */
  lemma AnswerOfStatus(o: seq<byte>, d: nat)
    requires d <= |o| && Terminator(o[..d]).None? && d >= ME_MAX_HEADERS && StartsWith(o, HTTP_1)
    ensures Answer(o, d) == match ParseStatusLine(o[..d])
                            case None => Fail([])
                            case Some((code, rest)) => Done([SetStatus(code)], rest + o[d..])
  {
    hide Terminator, ParseFields, StartsWithHeader, ParseStatusLine;
    assert o[..d][..7] == o[..7];
  }

  /** A status line that has ended stays the same. */
  lemma StatusStays(o: seq<byte>, f: nat, d: nat)
    requires f <= d <= |o| && StatusEnds(o[..f])
    ensures ParseStatusLine(o[..d]) == match ParseStatusLine(o[..f])
                                       case None => None
                                       case Some((code, rest)) => Some((code, rest + o[f..d]))
  {
    hide Find, GetToken, ParseStatus;
    assert o[..d][..f] == o[..f] && o[..d][f..] == o[f..d];
    TokenStays(o[..d], SPACE, f);
    var a := GetToken(o[..f], SPACE).1;
    assert (a + o[f..d])[..|a|] == a && (a + o[f..d])[|a|..] == o[f..d];
    TokenStays(a + o[f..d], LF, |a|);
  }

  lemma TokenStays(s: seq<byte>, delim: byte, n: nat)
    requires n <= |s| && delim != NUL && Find(s[..n], [delim]).Some?
    ensures GetToken(s, delim) == (GetToken(s[..n], delim).0, GetToken(s[..n], delim).1 + s[n..])
  {
    hide Find, GetToken;
    FindInPrefix(s, [delim], n);
    var k := Find(s, [delim]).value;
    GetTokenFound(s, delim, k);
    GetTokenFound(s[..n], delim, k);
    assert s[..n][..k] == s[..k] && s[..n][k + 1..] + s[n..] == s[k + 1..];
  }

  /** A status line that has not ended leaves nothing behind it, and not with one byte more either. */
  lemma NothingBehind(o: seq<byte>, f: nat)
    requires f < |o| && !StatusEnds(o[..f])
    ensures ParseStatusLine(o[..f]).Some? ==> ParseStatusLine(o[..f]).value.1 == []
    ensures ParseStatusLine(o[..f + 1]).Some? ==> ParseStatusLine(o[..f + 1]).value.1 == []
  {
    hide Find, GetToken, ParseStatus;
    LastOfToken(o[..f], LF, 0);
    var b := o[..f + 1];
    assert b[..f] == o[..f];
    RestAfter(o[..f]);
    FindInPrefix(b, [SPACE], f);
    if Find(b, [SPACE]).None? {
      RestAfter(b);
    } else {
      var k := Find(b, [SPACE]).value;
      GetTokenFound(b, SPACE, k);
      var after := b[k + 1..];
      if k < f {
        GetTokenFound(o[..f], SPACE, k);
        assert after[..f - k - 1] == o[..f][k + 1..];
        FindInPrefix(after, [LF], f - k - 1);
      }
      LastOfToken(after, LF, if k < f then f - k - 1 else 0);
    }
  }

  lemma RestAfter(b: seq<byte>)
    ensures Find(b, [SPACE]).None? ==> GetToken(b, SPACE).1 == [] && GetToken(GetToken(b, SPACE).1, LF).1 == []
    ensures Find(GetToken(b, SPACE).1, [LF]).None? ==> GetToken(GetToken(b, SPACE).1, LF).1 == []
  {
    hide Find;
    GetTokenOfEmpty(LF);
  }

  /** Nothing is left behind a delimiter that is absent from all but the last byte. */
  lemma LastOfToken(s: seq<byte>, delim: byte, n: nat)
    requires delim != NUL
    ensures n + 1 >= |s| && Find(s, [delim]).Some? && Find(s, [delim]).value >= n ==> GetToken(s, delim).1 == []
    ensures Find(s, [delim]).None? ==> GetToken(s, delim).1 == []
  {
    hide Find;
    if Find(s, [delim]).Some? {
      GetTokenFound(s, delim, Find(s, [delim]).value);
    }
  }

  // ---- Where a status line gets its code ----

  /** What is read as the status code and reason of a line: the text behind the first space, up to the line end. */
  function StatusText(o: seq<byte>): seq<byte> {
    GetToken(GetToken(o, SPACE).1, LF).0
  }

  /** Text that starts with a good status code behind white space. */
  predicate StartsWithCode(s: seq<byte>) {
    |s| >= 3 && ParseStatus(s[..3]).Some? && ParseStatus(s[..3]).value >= HTTP_CODE_OK
  }

  /** How much of the output holds the three digits of its status code, if they are a good one. */
  function CodeEnd(o: seq<byte>): Option<nat> {
    match Find(o, [SPACE])
    case None => None
    case Some(i) =>
      var text := StatusText(o);
      if StartsWithCode(SkipSpace(text)) then
        SkipSpaceShorter(text);
        Some(i + 1 + (|text| - |SkipSpace(text)|) + 3)
      else None
  }

  lemma {:induction false} SkipSpaceShorter(s: seq<byte>)
    ensures |SkipSpace(s)| <= |s| && (SkipSpace(s) != [] ==> !IsSpace(SkipSpace(s)[0]))
    ensures SkipSpace(s) == s[|s| - |SkipSpace(s)|..]
  {
    if s != [] && IsSpace(s[0]) {
      SkipSpaceShorter(s[1..]);
    }
  }

  lemma {:induction false} SkipSpacePrefix(s: seq<byte>, m: nat)
    requires m <= |s|
    ensures |SkipSpace(s)| <= |s|
    ensures var x := |s| - |SkipSpace(s)|; SkipSpace(s[..m]) == if m <= x then [] else s[x..m]
  {
    SkipSpaceShorter(s);
    if m > 0 && IsSpace(s[0]) {
      assert s[..m][1..] == s[1..][..m - 1];
      SkipSpacePrefix(s[1..], m - 1);
      SkipSpaceShorter(s[1..]);
    }
  }

  /** A good status: the code, and then nothing or white space. */
  predicate GoodStatus(s: seq<byte>) {
    StartsWithCode(s) && (|s| == 3 || IsSpace(s[3]))
  }

  lemma {:induction false} GoodIff(t: seq<byte>)
    ensures ParseStatus(TrimCr(t)).Some? && ParseStatus(TrimCr(t)).value >= HTTP_CODE_OK <==> GoodStatus(SkipSpace(t))
  {
    SkipSpaceShorter(t);
    var s := SkipSpace(t);
    if t != [] && t[|t| - 1] == CR {
      var u := t[..|t| - 1];
      GoodIff(u);
      SkipSpacePrefix(t, |t| - 1);
      if s != [] {
        var x := |t| - |s|;
        assert s == t[x..];
        assert s[|s| - 1] == CR;
        assert t[x..|t| - 1] == s[..|s| - 1];
        CrBehind(s);
      }
    } else {
      SkipSpaceTwice(s);
      if |s| >= 3 {
        CodeAlone(s);
      }
    }
  }

  lemma SkipSpaceTwice(s: seq<byte>)
    requires s != [] ==> !IsSpace(s[0])
    ensures SkipSpace(s) == s
  {
  }

  lemma CodeAlone(s: seq<byte>)
    requires |s| >= 3 && !IsSpace(s[0])
    ensures SkipSpace(s[..3]) == s[..3]
  {
    assert s[..3][0] == s[0];
  }

  lemma CrBehind(s: seq<byte>)
    requires s != [] && !IsSpace(s[0]) && s[|s| - 1] == CR
    ensures GoodStatus(s[..|s| - 1]) == GoodStatus(s)
  {
    if |s| == 3 {
      assert s[..3] == s;
      CodeAlone(s);
    } else if |s| > 3 {
      assert s[..|s| - 1][..3] == s[..3];
    }
  }

  lemma {:induction false} CStringPrefix(s: seq<byte>, n: nat)
    requires n <= |s|
    ensures |CString(s)| <= |s| && CString(s[..n]) == CString(s)[..if n <= |CString(s)| then n else |CString(s)|]
  {
    if n > 0 && s[0] != NUL {
      assert s[..n][1..] == s[1..][..n - 1];
      CStringPrefix(s[1..], n - 1);
    } else if s != [] && s[0] != NUL {
      CStringPrefix(s[1..], 0);
    }
  }

  /** The token of a prefix is a prefix of the token. */
  lemma TokenPrefix(a: seq<byte>, n: nat)
    requires n <= |a|
    ensures var t := GetToken(a, LF).0; GetToken(a[..n], LF).0 == t[..if n <= |t| then n else |t|]
  {
    hide Find;
    FindInPrefix(a, [LF], n);
    CStringPrefix(a, n);
    if Find(a, [LF]).Some? {
      var j := Find(a, [LF]).value;
      GetTokenFound(a, LF, j);
      if j < n {
        GetTokenFound(a[..n], LF, j);
      } else {
        GetTokenAbsent(a[..n], LF);
        CStringUpTo(a, n);
      }
    } else {
      GetTokenAbsent(a, LF);
      GetTokenAbsent(a[..n], LF);
    }
  }

  lemma CStringUpTo(a: seq<byte>, n: nat)
    requires n <= |a| && forall j :: 0 <= j < n ==> a[j] != NUL
    ensures CString(a[..n]) == a[..n]
  {
    WholeIsCString(a[..n]);
  }

  /** When the status line of a part of the output is good. */
  lemma GoodAt(o: seq<byte>, d: nat)
    requires d <= |o|
    ensures ParseStatusLine(o[..d]).Some? <==>
            && CodeEnd(o).Some? && d >= CodeEnd(o).value
            && (d == CodeEnd(o).value || GoodStatus(SkipSpace(StatusText(o))))
  {
    hide Find, GetToken, ParseStatus, StartsWithCode, SkipSpace, TrimCr, GoodStatus;
    GoodIff(StatusText(o[..d]));
    FindInPrefix(o, [SPACE], d);
    if Find(o[..d], [SPACE]).None? {
      NoSpace(o[..d]);
      AfterSpace(o, d);
    } else {
      var i := Find(o, [SPACE]).value;
      GetTokenFound(o, SPACE, i);
      GetTokenFound(o[..d], SPACE, i);
      var a, n := o[i + 1..], d - i - 1;
      assert o[..d][i + 1..] == a[..n];
      TokenPrefix(a, n);
      GoodOfPrefix(StatusText(o), if n <= |StatusText(o)| then n else |StatusText(o)|);
      SkipSpaceShorter(StatusText(o));
      WholeCode(StatusText(o));
    }
  }

  lemma NoSpace(b: seq<byte>)
    requires Find(b, [SPACE]).None?
    ensures StatusText(b) == [] && !GoodStatus(SkipSpace([]))
  {
    hide Find;
    GetTokenAbsent(b, SPACE);
    GetTokenOfEmpty(LF);
  }

  lemma AfterSpace(o: seq<byte>, d: nat)
    requires d <= |o| && Find(o[..d], [SPACE]).None?
    ensures CodeEnd(o).Some? ==> CodeEnd(o).value > d
  {
    hide Find;
    FindInPrefix(o, [SPACE], d);
    SkipSpaceShorter(StatusText(o));
  }

  lemma WholeCode(t: seq<byte>)
    ensures StartsWithCode(SkipSpace(t)) ==> |SkipSpace(t)| >= 3
    ensures StartsWithCode(SkipSpace(t)) && |SkipSpace(t)| == 3 ==> GoodStatus(SkipSpace(t))
  {
  }

  /** Text is good up to m if its code is complete there, and nothing but white space is directly behind it. */
  lemma GoodOfPrefix(t: seq<byte>, m: nat)
    requires m <= |t|
    ensures |SkipSpace(t)| <= |t|
    ensures var s, x := SkipSpace(t), |t| - |SkipSpace(t)|;
            GoodStatus(SkipSpace(t[..m])) <==> StartsWithCode(s) && m >= x + 3 && (m == x + 3 || GoodStatus(s))
  {
    hide ParseStatus, SkipSpace;
    SkipSpacePrefix(t, m);
    SkipSpaceShorter(t);
    var s, x := SkipSpace(t), |t| - |SkipSpace(t)|;
    if m >= x + 3 {
      assert t[x..m] == s[..m - x] && s[..m - x][..3] == s[..3];
    }
  }

  /**
    Between f, where the status line is refused, and e some boundary leaves a good status line if and only if the code
    is completed there.
   */
  lemma GoodCodeIff(o: seq<byte>, f: nat, e: nat)
    requires f < e <= |o| + 1 && ParseStatusLine(o[..f]).None?
    ensures (forall d :: f <= d < e ==> ParseStatusLine(o[..d]).None?)
            <==> !(CodeEnd(o).Some? && f <= CodeEnd(o).value < e)
  {
    hide ParseStatusLine, CodeEnd, StatusText, GoodStatus, SkipSpace;
    GoodAt(o, f);
    forall d | f <= d < e
      ensures ParseStatusLine(o[..d]).Some? <==>
              CodeEnd(o).Some? && d >= CodeEnd(o).value && (d == CodeEnd(o).value || GoodStatus(SkipSpace(StatusText(o))))
    {
      GoodAt(o, d);
    }
    if CodeEnd(o).Some? && f <= CodeEnd(o).value < e {
      assert ParseStatusLine(o[..CodeEnd(o).value]).Some?;
    }
  }
}
