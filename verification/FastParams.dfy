/**
  Name-value pairs (FastCGI Specification 1.0, section 3.4): the encoder of fastHandler.c and an
  independent pair reader.
 */
module FastParams {
  import opened Bytes
  import opened CgiNames

  datatype Pair = Pair(name: seq<byte>, value: seq<byte>)

  const MAX_LENGTH: nat := 0x8000_0000

  predicate ValidPair(p: Pair) {
    |p.name| < MAX_LENGTH && |p.value| < MAX_LENGTH
  }

  /** n >> 8. */
  function Shift8(n: nat): nat {
    n / 0x100
  }

  /** encodeFastLen: one byte up to 127, else four bytes with the top bit set. */
  function EncodeLen(n: nat): (b: seq<byte>)
  {
    if n <= 127 then [n]
    else
      var n8 := Shift8(n);
      var n16 := Shift8(n8);
      var n24 := Shift8(n16);
      [n24 % 0x80 + 0x80, n16 % 0x100, n8 % 0x100, n % 0x100]
  }

  function EncodePair(p: Pair): seq<byte> {
    EncodeLen(|p.name|) + EncodeLen(|p.value|) + p.name + p.value
  }

  function EncodePairs(ps: seq<Pair>): seq<byte> {
    if ps == [] then [] else EncodePair(ps[0]) + EncodePairs(ps[1..])
  }

  // ---- Which variables are copied ----

  /** A variable of the request. A header may have no value. */
  datatype Var = Var(key: seq<byte>, value: Option<seq<byte>>)

  ghost predicate Copies(headers: bool, prefix: seq<byte>, v: Var) {
    v.value.Some? && !(headers && (HopByHop(v.key) || UnsafeHeader(v.key))) && !Unsafe(prefix + v.key)
  }

  /** The pairs copyFastVars makes of a table of variables. */
  ghost function Copied(headers: bool, prefix: seq<byte>, vars: seq<Var>): seq<Pair> {
    if vars == [] then []
    else
      var v := vars[0];
      (if Copies(headers, prefix, v) then [Pair(prefix + v.key, v.value.value)] else [])
      + Copied(headers, prefix, vars[1..])
  }

  /**
    An app gets exactly the variables that have a value and a name, with its prefix, that is safe; of headers none that
    is hop-by-hop, has an underscore, or would be unsafe as a variable.
   */
  lemma {:induction false} CopiedExactly(headers: bool, prefix: seq<byte>, vars: seq<Var>, p: Pair)
    ensures p in Copied(headers, prefix, vars)
            <==> exists v :: v in vars && v.value.Some? && p == Pair(prefix + v.key, v.value.value) && !Unsafe(prefix + v.key)
                   && (headers ==> !HopByHop(v.key) && !UnsafeHeader(v.key))
  {
    hide Unsafe, HopByHop, UnsafeHeader;
    if vars != [] {
      CopiedExactly(headers, prefix, vars[1..], p);
      assert vars == [vars[0]] + vars[1..];
    }
  }

  /** A header that would become HTTP_PROXY is a Proxy header. */
  lemma ProxyHeader(key: seq<byte>)
    requires IgnoringCase(HTTP_PREFIX + key, "HTTP_PROXY")
    ensures IgnoringCase(key, "proxy")
  {
    var name := HTTP_PREFIX + key;
    assert |key| == 5;
    assert forall i :: 0 <= i < 5 ==> key[i] == name[i + 5];
  }

  /** Nothing that an app gets has an unsafe name, and no header gets it a Proxy variable. */
  lemma NothingUnsafe(headers: bool, prefix: seq<byte>, vars: seq<Var>, p: Pair)
    requires p in Copied(headers, prefix, vars)
    ensures !Unsafe(p.name)
    ensures headers && prefix == HTTP_PREFIX ==> !IgnoringCase(p.name, "HTTP_PROXY")
  {
    hide *;
    CopiedExactly(headers, prefix, vars, p);
    if headers && prefix == HTTP_PREFIX && IgnoringCase(p.name, "HTTP_PROXY") {
      var v :| v in vars && v.value.Some? && p == Pair(prefix + v.key, v.value.value) && !Unsafe(prefix + v.key);
      ProxyHeader(v.key);
      ProxyIsUnsafe(v.key);
    }
  }

  lemma EncodePairsAppend(a: seq<Pair>, b: seq<Pair>)
    ensures EncodePairs(a + b) == EncodePairs(a) + EncodePairs(b)
  {
    if a == [] {
      assert a + b == b;
    } else {
      assert (a + b)[1..] == a[1..] + b;
      EncodePairsAppend(a[1..], b);
    }
  }

  /** copyFastInner: a variable that is not blocked is encoded behind the content. */
  method CopyFastInner(content: seq<byte>, key: seq<byte>, value: seq<byte>, prefix: seq<byte>)
    returns (result: seq<byte>)
    ensures result == content + EncodePairs(Copied(false, prefix, [Var(key, Some(value))]))
  {
    var name := prefix + key;
    var v := Var(key, Some(value));
    assert [v][1..] == [] && Copied(false, prefix, []) == [];
    var blocked := HttpIsCgiVarBlocked(name);
    if blocked {
      return content;
    }
    ghost var p := Pair(name, value);
    assert [p][1..] == [] && EncodePairs([p]) == EncodePair(p) + EncodePairs([]);
    return content + EncodePair(Pair(name, value));
  }

  /** copyFastVars: append the copied variables of a table to the PARAMS packet, in the table's order. */
  method CopyFastVars(content: seq<byte>, vars: seq<Var>, prefix: seq<byte>, headers: bool)
    returns (result: seq<byte>)
    ensures result == content + EncodePairs(Copied(headers, prefix, vars))
  {
    result := content;
    for i := 0 to |vars|
      invariant result + EncodePairs(Copied(headers, prefix, vars[i..])) == content + EncodePairs(Copied(headers, prefix, vars))
    {
      CopyOne(result, headers, prefix, vars, i);
      var v := vars[i];
      if v.value.None? {
        continue;
      }
      if headers {
        var hop := HttpIsHopByHopHeader(v.key);
        var blocked := HttpIsCgiHeaderBlocked(v.key);
        if hop || blocked {
          continue;
        }
      }
      result := CopyFastInner(result, v.key, v.value.value, prefix);
    }
    assert EncodePairs(Copied(headers, prefix, [])) == [];
  }

  lemma CopiedStep(headers: bool, prefix: seq<byte>, vars: seq<Var>, i: nat)
    requires i < |vars|
    ensures var v := vars[i];
            var one := if v.value.None? || (headers && (HopByHop(v.key) || UnsafeHeader(v.key))) then [] else Copied(false, prefix, [Var(v.key, Some(v.value.value))]);
            Copied(headers, prefix, vars[i..]) == one + Copied(headers, prefix, vars[i + 1..])
  {
    var v := vars[i];
    assert vars[i..][0] == v && vars[i..][1..] == vars[i + 1..];
    assert [v][1..] == [] && Copied(false, prefix, []) == [];
  }

  /** One variable of the table. */
  lemma CopyOne(content: seq<byte>, headers: bool, prefix: seq<byte>, vars: seq<Var>, i: nat)
    requires i < |vars|
    ensures var v := vars[i];
            var rest := EncodePairs(Copied(headers, prefix, vars[i + 1..]));
            var all := content + EncodePairs(Copied(headers, prefix, vars[i..]));
            if v.value.None? || (headers && (HopByHop(v.key) || UnsafeHeader(v.key))) then all == content + rest
            else all == content + EncodePairs(Copied(false, prefix, [Var(v.key, Some(v.value.value))])) + rest
  {
    hide Copied, EncodePairs;
    CopiedStep(headers, prefix, vars, i);
    var v, rest := vars[i], Copied(headers, prefix, vars[i + 1..]);
    if v.value.None? || (headers && (HopByHop(v.key) || UnsafeHeader(v.key))) {
      assert [] + rest == rest;
    } else {
      var one := Copied(false, prefix, [Var(v.key, Some(v.value.value))]);
      EncodePairsAppend(one, rest);
      assert content + (EncodePairs(one) + EncodePairs(rest)) == content + EncodePairs(one) + EncodePairs(rest);
    }
  }

  /** No pair of a request has an unsafe name. */
  lemma RequestIsSafe(params: seq<Var>, server: seq<Var>, headers: seq<Var>, prefix: seq<byte>)
    ensures forall p <- Copied(false, prefix, params) + Copied(false, [], server) + Copied(true, HTTP_PREFIX, headers) :: !Unsafe(p.name)
  {
    hide *;
    forall p | p in Copied(false, prefix, params) + Copied(false, [], server) + Copied(true, HTTP_PREFIX, headers)
      ensures !Unsafe(p.name)
    {
      if p in Copied(false, prefix, params) {
        NothingUnsafe(false, prefix, params, p);
      } else if p in Copied(false, [], server) {
        NothingUnsafe(false, [], server, p);
      } else {
        NothingUnsafe(true, HTTP_PREFIX, headers, p);
      }
    }
  }

  /** All of a request's variables, as prepFastRequestParams copies them. */
  method CopyRequestVars(params: seq<Var>, server: seq<Var>, headers: seq<Var>, prefix: seq<byte>)
    returns (content: seq<byte>)
    ensures content == EncodePairs(Copied(false, prefix, params) + Copied(false, [], server) + Copied(true, HTTP_PREFIX, headers))
  {
    content := CopyFastVars([], params, prefix, false);
    content := CopyFastVars(content, server, [], false);
    content := CopyFastVars(content, headers, HTTP_PREFIX, true);
    EncodePairsAppend(Copied(false, prefix, params), Copied(false, [], server));
    EncodePairsAppend(Copied(false, prefix, params) + Copied(false, [], server), Copied(true, HTTP_PREFIX, headers));
    assert [] + EncodePairs(Copied(false, prefix, params)) == EncodePairs(Copied(false, prefix, params));
  }

  // ---- The section 3.4 reader ----

  /** Read one length; None when the bytes run out. */
  function DecodeLen(b: seq<byte>): (r: Option<(nat, seq<byte>)>)
    ensures r.Some? ==> |r.value.1| < |b|
  {
    if b == [] then None
    else if b[0] < 0x80 then Some((b[0], b[1..]))
    else if |b| < 4 then None
    else Some((Be16(Be16(Be16(b[0] - 0x80, b[1]), b[2]), b[3]), b[4..]))
  }

  function DecodePair(b: seq<byte>): (r: Option<(Pair, seq<byte>)>)
    ensures r.Some? ==> |r.value.1| < |b|
  {
    match DecodeLen(b)
    case None => None
    case Some((n, b1)) =>
      match DecodeLen(b1)
      case None => None
      case Some((v, b2)) =>
        if |b2| < n + v then None else Some((Pair(b2[..n], b2[n..n + v]), b2[n + v..]))
  }

  function DecodePairs(b: seq<byte>): Option<seq<Pair>>
    decreases |b|
  {
    if b == [] then Some([])
    else match DecodePair(b)
      case None => None
      case Some((p, rest)) =>
        match DecodePairs(rest)
        case None => None
        case Some(ps) => Some([p] + ps)
  }

  lemma DecodeLenOfEncoded(n: nat, rest: seq<byte>)
    requires n < MAX_LENGTH
    ensures DecodeLen(EncodeLen(n) + rest) == Some((n, rest))
  {
    var e := EncodeLen(n);
    var b := e + rest;
    assert b[|e|..] == rest;
    if n > 127 {
      assert b[0] == e[0] && b[1] == e[1] && b[2] == e[2] && b[3] == e[3];
      assert b[0] - 0x80 == Shift8(Shift8(Shift8(n)));
    }
  }

  lemma DecodePairSteps(b: seq<byte>, n: nat, b1: seq<byte>, v: nat, b2: seq<byte>)
    requires DecodeLen(b) == Some((n, b1)) && DecodeLen(b1) == Some((v, b2)) && n + v <= |b2|
    ensures DecodePair(b) == Some((Pair(b2[..n], b2[n..n + v]), b2[n + v..]))
  {
  }

  lemma DecodePairOfEncoded(p: Pair, rest: seq<byte>)
    requires ValidPair(p)
    ensures DecodePair(EncodePair(p) + rest) == Some((p, rest))
  {
    var tail := p.name + (p.value + rest);
    var b1 := EncodeLen(|p.value|) + tail;
    var b := EncodeLen(|p.name|) + b1;
    EncodedPairLayout(p, rest);
    DecodeLenOfEncoded(|p.name|, b1);
    DecodeLenOfEncoded(|p.value|, tail);
    DecodePairSteps(b, |p.name|, b1, |p.value|, tail);
    PairSlices(p, rest);
  }

  lemma EncodedPairLayout(p: Pair, rest: seq<byte>)
    ensures EncodePair(p) + rest == EncodeLen(|p.name|) + (EncodeLen(|p.value|) + (p.name + (p.value + rest)))
  {
    var en, ev := EncodeLen(|p.name|), EncodeLen(|p.value|);
    Reassociate(en, ev, p.name, p.value, rest);
  }

  lemma Reassociate(a: seq<byte>, b: seq<byte>, c: seq<byte>, d: seq<byte>, e: seq<byte>)
    ensures a + b + c + d + e == a + (b + (c + (d + e)))
  {
  }

  lemma PairSlices(p: Pair, rest: seq<byte>)
    ensures var tail := p.name + (p.value + rest);
            && tail[..|p.name|] == p.name
            && tail[|p.name|..|p.name| + |p.value|] == p.value
            && tail[|p.name| + |p.value|..] == rest
  {
  }

  /** Section 3.4 round trip for any list of pairs with lengths below 2^31. */
  lemma {:induction false} PairsRoundTrip(ps: seq<Pair>)
    requires forall i :: 0 <= i < |ps| ==> ValidPair(ps[i])
    ensures DecodePairs(EncodePairs(ps)) == Some(ps)
  {
    if ps != [] {
      DecodePairOfEncoded(ps[0], EncodePairs(ps[1..]));
      PairsRoundTrip(ps[1..]);
      var b := EncodePairs(ps);
      assert b == EncodePair(ps[0]) + EncodePairs(ps[1..]) && b != [];
      assert DecodePair(b) == Some((ps[0], EncodePairs(ps[1..])));
      assert [ps[0]] + ps[1..] == ps;
    }
  }

  lemma DigitsModulo(n: nat)
    ensures var n8, n16, n24 := Shift8(n), Shift8(Shift8(n)), Shift8(Shift8(Shift8(n)));
            n % MAX_LENGTH == Be16(Be16(Be16(n24 % 0x80, n16 % 0x100), n8 % 0x100), n % 0x100)
  {
    var n8, n16, n24 := Shift8(n), Shift8(Shift8(n)), Shift8(Shift8(Shift8(n)));
    RemainderIs(n, n24 / 0x80, Be16(Be16(Be16(n24 % 0x80, n16 % 0x100), n8 % 0x100), n % 0x100));
  }

  lemma RemainderIs(n: nat, k: nat, r: nat)
    requires n == k * MAX_LENGTH + r && r < MAX_LENGTH
    ensures n % MAX_LENGTH == r
  {
  }

  /** What the reader gets for any length: the four-byte form drops everything from bit 31 up, so the bound is sharp. */
  lemma LengthBoundIsSharp(n: nat)
    ensures DecodeLen(EncodeLen(n)) == Some((n % MAX_LENGTH, []))
    ensures DecodeLen(EncodeLen(n)) == Some((n, [])) <==> n < MAX_LENGTH
  {
    DigitsModulo(n);
  }
}
