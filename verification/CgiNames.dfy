/** Which names of variables and headers are kept from a gateway's program (the name tests of httpLib.c). */
module CgiNames {
  import opened Bytes

  const ME_MAX_PATH: nat := 1024

  /** envBlackList. */
  const BLACK_LIST: seq<string> := [
    "AUTHSTATE", "BASHOPTS", "BASH_ENV", "CDPATH", "CLASSPATH", "ENTRYPOINT", "ENV", "FPATH", "GLOBIGNORE", "GOPATH",
    "HOSTALIASES", "HTTP_AUTHORIZATION", "HTTP_PROXY", "HTTPS_PROXY", "ALL_PROXY", "NO_PROXY", "IFS", "JAVA_HOME",
    "JAVA_TOOL_OPTIONS", "LIBPATH", "LOCALDOMAIN", "NODE_OPTIONS", "NLSPATH", "NULLCMD", "PATH", "PATH_LOCALE", "PERL5DB",
    "PERL5LIB", "PERL5OPT", "PERLIO_DEBUG", "PERLLIB", "PS4", "PYTHONHOME", "PYTHONINSPECT", "PYTHONPATH",
    "PYTHONUSERBASE", "READNULLCMD", "REMOTE_HOST", "RES_OPTIONS", "RUBYLIB", "RUBYOPT", "SHELLOPTS", "SHLIB_PATH",
    "TERMCAP", "TERMINFO", "TERMINFO_DIRS", "TERMPATH", "TMPPREFIX", "ZDOTDIR"]

  /** The families of the dynamic loader. */
  const FAMILIES: seq<string> := ["LD_", "LDR_", "_RLD", "DYLD_"]

  const HOP_BY_HOP: seq<string> := [
    "Connection", "Keep-Alive", "Proxy-Authenticate", "Proxy-Authorization", "Proxy-Connection", "TE", "Trailer",
    "Transfer-Encoding", "Upgrade"]

  // ---- What the tests are for ----

  /** A byte that becomes c when a name is made a variable's: upper case, and '_' for '-'. */
  predicate Folds(b: byte, c: char) {
    if 'A' <= c <= 'Z' then b == c as int || b == c as int + 32
    else if c == '_' then b == '_' as int || b == '-' as int
    else b == c as int && c != '-' && !('a' <= c <= 'z')
  }

  /** The name starts with the given one, however it is written. */
  predicate FoldsToStart(name: seq<byte>, s: string) {
    |s| <= |name| && forall i :: 0 <= i < |s| ==> Folds(name[i], s[i])
  }

  /** As much of a name as is looked at. */
  function Fitting(name: seq<byte>): seq<byte> {
    if |name| < ME_MAX_PATH then name else name[..ME_MAX_PATH - 1]
  }

  /** A variable a program must not get: one of the list, or of a family, however it is written. */
  ghost predicate Unsafe(name: seq<byte>) {
    var n := Fitting(name);
    || (exists i :: 0 <= i < |BLACK_LIST| && |n| == |BLACK_LIST[i]| && FoldsToStart(n, BLACK_LIST[i]))
    || (exists i :: 0 <= i < |FAMILIES| && FoldsToStart(n, FAMILIES[i]))
  }

  /** The same text but for the case of letters. */
  predicate IgnoringCase(name: seq<byte>, s: string) {
    && |name| == |s|
    && forall i :: 0 <= i < |s| ==>
         || name[i] == s[i] as int
         || ('a' <= s[i] <= 'z' && name[i] == s[i] as int - 32)
         || ('A' <= s[i] <= 'Z' && name[i] == s[i] as int + 32)
  }

  /** A field of one connection only. */
  ghost predicate HopByHop(name: seq<byte>) {
    exists i :: 0 <= i < |HOP_BY_HOP| && IgnoringCase(name, HOP_BY_HOP[i])
  }

  /** "HTTP_". */
  const HTTP_PREFIX: seq<byte> := [72, 84, 84, 80, 95]

  /** A header that must not become a variable: with an underscore in its name, or under a name that is unsafe. */
  ghost predicate UnsafeHeader(name: seq<byte>) {
    name != [] && ('_' as int in name || Unsafe(HTTP_PREFIX + name))
  }

  // ---- The tests ----

  function FoldByte(b: byte): byte {
    if b == '-' as int then '_' as int else if 'a' as int <= b <= 'z' as int then b - 32 else b
  }

  /** The name as a variable's, as much of it as fits. */
  method Normalise(name: seq<byte>) returns (normal: seq<byte>)
    ensures |normal| == if |name| < ME_MAX_PATH then |name| else ME_MAX_PATH - 1
    ensures forall i :: 0 <= i < |normal| ==> normal[i] == FoldByte(name[i])
  {
    normal := [];
    while |normal| < ME_MAX_PATH - 1 && |normal| < |name|
      invariant |normal| <= |name| && |normal| <= ME_MAX_PATH - 1
      invariant forall i :: 0 <= i < |normal| ==> normal[i] == FoldByte(name[i])
      decreases |name| - |normal|
    {
      normal := normal + [FoldByte(name[|normal|])];
    }
  }

  /** sstarts. */
  method Starts(s: seq<byte>, prefix: string) returns (yes: bool)
    ensures yes <==> |prefix| <= |s| && forall i :: 0 <= i < |prefix| ==> s[i] == prefix[i] as int
  {
    if |prefix| > |s| {
      return false;
    }
    for i := 0 to |prefix|
      invariant forall j :: 0 <= j < i ==> s[j] == prefix[j] as int
    {
      if s[i] != prefix[i] as int {
        return false;
      }
    }
    return true;
  }

  lemma FoldedIs(name: seq<byte>, normal: seq<byte>, s: string)
    requires |normal| == |name| && forall i :: 0 <= i < |normal| ==> normal[i] == FoldByte(name[i])
    ensures (|s| <= |normal| && forall i :: 0 <= i < |s| ==> normal[i] == s[i] as int) <==> FoldsToStart(name, s)
  {
    forall i | 0 <= i < |s| && |s| <= |name| ensures normal[i] == s[i] as int <==> Folds(name[i], s[i]) {
    }
  }

  /** httpIsCgiVarBlocked: the name against the list, and then against the families. */
  method HttpIsCgiVarBlocked(name: seq<byte>) returns (blocked: bool)
    ensures blocked <==> Unsafe(name)
  {
    var normal := Normalise(name);
    ghost var n := Fitting(name);
    for k := 0 to |BLACK_LIST|
      invariant forall j :: 0 <= j < k ==> !(|n| == |BLACK_LIST[j]| && FoldsToStart(n, BLACK_LIST[j]))
    {
      FoldedIs(n, normal, BLACK_LIST[k]);
      var starts := Starts(normal, BLACK_LIST[k]);
      if starts && |normal| == |BLACK_LIST[k]| {
        return true;
      }
    }
    for k := 0 to |FAMILIES|
      invariant forall j :: 0 <= j < k ==> !FoldsToStart(n, FAMILIES[j])
    {
      FoldedIs(n, normal, FAMILIES[k]);
      var starts := Starts(normal, FAMILIES[k]);
      if starts {
        return true;
      }
    }
    return false;
  }

  /** httpIsCgiHeaderBlocked. */
  method HttpIsCgiHeaderBlocked(name: seq<byte>) returns (blocked: bool)
    ensures blocked <==> UnsafeHeader(name)
  {
    if name == [] {
      return false;
    }
    if '_' as int in name {
      return true;
    }
    blocked := HttpIsCgiVarBlocked(HTTP_PREFIX + name);
  }

  /** scaselesscmp, for equality. */
  method ScaselessMatch(name: seq<byte>, s: string) returns (same: bool)
    ensures same <==> IgnoringCase(name, s)
  {
    if |name| != |s| {
      return false;
    }
    for i := 0 to |s|
      invariant forall j :: 0 <= j < i ==>
                  || name[j] == s[j] as int
                  || ('a' <= s[j] <= 'z' && name[j] == s[j] as int - 32)
                  || ('A' <= s[j] <= 'Z' && name[j] == s[j] as int + 32)
    {
      var c := s[i] as int;
      var upper := if 'a' <= s[i] <= 'z' then c - 32 else c;
      var b := if 'a' as int <= name[i] <= 'z' as int then name[i] - 32 else name[i];
      if b != upper {
        return false;
      }
    }
    return true;
  }

  /** httpIsHopByHopHeader. */
  method HttpIsHopByHopHeader(name: seq<byte>) returns (hop: bool)
    ensures hop <==> HopByHop(name)
  {
    for k := 0 to |HOP_BY_HOP|
      invariant forall j :: 0 <= j < k ==> !IgnoringCase(name, HOP_BY_HOP[j])
    {
      var same := ScaselessMatch(name, HOP_BY_HOP[k]);
      if same {
        return true;
      }
    }
    return false;
  }

  // ---- The variable above all ----

  /** A client's Proxy header, in any letter case, would become HTTP_PROXY. It is kept from the program. */
  lemma ProxyIsUnsafe(name: seq<byte>)
    requires IgnoringCase(name, "proxy")
    ensures UnsafeHeader(name) && Unsafe(HTTP_PREFIX + name)
  {
    var full := HTTP_PREFIX + name;
    assert BLACK_LIST[12] == "HTTP_PROXY";
    assert |full| == 10 && FoldsToStart(full, BLACK_LIST[12]) by {
      var s := "HTTP_PROXY";
      assert forall i :: 5 <= i < 10 ==> full[i] == name[i - 5];
    }
  }

  /** The loader's variables, in any letter case and with '-' for '_': LD_PRELOAD, DYLD_LIBRARY_PATH and the others. */
  lemma LoaderIsUnsafe(name: seq<byte>)
    requires FoldsToStart(name, "LD_") || FoldsToStart(name, "LDR_") || FoldsToStart(name, "_RLD") || FoldsToStart(name, "DYLD_")
    ensures Unsafe(name)
  {
    var i := if FoldsToStart(name, "LD_") then 0 else if FoldsToStart(name, "LDR_") then 1 else if FoldsToStart(name, "_RLD") then 2 else 3;
    assert FAMILIES[i] == "LD_" || FAMILIES[i] == "LDR_" || FAMILIES[i] == "_RLD" || FAMILIES[i] == "DYLD_";
    assert FoldsToStart(name, FAMILIES[i]) && FoldsToStart(Fitting(name), FAMILIES[i]);
  }

  /** Headers of the connection, in any letter case, and headers with an underscore in their name. */
  lemma ConnectionIsKept(name: seq<byte>)
    ensures IgnoringCase(name, "connection") || IgnoringCase(name, "transfer-encoding") || IgnoringCase(name, "upgrade") ==> HopByHop(name)
    ensures '_' as int in name ==> UnsafeHeader(name)
  {
    if IgnoringCase(name, "connection") {
      SameLetters(name, "connection", HOP_BY_HOP[0]);
    }
    if IgnoringCase(name, "transfer-encoding") {
      SameLetters(name, "transfer-encoding", HOP_BY_HOP[7]);
    }
    if IgnoringCase(name, "upgrade") {
      SameLetters(name, "upgrade", HOP_BY_HOP[8]);
    }
  }

  lemma SameLetters(name: seq<byte>, s: string, t: string)
    requires IgnoringCase(name, s) && |s| == |t|
    requires forall i :: 0 <= i < |s| ==> s[i] == t[i] || ('a' <= s[i] <= 'z' && t[i] as int == s[i] as int - 32)
    ensures IgnoringCase(name, t)
  {
  }
}
