/** Detection of HTTP requests and the split offset inside the Host header name (http.c). */
module Http {
  import opened Bytes

  const METHODS: seq<string> := [
    "GET ", "POST ", "HEAD ", "PUT ", "DELETE ",
    "OPTIONS ", "PATCH ", "TRACE ", "CONNECT "
  ]

  const NEEDLE: string := "host:"

  predicate StartsWith(d: seq<byte>, s: string) {
    |s| <= |d| && forall k :: 0 <= k < |s| ==> d[k] == s[k] as int
  }

  predicate IsRequest(d: seq<byte>) {
    |d| >= 5 && exists m | m in METHODS :: StartsWith(d, m)
  }

  /** tolower on the C locale's letters. */
  function Lower(b: byte): byte {
    if 'A' as int <= b <= 'Z' as int then b + 32 else b
  }

  /** "host:" in any case at position i (strncasecmp). */
  predicate NameAt(d: seq<byte>, i: nat) {
    i + |NEEDLE| <= |d| && forall k :: 0 <= k < |NEEDLE| ==> Lower(d[i + k]) == NEEDLE[k] as int
  }

  /** A whole Host header name that starts a line. */
  predicate HostAt(d: seq<byte>, i: nat) {
    NameAt(d, i) && (i == 0 || d[i - 1] == '\n' as int)
  }

  // ---- the same, octet by octet ----

  predicate Begins(d: seq<byte>, s: seq<byte>) {
    |s| <= |d| && d[..|s|] == s
  }

  /** GET, POST, HEAD, PUT, DELETE, OPTIONS, PATCH, TRACE or CONNECT and a space. */
  predicate MethodOctets(d: seq<byte>) {
    || Begins(d, [71, 69, 84, 32]) || Begins(d, [80, 79, 83, 84, 32]) || Begins(d, [72, 69, 65, 68, 32])
    || Begins(d, [80, 85, 84, 32]) || Begins(d, [68, 69, 76, 69, 84, 69, 32])
    || Begins(d, [79, 80, 84, 73, 79, 78, 83, 32]) || Begins(d, [80, 65, 84, 67, 72, 32])
    || Begins(d, [84, 82, 65, 67, 69, 32]) || Begins(d, [67, 79, 78, 78, 69, 67, 84, 32])
  }

  lemma StartsIff(d: seq<byte>, m: string, s: seq<byte>)
    requires |m| == |s| && forall k :: 0 <= k < |m| ==> m[k] as int == s[k]
    ensures StartsWith(d, m) <==> Begins(d, s)
  {
    if StartsWith(d, m) {
      assert d[..|s|] == s;
    }
    if Begins(d, s) {
      forall k | 0 <= k < |m| ensures d[k] == m[k] as int {
        assert d[..|s|][k] == s[k];
      }
    }
  }

  lemma NameIs(m: string)
    requires m in METHODS
    ensures m == "GET " || m == "POST " || m == "HEAD " || m == "PUT " || m == "DELETE "
         || m == "OPTIONS " || m == "PATCH " || m == "TRACE " || m == "CONNECT "
  {}

  lemma NamesAre(p: string -> bool)
    ensures (exists m | m in METHODS :: p(m)) <==>
      p("GET ") || p("POST ") || p("HEAD ") || p("PUT ") || p("DELETE ")
      || p("OPTIONS ") || p("PATCH ") || p("TRACE ") || p("CONNECT ")
  {
    if exists m | m in METHODS :: p(m) {
      var m :| m in METHODS && p(m);
      NameIs(m);
    }
    assert METHODS[0] in METHODS && METHODS[1] in METHODS && METHODS[2] in METHODS;
    assert METHODS[3] in METHODS && METHODS[4] in METHODS && METHODS[5] in METHODS;
    assert METHODS[6] in METHODS && METHODS[7] in METHODS && METHODS[8] in METHODS;
  }

  lemma ShortNames(d: seq<byte>)
    ensures StartsWith(d, "GET ") <==> Begins(d, [71, 69, 84, 32])
    ensures StartsWith(d, "POST ") <==> Begins(d, [80, 79, 83, 84, 32])
    ensures StartsWith(d, "HEAD ") <==> Begins(d, [72, 69, 65, 68, 32])
    ensures StartsWith(d, "PUT ") <==> Begins(d, [80, 85, 84, 32])
  {
    StartsIff(d, "GET ", [71, 69, 84, 32]);
    StartsIff(d, "POST ", [80, 79, 83, 84, 32]);
    StartsIff(d, "HEAD ", [72, 69, 65, 68, 32]);
    StartsIff(d, "PUT ", [80, 85, 84, 32]);
  }

  lemma LongNames(d: seq<byte>)
    ensures StartsWith(d, "DELETE ") <==> Begins(d, [68, 69, 76, 69, 84, 69, 32])
    ensures StartsWith(d, "OPTIONS ") <==> Begins(d, [79, 80, 84, 73, 79, 78, 83, 32])
    ensures StartsWith(d, "PATCH ") <==> Begins(d, [80, 65, 84, 67, 72, 32])
    ensures StartsWith(d, "TRACE ") <==> Begins(d, [84, 82, 65, 67, 69, 32])
    ensures StartsWith(d, "CONNECT ") <==> Begins(d, [67, 79, 78, 78, 69, 67, 84, 32])
  {
    StartsIff(d, "DELETE ", [68, 69, 76, 69, 84, 69, 32]);
    StartsIff(d, "OPTIONS ", [79, 80, 84, 73, 79, 78, 83, 32]);
    StartsIff(d, "PATCH ", [80, 65, 84, 67, 72, 32]);
    StartsIff(d, "TRACE ", [84, 82, 65, 67, 69, 32]);
    StartsIff(d, "CONNECT ", [67, 79, 78, 78, 69, 67, 84, 32]);
  }

  /** A request is recognised by its first octets, upper case only, and has at least five. */
  lemma RequestOctets(d: seq<byte>)
    ensures IsRequest(d) <==> |d| >= 5 && MethodOctets(d)
  {
    var p := (m: string) => StartsWith(d, m);
    NamesAre(p);
    assert IsRequest(d) <==> |d| >= 5 && exists m | m in METHODS :: p(m);
    ShortNames(d);
    LongNames(d);
  }

  /** h, o, s and t in either case and a colon, at the start of the data or after a line feed. */
  predicate HostLine(d: seq<byte>, i: nat) {
    && i + 5 <= |d|
    && d[i] in {72, 104} && d[i + 1] in {79, 111} && d[i + 2] in {83, 115} && d[i + 3] in {84, 116} && d[i + 4] == 58
    && (i == 0 || d[i - 1] == 10)
  }

  lemma HostIsHostLine(d: seq<byte>, i: nat)
    ensures HostAt(d, i) <==> HostLine(d, i)
  {
    if i + 5 <= |d| {
      assert NEEDLE == ['h', 'o', 's', 't', ':'];
      if NameAt(d, i) {
        assert Lower(d[i + 0]) == NEEDLE[0] as int && Lower(d[i + 1]) == NEEDLE[1] as int;
        assert Lower(d[i + 2]) == NEEDLE[2] as int && Lower(d[i + 3]) == NEEDLE[3] as int;
        assert Lower(d[i + 4]) == NEEDLE[4] as int;
      }
    }
  }

  /** The split offset for the first Host name at or after i. */
  function SplitFrom(d: seq<byte>, i: nat): int
    decreases |d| - i
  {
    if i + |NEEDLE| > |d| then -1
    else if HostAt(d, i) then i + 2
    else SplitFrom(d, i + 1)
  }

  function Split(d: seq<byte>): int {
    if IsRequest(d) then SplitFrom(d, 0) else -1
  }

  method CheckRequest(d: seq<byte>) returns (r: bool)
    ensures r == IsRequest(d)
  {
    var len := |d|;
    if len < 5 {
      return false;
    }
    for i := 0 to |METHODS|
      invariant forall j :: 0 <= j < i ==> !StartsWith(d, METHODS[j])
    {
      var m := METHODS[i];
      if len >= |m| && (forall k | 0 <= k < |m| :: d[k] == m[k] as int) {
        assert StartsWith(d, m);
        return true;
      }
    }
    return false;
  }

  method SplitOffset(d: seq<byte>) returns (r: int)
    ensures r == Split(d)
  {
    var request := CheckRequest(d);
    if !request {
      return -1;
    }
    var i := 0;
    while i + |NEEDLE| <= |d|
      invariant i >= 0
      invariant SplitFrom(d, i) == Split(d)
      decreases |d| - i
    {
      var lineStart := i == 0 || d[i - 1] == '\n' as int;
      if lineStart && NameAt(d, i) {
        var off := i + 2;
        if off > 0 && off < |d| {
          return off;
        }
        return -1;
      }
      i := i + 1;
    }
    return -1;
  }

  ghost predicate NoHost(d: seq<byte>) {
    forall j: nat :: !HostLine(d, j)
  }

  /** The first Host name that starts a line is at position i. */
  ghost predicate FirstHostAt(d: seq<byte>, i: nat) {
    HostLine(d, i) && forall j: nat :: j < i ==> !HostLine(d, j)
  }

  lemma {:induction false} SplitFromFindsFirst(d: seq<byte>, i: nat)
    requires forall j: nat :: j < i ==> !HostLine(d, j)
    ensures SplitFrom(d, i) == -1 ==> NoHost(d)
    ensures SplitFrom(d, i) != -1 ==> i <= SplitFrom(d, i) - 2 && FirstHostAt(d, SplitFrom(d, i) - 2)
    decreases |d| - i
  {
    HostIsHostLine(d, i);
    if i + |NEEDLE| <= |d| && !HostAt(d, i) {
      SplitFromFindsFirst(d, i + 1);
    }
  }

  /**
   * On a request the offset is two octets into the first Host name that starts a line, its
   * letters in either case, and -1 exactly when there is none; every other text gives -1.
   */
  lemma {:induction false} SplitIsFirstHost(d: seq<byte>)
    ensures Split(d) == -1 <==> !IsRequest(d) || NoHost(d)
    ensures Split(d) != -1 ==> 2 <= Split(d) < |d| && FirstHostAt(d, Split(d) - 2)
  {
    if IsRequest(d) {
      SplitFromFindsFirst(d, 0);
    }
  }

  lemma HostInPrefix(d: seq<byte>, n: nat, j: nat)
    requires n <= |d|
    ensures HostLine(d[..n], j) ==> HostLine(d, j) && j + 5 <= n
  {}

  /** Cut at the offset found, the first fragment holds no whole Host name at all. */
  lemma FirstFragmentHasNoHost(d: seq<byte>, j: nat)
    requires Split(d) != -1
    ensures 0 < Split(d) <= |d| && !HostLine(d[..Split(d)], j)
  {
    SplitIsFirstHost(d);
    HostInPrefix(d, Split(d), j);
  }
}
