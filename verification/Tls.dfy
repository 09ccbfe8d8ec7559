/** The ClientHello walker that finds the split offset inside the SNI host name (tls.c). */
module Tls {
  import opened Bytes

  predicate IsClientHello(d: seq<byte>) {
    |d| >= 6 && d[0] == 0x16 && d[1] == 0x03 && d[5] == 0x01
  }

  /** Where the extensions' length field starts, unless a field before it is cut off. */
  function ExtensionsAt(d: seq<byte>): (r: Option<nat>)
    ensures r.Some? ==> r.value + 2 <= |d|
  {
    if |d| < 44 then None
    else
      var sid: int := d[43];
      var suites := 44 + sid;
      if suites + 2 > |d| then None
      else
        var comps := suites + 2 + Rd16(d, suites);
        if comps + 1 > |d| then None
        else
          var exts := comps + 1 + d[comps];
          if exts + 2 > |d| then None else Some(exts)
  }

  /** The split offset for an SNI extension whose body of n octets starts at body. */
  function HostSplit(d: seq<byte>, body: nat, n: nat): (r: int)
    requires body + n <= |d|
    ensures r == -1 || body + 5 <= r < |d|
  {
    if n < 5 then -1
    else
      var q, name := body + 5, Rd16(d, body + 3);
      if q + name > |d| || name == 0 then -1
      else if q + 1 < |d| then q + 1
      else q
  }

  /** The result for the extensions between pos and end. */
  function Walk(d: seq<byte>, pos: nat, end: nat): (r: int)
    requires end <= |d|
    ensures r == -1 || pos < r < |d|
    decreases end - pos
  {
    if pos + 4 > end then -1
    else
      var elen := Rd16(d, pos + 2);
      if pos + 4 + elen > end then -1
      else if Rd16(d, pos) == 0 then HostSplit(d, pos + 4, elen)
      else Walk(d, pos + 4 + elen, end)
  }

  function Min(a: nat, b: nat): nat {
    if a < b then a else b
  }

  /** The result for an extension list that starts at pos, clipped to the data. */
  function FromList(d: seq<byte>, pos: nat): (r: int)
    requires 2 <= pos <= |d|
    ensures r == -1 || pos < r < |d|
  {
    Walk(d, pos, Min(pos + Rd16(d, pos - 2), |d|))
  }

  function Split(d: seq<byte>): (r: int)
    ensures r == -1 || 0 < r < |d|
  {
    var at := ExtensionsAt(d);
    if !IsClientHello(d) || at.None? then -1 else FromList(d, at.value + 2)
  }

  /** The fixed part of the walk: the position of the extensions' length field, or -1. */
  method SkipToExtensions(d: seq<byte>) returns (pos: int)
    ensures pos == if ExtensionsAt(d).Some? then ExtensionsAt(d).value else -1
  {
    var len := |d|;
    pos := 5;
    if pos + 4 > len { return -1; }
    pos := pos + 4;
    if pos + 2 > len { return -1; }
    pos := pos + 2;
    if pos + 32 > len { return -1; }
    pos := pos + 32;
    if pos + 1 > len { return -1; }
    var sid := d[pos];
    pos := pos + 1 + sid;
    if pos > len { return -1; }
    if pos + 2 > len { return -1; }
    var cs := Rd16(d, pos);
    pos := pos + 2 + cs;
    if pos > len { return -1; }
    if pos + 1 > len { return -1; }
    var cm := d[pos];
    pos := pos + 1 + cm;
    if pos > len { return -1; }
    if pos + 2 > len { return -1; }
  }

  /** The loop over the extensions between pos and end. */
  method WalkExtensions(d: seq<byte>, start: nat, end: nat) returns (r: int)
    requires end <= |d|
    ensures r == Walk(d, start, end)
  {
    var len := |d|;
    var pos := start;
    while pos + 4 <= end
      invariant pos >= 0
      invariant Walk(d, pos, end) == Walk(d, start, end)
      decreases end - pos
    {
      var etype := Rd16(d, pos);
      var elen := Rd16(d, pos + 2);
      var ebody := pos + 4;
      if ebody + elen > end { return -1; }
      if etype == 0 {
        var q := ebody;
        if q + 2 > ebody + elen { return -1; }
        q := q + 2;
        if q + 3 > ebody + elen { return -1; }
        q := q + 1;
        var name := Rd16(d, q);
        q := q + 2;
        if q + name > len || name <= 0 { return -1; }
        var off := q + 1;
        if off > 0 && off < len { return off; }
        if q > 0 && q < len { return q; }
        return -1;
      }
      pos := ebody + elen;
    }
    return -1;
  }

  method SplitOffset(d: seq<byte>) returns (r: int)
    ensures r == Split(d)
  {
    if !IsClientHello(d) {
      return -1;
    }
    var pos := SkipToExtensions(d);
    if pos < 0 {
      return -1;
    }
    var total := Rd16(d, pos);
    pos := pos + 2;
    var end := pos + total;
    if end > |d| {
      end := |d|;
    }
    r := WalkExtensions(d, pos, end);
  }

  // ---- a ClientHello encoder: RFC 8446 section 4.1.2, RFC 6066 section 3 ----

  /** Vectors whose length is sent in one octet and in two. */
  type Opaque8 = s: seq<byte> | |s| < 0x100
  type Opaque16 = s: seq<byte> | |s| < 0x1_0000
  type Random = s: seq<byte> | |s| == 32
    witness seq(32, _ => 0)

  datatype Extension = Extension(kind: u16, body: Opaque16)

  datatype HostName = HostName(kind: byte, name: Opaque16)

  datatype Hello = Hello(
    recordMinor: byte, version: u16, random: Random, session: Opaque8,
    suites: Opaque16, compression: Opaque8, extensions: seq<Extension>)

  function EncodeExtension(e: Extension): (b: seq<byte>)
    ensures |b| == 4 + |e.body|
  {
    Be16(e.kind) + (Be16(|e.body|) + e.body)
  }

  function EncodeExtensions(es: seq<Extension>): seq<byte> {
    if es == [] then [] else EncodeExtension(es[0]) + EncodeExtensions(es[1..])
  }

  function EncodeNames(ns: seq<HostName>): seq<byte> {
    if ns == [] then [] else [ns[0].kind] + Be16(|ns[0].name|) + ns[0].name + EncodeNames(ns[1..])
  }

  /** A server_name extension listing ns. */
  ghost predicate IsSni(e: Extension, ns: seq<HostName>) {
    && e.kind == 0
    && |EncodeNames(ns)| < 0x1_0000
    && e.body == Be16(|EncodeNames(ns)|) + EncodeNames(ns)
  }

  /** The handshake message after its 4-octet header. */
  function HandshakeBody(h: Hello): seq<byte>
    requires |EncodeExtensions(h.extensions)| < 0x1_0000
  {
    Be16(h.version) + h.random + Vectors(h)
  }

  /** The four variable-length fields. */
  function Vectors(h: Hello): seq<byte>
    requires |EncodeExtensions(h.extensions)| < 0x1_0000
  {
    [|h.session|] + (h.session + (Be16(|h.suites|) + (h.suites
    + ([|h.compression|] + (h.compression + ExtensionPart(h))))))
  }

  /** A hello from the extensions' length on. */
  function ExtensionPart(h: Hello): seq<byte>
    requires |EncodeExtensions(h.extensions)| < 0x1_0000
  {
    Be16(|EncodeExtensions(h.extensions)|) + EncodeExtensions(h.extensions)
  }

  /** The lengths of the extension list and of the record fit their fields. */
  predicate Encodable(h: Hello) {
    |EncodeExtensions(h.extensions)| < 0x1_0000 && |HandshakeBody(h)| <= 0xfffb
  }

  /** The whole hello in one TLS record. */
  function Encode(h: Hello): seq<byte>
    requires Encodable(h)
  {
    var b := HandshakeBody(h);
    [0x16, 0x03, h.recordMinor] + Be16(4 + |b|) + [0x01, 0] + Be16(|b|) + b
  }

  /** m holds s at position at. */
  predicate Holds(m: seq<byte>, at: nat, s: seq<byte>) {
    at + |s| <= |m| && forall i :: 0 <= i < |s| ==> m[at + i] == s[i]
  }

  lemma HoldsParts(m: seq<byte>, at: nat, a: seq<byte>, b: seq<byte>)
    requires Holds(m, at, a + b)
    ensures Holds(m, at, a) && Holds(m, at + |a|, b)
  {
    forall i | 0 <= i < |a| ensures m[at + i] == a[i] {
      assert (a + b)[i] == a[i];
    }
    forall i | 0 <= i < |b| ensures m[at + |a| + i] == b[i] {
      assert (a + b)[|a| + i] == b[i];
    }
  }

  lemma HoldsWord(m: seq<byte>, at: nat, v: u16, s: seq<byte>)
    requires Holds(m, at, Be16(v) + s)
    ensures at + 2 <= |m| && Rd16(m, at) == v && Holds(m, at + 2, s)
  {
    HoldsParts(m, at, Be16(v), s);
    var w := Be16(v);
    assert m[at + 0] == w[0] && m[at + 1] == w[1];
  }

  lemma HoldsOctet(m: seq<byte>, at: nat, v: byte, s: seq<byte>)
    requires Holds(m, at, [v] + s)
    ensures at < |m| && m[at] == v && Holds(m, at + 1, s)
  {
    HoldsParts(m, at, [v], s);
    assert m[at + 0] == [v][0];
  }

  /** The fixed 43 octets of a hello: record header, handshake header, version, random. */
  function FixedPart(h: Hello): seq<byte>
    requires Encodable(h)
  {
    var n := |HandshakeBody(h)|;
    [0x16, 0x03, h.recordMinor] + Be16(4 + n) + [0x01, 0] + Be16(n) + Be16(h.version) + h.random
  }

  lemma EncodeParts(h: Hello)
    requires Encodable(h)
    ensures |FixedPart(h)| == 43
    ensures Encode(h) == FixedPart(h) + Vectors(h)
  {}

  /** Where h's extension list starts. */
  function ListAt(h: Hello): nat {
    49 + |h.session| + |h.suites| + |h.compression|
  }

  /** m has the fields in front of h's extension list where the locator reads them. */
  ghost predicate CarriesFields(h: Hello, m: seq<byte>) {
    var suites := 44 + |h.session|;
    var comps := suites + 2 + |h.suites|;
    && |m| >= ListAt(h) && IsClientHello(m)
    && m[43] == |h.session| && Rd16(m, suites) == |h.suites| && m[comps] == |h.compression|
  }

  /** m has h's extension list, with its length in front. */
  ghost predicate CarriesList(h: Hello, m: seq<byte>) {
    var x := EncodeExtensions(h.extensions);
    |m| >= ListAt(h) && Rd16(m, ListAt(h) - 2) == |x| && Holds(m, ListAt(h), x)
  }

  ghost predicate Carries(h: Hello, m: seq<byte>) {
    CarriesFields(h, m) && CarriesList(h, m)
  }

  lemma EncodeCarries(h: Hello, m: seq<byte>)
    requires Encodable(h) && Encode(h) <= m
    ensures Carries(h, m)
  {
    EncodeParts(h);
    HoldsParts(m, 0, FixedPart(h), Vectors(h));
    VectorsAt43(h, m, FixedPart(h));
  }

  lemma VectorsAt43(h: Hello, m: seq<byte>, fixed: seq<byte>)
    requires |EncodeExtensions(h.extensions)| < 0x1_0000
    requires |fixed| == 43 && IsClientHello(fixed) && fixed <= m && Holds(m, 43, Vectors(h))
    ensures Carries(h, m)
  {
    var c := [|h.compression|] + (h.compression + ExtensionPart(h));
    var s := Be16(|h.suites|) + (h.suites + c);
    HoldsOctet(m, 43, |h.session|, h.session + s);
    HoldsParts(m, 44, h.session, s);
    HoldsWord(m, 44 + |h.session|, |h.suites|, h.suites + c);
    VectorsFromSuites(h, m);
    assert m[0] == fixed[0] && m[1] == fixed[1] && m[5] == fixed[5];
  }

  lemma VectorsFromSuites(h: Hello, m: seq<byte>)
    requires |EncodeExtensions(h.extensions)| < 0x1_0000
    requires Holds(m, 46 + |h.session|, h.suites + ([|h.compression|] + (h.compression + ExtensionPart(h))))
    ensures var at := ListAt(h);
      && |m| >= at && m[at - 3 - |h.compression|] == |h.compression|
      && Rd16(m, at - 2) == |EncodeExtensions(h.extensions)| && Holds(m, at, EncodeExtensions(h.extensions))
  {
    var x := EncodeExtensions(h.extensions);
    HoldsParts(m, 46 + |h.session|, h.suites, [|h.compression|] + (h.compression + ExtensionPart(h)));
    HoldsOctet(m, 46 + |h.session| + |h.suites|, |h.compression|, h.compression + ExtensionPart(h));
    HoldsParts(m, 47 + |h.session| + |h.suites|, h.compression, ExtensionPart(h));
    HoldsWord(m, ListAt(h) - 2, |x|, x);
  }

  /** The header fields of a part of m are found, or found cut off, where m has them. */
  lemma ExtensionsAtPart(h: Hello, m: seq<byte>, d: seq<byte>)
    requires CarriesFields(h, m) && d <= m
    ensures ExtensionsAt(d) == if |d| < ListAt(h) then None else Some(ListAt(h) - 2)
    ensures |d| >= 6 ==> IsClientHello(d)
  {
    var suites := 44 + |h.session|;
    if |d| >= suites + 2 {
      assert Rd16(d, suites) == Rd16(m, suites);
    }
  }

  // ---- the walk along an encoded extension list ----

  /** Where the extension es[k] starts when the list starts at pos. */
  function StartOf(es: seq<Extension>, k: nat, pos: nat): nat
    requires k <= |es|
  {
    if k == 0 then pos else StartOf(es[1..], k - 1, pos + 4 + |es[0].body|)
  }

  lemma {:induction false} StartAfter(es: seq<Extension>, k: nat, pos: nat)
    requires k <= |es|
    ensures pos <= StartOf(es, k, pos)
  {
    if k > 0 {
      StartAfter(es[1..], k - 1, pos + 4 + |es[0].body|);
    }
  }

  /** What the walk should give for the encoded list es at pos. */
  function Expected(d: seq<byte>, es: seq<Extension>, pos: nat): int {
    if es == [] then -1
    else
      var next := pos + 4 + |es[0].body|;
      if next > |d| then -1
      else if es[0].kind == 0 then HostSplit(d, pos + 4, |es[0].body|)
      else Expected(d, es[1..], next)
  }

  /** One step of the walk over an encoded extension e that m holds at pos; d is the part received. */
  lemma WalkOne(m: seq<byte>, d: seq<byte>, pos: nat, end: nat, e: Extension, rest: nat)
    requires d <= m && Holds(m, pos, EncodeExtension(e))
    requires end == Min(pos + 4 + |e.body| + rest, |d|)
    ensures var next := pos + 4 + |e.body|;
      Walk(d, pos, end) == if next > |d| then -1
                           else if e.kind == 0 then HostSplit(d, pos + 4, |e.body|)
                           else Walk(d, next, end)
  {
    HoldsWord(m, pos, e.kind, Be16(|e.body|) + e.body);
    HoldsWord(m, pos + 2, |e.body|, e.body);
    if pos + 4 <= |d| {
      assert Rd16(d, pos) == Rd16(m, pos) && Rd16(d, pos + 2) == Rd16(m, pos + 2);
    }
  }

  lemma {:induction false} WalkIsExpected(m: seq<byte>, d: seq<byte>, pos: nat, es: seq<Extension>)
    requires d <= m && Holds(m, pos, EncodeExtensions(es)) && pos <= |d|
    ensures Walk(d, pos, Min(pos + |EncodeExtensions(es)|, |d|)) == Expected(d, es, pos)
    decreases |es|
  {
    if es != [] {
      var rest := EncodeExtensions(es[1..]);
      var next := pos + 4 + |es[0].body|;
      assert Holds(m, pos, EncodeExtension(es[0])) && Holds(m, next, rest) by {
        HoldsParts(m, pos, EncodeExtension(es[0]), rest);
      }
      WalkOne(m, d, pos, Min(next + |rest|, |d|), es[0], |rest|);
      if next <= |d| {
        WalkIsExpected(m, d, next, es[1..]);
      }
    }
  }

  /** The body of extension k lies where StartOf says. */
  lemma {:induction false} HoldsBody(m: seq<byte>, pos: nat, es: seq<Extension>, k: nat)
    requires Holds(m, pos, EncodeExtensions(es)) && k < |es|
    ensures Holds(m, StartOf(es, k, pos) + 4, es[k].body)
    decreases k
  {
    HoldsParts(m, pos, EncodeExtension(es[0]), EncodeExtensions(es[1..]));
    if k == 0 {
      HoldsWord(m, pos, es[0].kind, Be16(|es[0].body|) + es[0].body);
      HoldsWord(m, pos + 2, |es[0].body|, es[0].body);
    } else {
      HoldsBody(m, pos + 4 + |es[0].body|, es[1..], k - 1);
    }
  }

  lemma {:induction false} ExpectedOfFirstSni(d: seq<byte>, pos: nat, es: seq<Extension>, k: nat)
    requires k < |es| && es[k].kind == 0 && forall j :: 0 <= j < k ==> es[j].kind != 0
    ensures var body := StartOf(es, k, pos) + 4;
      Expected(d, es, pos) == if body + |es[k].body| > |d| then -1 else HostSplit(d, body, |es[k].body|)
    decreases k
  {
    if k > 0 {
      var next := pos + 4 + |es[0].body|;
      ExpectedOfFirstSni(d, next, es[1..], k - 1);
      StartAfter(es[1..], k - 1, next);
    }
  }

  lemma {:induction false} ExpectedWithoutSni(d: seq<byte>, pos: nat, es: seq<Extension>)
    requires forall j :: 0 <= j < |es| ==> es[j].kind != 0
    ensures Expected(d, es, pos) == -1
    decreases |es|
  {
    if es != [] {
      ExpectedWithoutSni(d, pos + 4 + |es[0].body|, es[1..]);
    }
  }

  // ---- the locator on encoded hellos ----

  /** d is a prefix of s, or s a prefix of d: what a sender's first segment may hold of a hello s. */
  predicate Comparable(d: seq<byte>, s: seq<byte>) {
    d <= s || s <= d
  }

  /** The longer of two comparable sequences. */
  function Longer(d: seq<byte>, s: seq<byte>): seq<byte> {
    if |d| < |s| then s else d
  }

  lemma SplitIsWalk(d: seq<byte>, at: nat)
    requires IsClientHello(d) && ExtensionsAt(d) == Some(at)
    ensures Split(d) == FromList(d, at + 2)
  {}

  lemma SplitStarts(h: Hello, m: seq<byte>, d: seq<byte>)
    requires CarriesFields(h, m) && d <= m
    ensures Split(d) == if |d| < ListAt(h) then -1 else FromList(d, ListAt(h))
  {
    ExtensionsAtPart(h, m, d);
    if |d| >= ListAt(h) {
      SplitIsWalk(d, ListAt(h) - 2);
    }
  }

  lemma FromListIsExpected(m: seq<byte>, d: seq<byte>, pos: nat, es: seq<Extension>)
    requires d <= m && Holds(m, pos, EncodeExtensions(es)) && 2 <= pos <= |d|
    requires Rd16(m, pos - 2) == |EncodeExtensions(es)|
    ensures FromList(d, pos) == Expected(d, es, pos)
  {
    assert Rd16(d, pos - 2) == Rd16(m, pos - 2);
    WalkIsExpected(m, d, pos, es);
  }

  lemma ListIsExpected(h: Hello, m: seq<byte>, d: seq<byte>)
    requires CarriesList(h, m) && d <= m && |d| >= ListAt(h)
    ensures FromList(d, ListAt(h)) == Expected(d, h.extensions, ListAt(h))
  {
    FromListIsExpected(m, d, ListAt(h), h.extensions);
  }

  lemma SplitIsExpected(h: Hello, m: seq<byte>, d: seq<byte>)
    requires CarriesFields(h, m) && CarriesList(h, m) && d <= m
    ensures Split(d) == if |d| < ListAt(h) then -1 else Expected(d, h.extensions, ListAt(h))
  {
    SplitStarts(h, m, d);
    if |d| >= ListAt(h) {
      ListIsExpected(h, m, d);
    }
  }

  /** Where the first host name of h's extension k starts. */
  function NameAt(h: Hello, k: nat): nat
    requires k < |h.extensions|
  {
    StartOf(h.extensions, k, ListAt(h)) + 9
  }

  /** The first octet after h's extension k. */
  function EndOf(h: Hello, k: nat): nat
    requires k < |h.extensions|
  {
    StartOf(h.extensions, k, ListAt(h)) + 4 + |h.extensions[k].body|
  }

  /** The first host name lies inside its extension, behind the fixed fields of the hello. */
  lemma NameInsideExtension(h: Hello, k: nat, ns: seq<HostName>)
    requires k < |h.extensions| && IsSni(h.extensions[k], ns) && ns != []
    ensures 58 <= NameAt(h, k) && NameAt(h, k) + |ns[0].name| <= EndOf(h, k)
  {
    StartAfter(h.extensions, k, ListAt(h));
  }

  /**
   * The locator is exact on every prefix and every extension of an encoded hello whose
   * extension k is the first server_name: once the whole of that extension is there it
   * cuts one octet into the first host name, before that it finds nothing.  A one-octet
   * name at the very end of the data is cut in front, an empty name not at all.
   */
  lemma {:induction false} SplitOfHello(h: Hello, k: nat, ns: seq<HostName>, d: seq<byte>)
    requires Encodable(h) && Comparable(d, Encode(h))
    requires k < |h.extensions| && forall j :: 0 <= j < k ==> h.extensions[j].kind != 0
    requires IsSni(h.extensions[k], ns) && ns != []
    ensures Split(d) ==
      if |d| < EndOf(h, k) || ns[0].name == [] then -1
      else if NameAt(h, k) + 1 == |d| then NameAt(h, k)
      else NameAt(h, k) + 1
  {
    var m := Longer(d, Encode(h));
    assert Carries(h, m) by { EncodeCarries(h, m); }
    SplitOfCarried(h, k, ns, m, d);
  }

  lemma SplitOfCarried(h: Hello, k: nat, ns: seq<HostName>, m: seq<byte>, d: seq<byte>)
    requires Carries(h, m) && d <= m
    requires k < |h.extensions| && forall j :: 0 <= j < k ==> h.extensions[j].kind != 0
    requires IsSni(h.extensions[k], ns) && ns != []
    ensures Split(d) ==
      if |d| < EndOf(h, k) || ns[0].name == [] then -1
      else if NameAt(h, k) + 1 == |d| then NameAt(h, k)
      else NameAt(h, k) + 1
  {
    SplitIsExpected(h, m, d);
    StartAfter(h.extensions, k, ListAt(h));
    if |d| >= ListAt(h) {
      ExpectedOfSni(m, d, ListAt(h), h.extensions, k, ns);
    }
  }

  lemma ExpectedOfSni(m: seq<byte>, d: seq<byte>, pos: nat, es: seq<Extension>, k: nat, ns: seq<HostName>)
    requires d <= m && Holds(m, pos, EncodeExtensions(es)) && pos <= |d|
    requires k < |es| && forall j :: 0 <= j < k ==> es[j].kind != 0
    requires IsSni(es[k], ns) && ns != []
    ensures var at := StartOf(es, k, pos);
      Expected(d, es, pos) ==
        if |d| < at + 4 + |es[k].body| || ns[0].name == [] then -1
        else if at + 10 == |d| then at + 9
        else at + 10
  {
    var body := StartOf(es, k, pos) + 4;
    ExpectedOfFirstSni(d, pos, es, k);
    if body + |es[k].body| <= |d| {
      HoldsBody(m, pos, es, k);
      assert Holds(d, body, es[k].body);
      HostSplitOfSni(d, body, es[k], ns);
    }
  }

  lemma HostSplitOfSni(d: seq<byte>, at: nat, e: Extension, ns: seq<HostName>)
    requires IsSni(e, ns) && ns != [] && Holds(d, at, e.body)
    ensures HostSplit(d, at, |e.body|) ==
      if ns[0].name == [] then -1 else if at + 6 == |d| then at + 5 else at + 6
  {
    var n := ns[0].name;
    var names := EncodeNames(ns);
    var more := n + EncodeNames(ns[1..]);
    HoldsWord(d, at, |names|, names);
    assert names == [ns[0].kind] + (Be16(|n|) + more);
    HoldsOctet(d, at + 2, ns[0].kind, Be16(|n|) + more);
    HoldsWord(d, at + 3, |n|, more);
  }

  /** A hello without a server_name extension is never cut by the locator. */
  lemma SplitOfHelloWithoutSni(h: Hello, d: seq<byte>)
    requires Encodable(h) && Comparable(d, Encode(h))
    requires forall j :: 0 <= j < |h.extensions| ==> h.extensions[j].kind != 0
    ensures Split(d) == -1
  {
    var m := Longer(d, Encode(h));
    assert Carries(h, m) by { EncodeCarries(h, m); }
    SplitIsExpected(h, m, d);
    ExpectedWithoutSni(d, ListAt(h), h.extensions);
  }

  // ---- arbitrary octets ----

  /** A one-octet host name, whose first octet is at r, ends the data. */
  predicate OneOctetNameEnds(d: seq<byte>, r: int) {
    2 <= r == |d| - 1 && Rd16(d, r - 2) == 1
  }

  lemma HostSplitGrows(d: seq<byte>, more: seq<byte>, body: nat, n: nat)
    requires body + n <= |d| && HostSplit(d, body, n) >= 0
    ensures HostSplit(d + more, body, n) ==
      HostSplit(d, body, n) + if more != [] && OneOctetNameEnds(d, HostSplit(d, body, n)) then 1 else 0
  {
    Rd16Grows(d, more, body + 3);
  }

  lemma Rd16Grows(d: seq<byte>, more: seq<byte>, i: nat)
    requires i + 2 <= |d|
    ensures Rd16(d + more, i) == Rd16(d, i)
  {}

  lemma WalkStep(d: seq<byte>, pos: nat, end: nat)
    requires end <= |d| && pos + 4 <= end && pos + 4 + Rd16(d, pos + 2) <= end
    ensures var elen := Rd16(d, pos + 2);
      Walk(d, pos, end) == if Rd16(d, pos) == 0 then HostSplit(d, pos + 4, elen) else Walk(d, pos + 4 + elen, end)
  {}

  lemma {:induction false} WalkGrows(d: seq<byte>, more: seq<byte>, pos: nat, end: nat, end': nat)
    requires end <= |d| && end <= end' <= |d + more| && Walk(d, pos, end) >= 0
    ensures Walk(d + more, pos, end') ==
      Walk(d, pos, end) + if more != [] && OneOctetNameEnds(d, Walk(d, pos, end)) then 1 else 0
    decreases end - pos
  {
    var elen := Rd16(d, pos + 2);
    Rd16Grows(d, more, pos);
    Rd16Grows(d, more, pos + 2);
    WalkStep(d, pos, end);
    WalkStep(d + more, pos, end');
    if Rd16(d, pos) == 0 {
      HostSplitGrows(d, more, pos + 4, elen);
    } else {
      WalkGrows(d, more, pos + 4 + elen, end, end');
    }
  }

  lemma ExtensionsAtGrows(d: seq<byte>, more: seq<byte>)
    requires ExtensionsAt(d).Some?
    ensures ExtensionsAt(d + more) == ExtensionsAt(d)
  {
    var suites := 44 + d[43] as int;
    assert Rd16(d + more, suites) == Rd16(d, suites);
  }

  /**
   * Prefix stability on arbitrary octets: an offset found in the first part of a hello is
   * the offset found in any longer part, except exactly when the first part ends with a
   * one-octet host name; then it moves behind that octet.
   */
  lemma SplitGrows(d: seq<byte>, more: seq<byte>)
    requires Split(d) >= 0
    ensures Split(d + more) == Split(d) + if more != [] && OneOctetNameEnds(d, Split(d)) then 1 else 0
  {
    var at := ExtensionsAt(d).value;
    ExtensionsAtGrows(d, more);
    SplitIsWalk(d, at);
    SplitIsWalk(d + more, at);
    FromListGrows(d, more, at + 2);
  }

  lemma FromListGrows(d: seq<byte>, more: seq<byte>, pos: nat)
    requires 2 <= pos <= |d| && FromList(d, pos) >= 0
    ensures FromList(d + more, pos)
         == FromList(d, pos) + if more != [] && OneOctetNameEnds(d, FromList(d, pos)) then 1 else 0
  {
    assert Rd16(d + more, pos - 2) == Rd16(d, pos - 2);
    WalkGrows(d, more, pos, Min(pos + Rd16(d, pos - 2), |d|), Min(pos + Rd16(d, pos - 2), |d + more|));
  }

  // ---- arbitrary octets, extension by extension ----

  /** A handshake record, major version 3, that starts with a ClientHello. */
  predicate HelloOctets(d: seq<byte>) {
    |d| >= 6 && d[0] == 22 && d[1] == 3 && d[5] == 1
  }

  /** Octet by octet, where the extensions' length field of a hello is, if all of it is there. */
  predicate ListLengthAt(d: seq<byte>, e: int) {
    && |d| >= 44
    && var a: int := 44 + d[43] as int;
       && a + 2 <= |d|
       && var b: int := a + 2 + Word16(d[a], d[a + 1]);
          b + 1 <= |d| && e == b + 1 + d[b] as int && e + 2 <= |d|
  }

  lemma ListLengthIff(d: seq<byte>, e: nat)
    ensures ListLengthAt(d, e) <==> ExtensionsAt(d) == Some(e)
  {}

  /** From pos, whole extensions that are no server_name lead to at. */
  predicate StepsTo(d: seq<byte>, pos: nat, end: nat, at: nat)
    requires end <= |d|
    decreases end - pos
  {
    pos == at
    || (pos + 4 <= end && (d[pos] != 0 || d[pos + 1] != 0)
        && var next := pos + 4 + Word16(d[pos + 2], d[pos + 3]);
           next <= end && StepsTo(d, next, end, at))
  }

  /** At at the walk is over: the list ends, an extension overruns it, or a server_name is found. */
  predicate StopsAt(d: seq<byte>, end: nat, at: nat)
    requires end <= |d|
  {
    at + 4 > end || at + 4 + Word16(d[at + 2], d[at + 3]) > end || (d[at] == 0 && d[at + 1] == 0)
  }

  /** What is found there: a name may run past its extension, but not past the data. */
  function FoundAt(d: seq<byte>, end: nat, at: nat): int
    requires end <= |d|
  {
    if at + 4 > end then -1
    else
      var len := Word16(d[at + 2], d[at + 3]);
      if at + 4 + len > end || len < 5 then -1
      else
        var name := Word16(d[at + 7], d[at + 8]);
        if name == 0 || at + 9 + name > |d| then -1
        else if at + 10 == |d| then at + 9 else at + 10
  }

  lemma WalkStops(d: seq<byte>, end: nat, at: nat)
    requires end <= |d| && StopsAt(d, end, at)
    ensures Walk(d, at, end) == FoundAt(d, end, at)
  {}

  lemma StepsOn(d: seq<byte>, pos: nat, end: nat, at: nat) returns (next: nat)
    requires end <= |d| && StepsTo(d, pos, end, at) && pos != at
    ensures pos < next <= end && StepsTo(d, next, end, at) && Walk(d, pos, end) == Walk(d, next, end)
  {
    next := pos + 4 + Word16(d[pos + 2], d[pos + 3]);
    WalkStep(d, pos, end);
  }

  lemma {:induction false} WalkFollows(d: seq<byte>, pos: nat, end: nat, at: nat)
    requires end <= |d| && StepsTo(d, pos, end, at)
    ensures Walk(d, pos, end) == Walk(d, at, end)
    decreases end - pos
  {
    if pos != at {
      var next := StepsOn(d, pos, end, at);
      WalkFollows(d, next, end, at);
    }
  }

  /** The walk always comes to such a place. */
  lemma {:induction false} WalkComesTo(d: seq<byte>, pos: nat, end: nat) returns (at: nat)
    requires end <= |d|
    ensures StepsTo(d, pos, end, at) && StopsAt(d, end, at)
    decreases end - pos
  {
    if StopsAt(d, end, pos) {
      at := pos;
    } else {
      at := WalkComesTo(d, pos + 4 + Word16(d[pos + 2], d[pos + 3]), end);
    }
  }

  /**
   * On arbitrary octets, in full: nothing is found without a handshake record of a ClientHello
   * that reaches its extensions; and otherwise what the first place shows where the walk over
   * the list, clipped to the data, stops.
   */
  lemma SplitOfAnything(d: seq<byte>, e: nat, at: nat)
    ensures !HelloOctets(d) || (forall i: nat :: !ListLengthAt(d, i)) ==> Split(d) == -1
    ensures HelloOctets(d) && ListLengthAt(d, e) ==>
      var end := Min(e + 2 + Word16(d[e], d[e + 1]), |d|);
      StepsTo(d, e + 2, end, at) && StopsAt(d, end, at) ==> Split(d) == FoundAt(d, end, at)
  {
    if ExtensionsAt(d).Some? {
      ListLengthIff(d, ExtensionsAt(d).value);
    }
    if HelloOctets(d) && ListLengthAt(d, e) {
      var end := Min(e + 2 + Word16(d[e], d[e + 1]), |d|);
      ListLengthIff(d, e);
      SplitIsWalk(d, e);
      if StepsTo(d, e + 2, end, at) && StopsAt(d, end, at) {
        WalkFollows(d, e + 2, end, at);
        WalkStops(d, end, at);
      }
    }
  }
}
