/** The driver descriptor's wire format, user/driver-abi/src/lib.rs. */
module DriverAbi {
  import opened Words

  const MAGIC: nat := 0x44524956

  datatype Kind = Mmio(base: Word, size: Word) | Irq(line: nat) | Dma(length: Word)

  /** Names are the bytes of a string, which are always valid UTF-8. */
  datatype Resource = Resource(kind: Kind, name: seq<Byte>)

  datatype Desc = Desc(name: seq<Byte>, major: nat, minor: nat, patch: nat, caps: Word, resources: seq<Resource>)

  // ---- strings ----

  predicate Tail(b: Byte) {
    0x80 <= b < 0xC0
  }

  /** Length of the well-formed UTF-8 character at the front (section 4 of RFC 3629), zero if there is none. */
  function CharLength(s: seq<Byte>): (n: nat)
    ensures n <= |s|
  {
    if |s| >= 1 && s[0] < 0x80 then 1
    else if |s| >= 2 && 0xC2 <= s[0] < 0xE0 && Tail(s[1]) then 2
    else if |s| >= 3 && 0xE0 <= s[0] < 0xF0 && Tail(s[1]) && Tail(s[2])
      && (s[0] == 0xE0 ==> s[1] >= 0xA0) && (s[0] == 0xED ==> s[1] < 0xA0) then 3
    else if |s| >= 4 && 0xF0 <= s[0] < 0xF5 && Tail(s[1]) && Tail(s[2]) && Tail(s[3])
      && (s[0] == 0xF0 ==> s[1] >= 0x90) && (s[0] == 0xF4 ==> s[1] < 0x90) then 4
    else 0
  }

  predicate Utf8(s: seq<Byte>) {
    s == [] || (CharLength(s) > 0 && Utf8(s[CharLength(s)..]))
  }

  // ---- what fits the wire ----

  predicate NameOk(s: seq<Byte>) {
    |s| < 0x1_0000 && Utf8(s)
  }

  predicate ResourceOk(r: Resource) {
    NameOk(r.name) && (r.kind.Irq? ==> r.kind.line < 0x1_0000_0000)
  }

  predicate DescOk(d: Desc) {
    && NameOk(d.name) && d.major < 0x1_0000 && d.minor < 0x1_0000 && d.patch < 0x1_0000
    && |d.resources| < 0x1_0000_0000 && forall i :: 0 <= i < |d.resources| ==> ResourceOk(d.resources[i])
  }

  // ---- the format ----

  function EncodeName(s: seq<Byte>): seq<Byte> {
    ToLE(|s|, 2) + s
  }

  /** The kind's tag and its two parameters. */
  function Params(k: Kind): (nat, nat, nat) {
    match k
    case Mmio(base, size) => (0, base, size)
    case Irq(line) => (1, line, 0)
    case Dma(length) => (2, length, 0)
  }

  function EncodeResource(r: Resource): seq<Byte> {
    var (tag, p0, p1) := Params(r.kind);
    ToLE(tag, 4) + (ToLE(p0, 8) + (ToLE(p1, 8) + EncodeName(r.name)))
  }

  function EncodeResources(rs: seq<Resource>): seq<Byte> {
    if rs == [] then [] else EncodeResource(rs[0]) + EncodeResources(rs[1..])
  }

  function EncodeHead(d: Desc): seq<Byte> {
    ToLE(MAGIC, 4) + (EncodeName(d.name) + (ToLE(d.major, 2) + (ToLE(d.minor, 2) + (ToLE(d.patch, 2)
      + (ToLE(d.caps, 8) + ToLE(|d.resources|, 4))))))
  }

  function Encode(d: Desc): seq<Byte> {
    EncodeHead(d) + EncodeResources(d.resources)
  }

  // ---- its layout ----

  /** `n` bytes from `at` on are the little-endian digits of `x`. */
  ghost predicate NumberAt(data: seq<Byte>, at: nat, n: nat, x: nat) {
    at + n <= |data| && forall i :: 0 <= i < n ==> data[at + i] == x / Pow256(i) % 256
  }

  lemma NumberIs(before: seq<Byte>, x: nat, n: nat, after: seq<Byte>)
    ensures NumberAt(before + ToLE(x, n) + after, |before|, n, x)
  {
    hide ToLE, Pow256;
    var data := before + ToLE(x, n) + after;
    forall i | 0 <= i < n ensures data[|before| + i] == x / Pow256(i) % 256 {
      ToLEByte(x, n, i);
      assert data[|before| + i] == ToLE(x, n)[i];
    }
  }

  /** The numbers and the name of a resource, by offset: the tag is 0 for MMIO, 1 for an interrupt, 2 for DMA; then the
      base and size, the line and zero, or the length and zero. */
  ghost predicate ResourceAt(data: seq<Byte>, at: nat, r: Resource) {
    && NumberAt(data, at, 4, match r.kind case Mmio(_, _) => 0 case Irq(_) => 1 case Dma(_) => 2)
    && NumberAt(data, at + 4, 8, match r.kind case Mmio(base, _) => base case Irq(line) => line case Dma(n) => n)
    && NumberAt(data, at + 12, 8, match r.kind case Mmio(_, size) => size case Irq(_) => 0 case Dma(_) => 0)
    && NumberAt(data, at + 20, 2, |r.name|)
    && at + 22 + |r.name| <= |data| && data[at + 22..at + 22 + |r.name|] == r.name
  }

  /** The fixed part: the letters V, I, R, D, the name and its length, the version, the capabilities, the count. */
  ghost predicate HeadAt(data: seq<Byte>, d: Desc) {
    var at := 6 + |d.name|;
    && |data| >= at + 18 && data[0] == 0x56 && data[1] == 0x49 && data[2] == 0x52 && data[3] == 0x44
    && NumberAt(data, 4, 2, |d.name|) && data[6..at] == d.name
    && NumberAt(data, at, 2, d.major) && NumberAt(data, at + 2, 2, d.minor) && NumberAt(data, at + 4, 2, d.patch)
    && NumberAt(data, at + 6, 8, d.caps) && NumberAt(data, at + 14, 4, |d.resources|)
  }

  /** Where resource `i` begins: after the head and the resources before it. */
  function ResourceOffset(d: Desc, i: nat): nat
    requires i <= |d.resources|
  {
    if i == 0 then 24 + |d.name| else ResourceOffset(d, i - 1) + 22 + |d.resources[i - 1].name|
  }

  lemma ResourceLayout(before: seq<Byte>, r: Resource, after: seq<Byte>)
    ensures |EncodeResource(r)| == 22 + |r.name|
    ensures ResourceAt(before + EncodeResource(r) + after, |before|, r)
  {
    hide ToLE, NumberAt;
    var (tag, p0, p1) := Params(r.kind);
    var data := before + EncodeResource(r) + after;
    var b1 := before + ToLE(tag, 4);
    var b2 := b1 + ToLE(p0, 8);
    var b3 := b2 + ToLE(p1, 8);
    var b4 := b3 + ToLE(|r.name|, 2);
    NumberIs(before, tag, 4, ToLE(p0, 8) + ToLE(p1, 8) + EncodeName(r.name) + after);
    assert data == before + ToLE(tag, 4) + (ToLE(p0, 8) + ToLE(p1, 8) + EncodeName(r.name) + after);
    NumberIs(b1, p0, 8, ToLE(p1, 8) + EncodeName(r.name) + after);
    assert data == b1 + ToLE(p0, 8) + (ToLE(p1, 8) + EncodeName(r.name) + after);
    NumberIs(b2, p1, 8, EncodeName(r.name) + after);
    assert data == b2 + ToLE(p1, 8) + (EncodeName(r.name) + after);
    NumberIs(b3, |r.name|, 2, r.name + after);
    assert data == b3 + ToLE(|r.name|, 2) + (r.name + after);
    assert data == b4 + r.name + after;
  }

  lemma HeadLayout(d: Desc, after: seq<Byte>)
    ensures |EncodeHead(d)| == 24 + |d.name| && HeadAt(EncodeHead(d) + after, d)
  {
    hide ToLE, NumberAt;
    var data := EncodeHead(d) + after;
    var b0 := ToLE(MAGIC, 4);
    var b1 := b0 + ToLE(|d.name|, 2);
    var b2 := b1 + d.name;
    var b3 := b2 + ToLE(d.major, 2);
    var b4 := b3 + ToLE(d.minor, 2);
    var b5 := b4 + ToLE(d.patch, 2);
    var b6 := b5 + ToLE(d.caps, 8);
    var r6 := ToLE(|d.resources|, 4) + after;
    var r5 := ToLE(d.caps, 8) + r6;
    var r4 := ToLE(d.patch, 2) + r5;
    var r3 := ToLE(d.minor, 2) + r4;
    var r2 := ToLE(d.major, 2) + r3;
    assert data == b0 + ToLE(|d.name|, 2) + (d.name + r2);
    NumberIs(b0, |d.name|, 2, d.name + r2);
    assert data == b2 + ToLE(d.major, 2) + r3;
    NumberIs(b2, d.major, 2, r3);
    assert data == b3 + ToLE(d.minor, 2) + r4;
    NumberIs(b3, d.minor, 2, r4);
    assert data == b4 + ToLE(d.patch, 2) + r5;
    NumberIs(b4, d.patch, 2, r5);
    assert data == b5 + ToLE(d.caps, 8) + r6;
    NumberIs(b5, d.caps, 8, r6);
    assert data == b6 + ToLE(|d.resources|, 4) + after;
    NumberIs(b6, |d.resources|, 4, after);
    MagicBytes();
    assert data[0] == b0[0] && data[1] == b0[1] && data[2] == b0[2] && data[3] == b0[3];
    assert data[6..6 + |d.name|] == d.name;
  }

  lemma MagicBytes()
    ensures ToLE(MAGIC, 4) == [0x56, 0x49, 0x52, 0x44]
  {
    assert ToLE(0x44, 1) == [0x44];
    assert ToLE(0x4452, 2) == [0x52, 0x44];
    assert ToLE(0x445249, 3) == [0x49, 0x52, 0x44];
  }

  lemma {:induction false} ResourcesLayout(d: Desc, i: nat)
    requires i <= |d.resources|
    ensures ResourceOffset(d, i) <= |Encode(d)|
    ensures Encode(d)[ResourceOffset(d, i)..] == EncodeResources(d.resources[i..])
  {
    hide EncodeHead, EncodeResource;
    if i == 0 {
      HeadLayout(d, EncodeResources(d.resources));
      assert d.resources[0..] == d.resources;
    } else {
      ResourcesLayout(d, i - 1);
      var rest := d.resources[i - 1..];
      ResourceLayout([], rest[0], []);
      assert rest[1..] == d.resources[i..] && rest[0] == d.resources[i - 1];
      assert Encode(d)[ResourceOffset(d, i)..] == Encode(d)[ResourceOffset(d, i - 1)..][22 + |rest[0].name|..];
    }
  }

  /** Every byte of the encoding has its place. */
  lemma Layout(d: Desc, i: nat)
    requires i < |d.resources|
    ensures HeadAt(Encode(d), d) && ResourceAt(Encode(d), ResourceOffset(d, i), d.resources[i])
    ensures |Encode(d)| == ResourceOffset(d, |d.resources|)
  {
    hide EncodeHead, EncodeResource, HeadAt, ResourceAt, ResourceOffset;
    HeadLayout(d, EncodeResources(d.resources));
    ResourcesLayout(d, i);
    ResourcesLayout(d, |d.resources|);
    var at, rest := ResourceOffset(d, i), d.resources[i..];
    var before, after := Encode(d)[..at], EncodeResources(rest[1..]);
    assert Encode(d) == before + EncodeResource(rest[0]) + after;
    ResourceLayout(before, rest[0], after);
  }

  // ---- reading it back ----

  datatype Read<+T> = Bad | Good(value: T, rest: seq<Byte>)

  function Number(data: seq<Byte>, n: nat): Read<nat> {
    if |data| < n then Bad else Good(FromLE(data[..n]), data[n..])
  }

  function Name(data: seq<Byte>): Read<seq<Byte>> {
    match Number(data, 2)
    case Bad => Bad
    case Good(n, rest) => if |rest| < n || !Utf8(rest[..n]) then Bad else Good(rest[..n], rest[n..])
  }

  function KindOf(tag: nat, p0: nat, p1: nat): Option<Kind>
    requires p0 < 0x1_0000_0000_0000_0000 && p1 < 0x1_0000_0000_0000_0000
  {
    if tag == 0 then Some(Mmio(p0, p1))
    else if tag == 1 then Some(Irq(p0 % 0x1_0000_0000))
    else if tag == 2 then Some(Dma(p0))
    else None
  }

  lemma NumberFits(data: seq<Byte>)
    requires |data| >= 8
    ensures FromLE(data[..8]) < 0x1_0000_0000_0000_0000
  {
    Pow256Eight();
  }

  function Word8(data: seq<Byte>): Read<Word> {
    if |data| < 8 then Bad else
      NumberFits(data);
      Good(FromLE(data[..8]), data[8..])
  }

  function DecodeResource(data: seq<Byte>): Read<Resource> {
    match Number(data, 4)
    case Bad => Bad
    case Good(tag, d1) =>
      match Word8(d1)
      case Bad => Bad
      case Good(p0, d2) =>
        match Word8(d2)
        case Bad => Bad
        case Good(p1, d3) =>
          match KindOf(tag, p0, p1)
          case None => Bad
          case Some(kind) =>
            match Name(d3)
            case Bad => Bad
            case Good(name, d4) => Good(Resource(kind, name), d4)
  }

  function DecodeResources(data: seq<Byte>, n: nat): Read<seq<Resource>> {
    if n == 0 then Good([], data)
    else
      match DecodeResource(data)
      case Bad => Bad
      case Good(r, rest) =>
        match DecodeResources(rest, n - 1)
        case Bad => Bad
        case Good(rs, rest') => Good([r] + rs, rest')
  }

  lemma NumberBack(x: nat, n: nat, rest: seq<Byte>)
    requires x < Pow256(n)
    ensures Number(ToLE(x, n) + rest, n) == Good(x, rest)
  {
    FromToLE(x, n);
    assert (ToLE(x, n) + rest)[..n] == ToLE(x, n);
  }

  lemma NameBack(s: seq<Byte>, rest: seq<Byte>)
    requires NameOk(s)
    ensures Name(EncodeName(s) + rest) == Good(s, rest)
  {
    Pow256Eight();
    NumberBack(|s|, 2, s + rest);
    assert EncodeName(s) + rest == ToLE(|s|, 2) + (s + rest);
    assert (s + rest)[..|s|] == s && (s + rest)[|s|..] == rest;
  }

  lemma WordBack(x: Word, rest: seq<Byte>)
    ensures Word8(ToLE(x, 8) + rest) == Good(x, rest)
  {
    Pow256Eight();
    NumberBack(x, 8, rest);
  }

  lemma ResourceBack(r: Resource, rest: seq<Byte>)
    requires ResourceOk(r)
    ensures DecodeResource(EncodeResource(r) + rest) == Good(r, rest)
  {
    hide ToLE, FromLE, Pow256, EncodeName, Name, Number, Word8, NameOk;
    var (tag, p0, p1) := Params(r.kind);
    var d3 := EncodeName(r.name) + rest;
    var d2 := ToLE(p1, 8) + d3;
    var d1 := ToLE(p0, 8) + d2;
    assert EncodeResource(r) + rest == ToLE(tag, 4) + d1;
    assert tag < Pow256(4) by { Pow256Eight(); }
    NumberBack(tag, 4, d1);
    WordBack(p0, d2);
    WordBack(p1, d3);
    NameBack(r.name, rest);
  }

  lemma {:induction false} ResourcesBack(rs: seq<Resource>, rest: seq<Byte>)
    requires forall i :: 0 <= i < |rs| ==> ResourceOk(rs[i])
    ensures DecodeResources(EncodeResources(rs) + rest, |rs|) == Good(rs, rest)
  {
    hide EncodeResource, DecodeResource, ResourceOk;
    if rs == [] {
      assert EncodeResources(rs) + rest == rest;
    } else {
      var more := EncodeResources(rs[1..]) + rest;
      assert EncodeResources(rs) + rest == EncodeResource(rs[0]) + more;
      ResourceBack(rs[0], more);
      ResourcesBack(rs[1..], rest);
      assert [rs[0]] + rs[1..] == rs;
    }
  }

  /** The fields before the resources, and how many of those follow. */
  datatype Head = Head(name: seq<Byte>, major: nat, minor: nat, patch: nat, caps: Word, count: nat)

  function DecodeVersion(data: seq<Byte>): Read<(nat, nat, nat)> {
    match Number(data, 2)
    case Bad => Bad
    case Good(major, d1) =>
      match Number(d1, 2)
      case Bad => Bad
      case Good(minor, d2) =>
        match Number(d2, 2)
        case Bad => Bad
        case Good(patch, d3) => Good((major, minor, patch), d3)
  }

  function DecodeHead(data: seq<Byte>): Read<Head> {
    match Number(data, 4)
    case Bad => Bad
    case Good(magic, d0) =>
      if magic != MAGIC then Bad else
      match Name(d0)
      case Bad => Bad
      case Good(name, d1) =>
        match DecodeVersion(d1)
        case Bad => Bad
        case Good(v, d2) =>
          match Word8(d2)
          case Bad => Bad
          case Good(caps, d3) =>
            match Number(d3, 4)
            case Bad => Bad
            case Good(count, d4) => Good(Head(name, v.0, v.1, v.2, caps, count), d4)
  }

  function Decode(data: seq<Byte>): Option<Desc> {
    match DecodeHead(data)
    case Bad => None
    case Good(h, rest) =>
      match DecodeResources(rest, h.count)
      case Bad => None
      case Good(rs, _) => Some(Desc(h.name, h.major, h.minor, h.patch, h.caps, rs))
  }

  lemma VersionBack(a: nat, b: nat, c: nat, rest: seq<Byte>)
    requires a < 0x1_0000 && b < 0x1_0000 && c < 0x1_0000
    ensures DecodeVersion(ToLE(a, 2) + (ToLE(b, 2) + (ToLE(c, 2) + rest))) == Good((a, b, c), rest)
  {
    hide ToLE, FromLE, Pow256, Number;
    assert Pow256(2) == 0x1_0000 by { Pow256Eight(); }
    NumberBack(a, 2, ToLE(b, 2) + (ToLE(c, 2) + rest));
    NumberBack(b, 2, ToLE(c, 2) + rest);
    NumberBack(c, 2, rest);
  }

  lemma HeadBack(d: Desc, rest: seq<Byte>)
    requires DescOk(d)
    ensures DecodeHead(EncodeHead(d) + rest) ==
      Good(Head(d.name, d.major, d.minor, d.patch, d.caps, |d.resources|), rest)
  {
    hide ToLE, FromLE, Pow256, EncodeName, Name, Number, Word8, NameOk, DecodeVersion;
    assert Pow256(4) == 0x1_0000_0000 by { Pow256Eight(); }
    var d4 := ToLE(|d.resources|, 4) + rest;
    var d3 := ToLE(d.caps, 8) + d4;
    var d2 := ToLE(d.major, 2) + (ToLE(d.minor, 2) + (ToLE(d.patch, 2) + d3));
    var d1 := EncodeName(d.name) + d2;
    assert EncodeHead(d) + rest == ToLE(MAGIC, 4) + d1;
    NumberBack(MAGIC, 4, d1);
    NameBack(d.name, d2);
    VersionBack(d.major, d.minor, d.patch, d3);
    WordBack(d.caps, d4);
    NumberBack(|d.resources|, 4, rest);
  }

  /** A descriptor reads back whatever follows it. */
  lemma RoundTrip(d: Desc, suffix: seq<Byte>)
    requires DescOk(d)
    ensures Decode(Encode(d) + suffix) == Some(d)
  {
    hide EncodeHead, DecodeHead, EncodeResources, DecodeResources;
    assert Encode(d) + suffix == EncodeHead(d) + (EncodeResources(d.resources) + suffix);
    HeadBack(d, EncodeResources(d.resources) + suffix);
    ResourcesBack(d.resources, suffix);
  }

  /** So no descriptor's encoding is another's, or the beginning of another's. */
  lemma PrefixFree(d: Desc, e: Desc)
    requires DescOk(d) && DescOk(e) && Encode(d) <= Encode(e)
    ensures d == e
  {
    hide Encode, Decode;
    var suffix := Encode(e)[|Encode(d)|..];
    assert Encode(d) + suffix == Encode(e) == Encode(e) + [];
    RoundTrip(d, suffix);
    RoundTrip(e, []);
  }

  // ---- the code ----

  method Serialize(d: Desc) returns (buf: seq<Byte>)
    ensures buf == Encode(d) && HeadAt(buf, d) && |buf| == ResourceOffset(d, |d.resources|)
    ensures forall i :: 0 <= i < |d.resources| ==> ResourceAt(buf, ResourceOffset(d, i), d.resources[i])
  {
    hide ToLE, EncodeResource, HeadAt, ResourceAt, ResourceOffset;
    HeadLayout(d, EncodeResources(d.resources));
    ResourcesLayout(d, |d.resources|);
    forall i | 0 <= i < |d.resources| ensures ResourceAt(Encode(d), ResourceOffset(d, i), d.resources[i]) {
      Layout(d, i);
    }
    buf := ToLE(MAGIC, 4);
    buf := buf + ToLE(|d.name|, 2) + d.name;
    buf := buf + ToLE(d.major, 2) + ToLE(d.minor, 2) + ToLE(d.patch, 2);
    buf := buf + ToLE(d.caps, 8) + ToLE(|d.resources|, 4);
    assert buf == EncodeHead(d);
    var i := 0;
    assert d.resources[0..] == d.resources;
    while i < |d.resources|
      invariant 0 <= i <= |d.resources| && buf + EncodeResources(d.resources[i..]) == Encode(d)
    {
      var r := SerializeResource(d.resources[i]);
      assert d.resources[i..][1..] == d.resources[i + 1..];
      assert buf + (r + EncodeResources(d.resources[i + 1..])) == buf + r + EncodeResources(d.resources[i + 1..]);
      buf := buf + r;
      i := i + 1;
    }
  }

  method SerializeResource(r: Resource) returns (buf: seq<Byte>)
    ensures buf == EncodeResource(r)
  {
    hide ToLE;
    var (tag, p0, p1) := Params(r.kind);
    buf := ToLE(tag, 4) + ToLE(p0, 8) + ToLE(p1, 8);
    buf := buf + ToLE(|r.name|, 2) + r.name;
  }

  /** `data.get(off..off + n)` as a little-endian number. */
  method GetNumber(data: seq<Byte>, off: nat, n: nat) returns (x: Option<nat>)
    requires off <= |data|
    ensures x == match Number(data[off..], n) case Bad => None case Good(v, _) => Some(v)
    ensures x.Some? ==> off + n <= |data| && Number(data[off..], n).rest == data[off + n..] && x.value < Pow256(n)
  {
    if off + n > |data| {
      return None;
    }
    assert data[off..][..n] == data[off..off + n];
    return Some(FromLE(data[off..off + n]));
  }

  method GetName(data: seq<Byte>, off: nat) returns (s: Option<seq<Byte>>)
    requires off <= |data|
    ensures s == match Name(data[off..]) case Bad => None case Good(v, _) => Some(v)
    ensures s.Some? ==> off + 2 + |s.value| <= |data| && Name(data[off..]).rest == data[off + 2 + |s.value|..]
  {
    hide FromLE, Utf8;
    var n := GetNumber(data, off, 2);
    if n.None? {
      return None;
    }
    var at := off + 2;
    if at + n.value > |data| {
      return None;
    }
    assert data[at..][..n.value] == data[at..at + n.value];
    if !Utf8(data[at..at + n.value]) {
      return None;
    }
    return Some(data[at..at + n.value]);
  }

  method GetResource(data: seq<Byte>, off: nat) returns (r: Option<(Resource, nat)>)
    requires off <= |data|
    ensures r == match DecodeResource(data[off..]) case Bad => None case Good(v, rest) => Some((v, |data| - |rest|))
    ensures r.Some? ==> off <= r.value.1 <= |data| && DecodeResource(data[off..]).rest == data[r.value.1..]
  {
    hide FromLE, Number, Name, Pow256;
    assert Pow256(8) == 0x1_0000_0000_0000_0000 by { Pow256Eight(); }
    var tag := GetNumber(data, off, 4);
    if tag.None? {
      return None;
    }
    var p0 := GetWord(data, off + 4);
    if p0.None? {
      return None;
    }
    var p1 := GetWord(data, off + 12);
    if p1.None? {
      return None;
    }
    var kind := KindOf(tag.value, p0.value, p1.value);
    if kind.None? {
      return None;
    }
    var name := GetName(data, off + 20);
    if name.None? {
      return None;
    }
    return Some((Resource(kind.value, name.value), off + 22 + |name.value|));
  }

  method GetWord(data: seq<Byte>, off: nat) returns (x: Option<Word>)
    requires off <= |data|
    ensures x == match Word8(data[off..]) case Bad => None case Good(v, _) => Some(v)
    ensures x.Some? ==> off + 8 <= |data| && Word8(data[off..]).rest == data[off + 8..]
  {
    if off + 8 > |data| {
      return None;
    }
    assert data[off..][..8] == data[off..off + 8];
    NumberFits(data[off..]);
    return Some(FromLE(data[off..off + 8]));
  }

  method GetHead(data: seq<Byte>) returns (h: Option<(Head, nat)>)
    ensures h == match DecodeHead(data) case Bad => None case Good(v, rest) => Some((v, |data| - |rest|))
    ensures h.Some? ==> h.value.1 <= |data| && DecodeHead(data).rest == data[h.value.1..]
  {
    hide FromLE, Number, Name, Word8, Pow256;
    assert data[0..] == data;
    var magic := GetNumber(data, 0, 4);
    if magic.None? || magic.value != MAGIC {
      return None;
    }
    var name := GetName(data, 4);
    if name.None? {
      return None;
    }
    var off := 6 + |name.value|;
    var v0 := GetNumber(data, off, 2);
    if v0.None? {
      return None;
    }
    var v1 := GetNumber(data, off + 2, 2);
    if v1.None? {
      return None;
    }
    var v2 := GetNumber(data, off + 4, 2);
    if v2.None? {
      return None;
    }
    var caps := GetWord(data, off + 6);
    if caps.None? {
      return None;
    }
    var count := GetNumber(data, off + 14, 4);
    if count.None? {
      return None;
    }
    return Some((Head(name.value, v0.value, v1.value, v2.value, caps.value, count.value), off + 18));
  }

  lemma {:induction false} ResourcesSplit(data: seq<Byte>, n: nat)
    requires n > 0
    ensures DecodeResources(data, n).Bad? <==>
      DecodeResource(data).Bad? || DecodeResources(DecodeResource(data).rest, n - 1).Bad?
  {
  }

  method Deserialize(data: seq<Byte>) returns (d: Option<Desc>)
    ensures d == Decode(data)
  {
    hide DecodeHead, DecodeResource;
    var head := GetHead(data);
    if head.None? {
      return None;
    }
    var (h, start) := head.value;
    ghost var whole := DecodeResources(data[start..], h.count);
    var off: nat, i: nat, resources: seq<Resource> := start, 0, [];
    while i < h.count
      invariant i <= h.count && off <= |data|
      invariant whole.Bad? <==> DecodeResources(data[off..], h.count - i).Bad?
      invariant whole.Good? ==> whole.value == resources + DecodeResources(data[off..], h.count - i).value
    {
      ResourcesSplit(data[off..], h.count - i);
      var r := GetResource(data, off);
      if r.None? {
        return None;
      }
      if whole.Good? {
        assert whole.value == resources + [r.value.0] + DecodeResources(data[r.value.1..], h.count - i - 1).value;
      }
      resources := resources + [r.value.0];
      off, i := r.value.1, i + 1;
    }
    if whole.Good? {
      assert whole.value == resources;
    }
    return Some(Desc(h.name, h.major, h.minor, h.patch, h.caps, resources));
  }
}
