/** Sv39 virtual addresses and page-table entries, section 4.4 of the RISC-V Privileged
    Architecture manual: a 39-bit address is three 9-bit table indices and a 12-bit offset, and an
    entry is a page number above ten flag bits. */
module Sv39 {
  import opened Words

  /** The ten low bits of an entry. `cow` is RSW[0], which fork uses as its copy-on-write marker. */
  datatype Flags = Flags(v: bool, r: bool, w: bool, x: bool, u: bool,
                         g: bool, a: bool, d: bool, cow: bool, rsw: bool)

  datatype Pte = Pte(ppn: nat, flags: Flags)

  const NO_FLAGS := Flags(false, false, false, false, false, false, false, false, false, false)
  const V_ONLY := NO_FLAGS.(v := true)

  /** Physical page numbers are 44 bits wide. */
  const MAX_PPN: nat := 0x1000_0000_0000

  /** A bit string's value, least significant bit first. */
  function BitsValue(bits: seq<bool>): nat {
    if bits == [] then 0 else (if bits[0] then 1 else 0) + 2 * BitsValue(bits[1..])
  }

  function ValueBits(n: nat, len: nat): (bits: seq<bool>)
    ensures |bits| == len
  {
    if len == 0 then [] else [n % 2 == 1] + ValueBits(n / 2, len - 1)
  }

  lemma {:induction false} BitsRoundTrip(bits: seq<bool>)
    ensures ValueBits(BitsValue(bits), |bits|) == bits
  {
    if bits != [] {
      BitsRoundTrip(bits[1..]);
      assert bits == [bits[0]] + bits[1..];
    }
  }

  lemma {:induction false} BitsBound(bits: seq<bool>)
    requires |bits| == 10
    ensures BitsValue(bits) < 1024
  {
    assert BitsValue(bits[9..]) <= 1;
    assert BitsValue(bits[8..]) <= 3 by { assert bits[8..][1..] == bits[9..]; }
    assert BitsValue(bits[7..]) <= 7 by { assert bits[7..][1..] == bits[8..]; }
    assert BitsValue(bits[6..]) <= 15 by { assert bits[6..][1..] == bits[7..]; }
    assert BitsValue(bits[5..]) <= 31 by { assert bits[5..][1..] == bits[6..]; }
    assert BitsValue(bits[4..]) <= 63 by { assert bits[4..][1..] == bits[5..]; }
    assert BitsValue(bits[3..]) <= 127 by { assert bits[3..][1..] == bits[4..]; }
    assert BitsValue(bits[2..]) <= 255 by { assert bits[2..][1..] == bits[3..]; }
    assert BitsValue(bits[1..]) <= 511 by { assert bits[1..][1..] == bits[2..]; }
  }

  function FlagSeq(f: Flags): (bits: seq<bool>)
    ensures |bits| == 10
  {
    [f.v, f.r, f.w, f.x, f.u, f.g, f.a, f.d, f.cow, f.rsw]
  }

  function FlagBits(f: Flags): (n: nat)
    ensures n < 1024
  {
    BitsBound(FlagSeq(f));
    BitsValue(FlagSeq(f))
  }

  function BitsFlags(n: nat): Flags {
    var b := ValueBits(n, 10);
    Flags(b[0], b[1], b[2], b[3], b[4], b[5], b[6], b[7], b[8], b[9])
  }

  function Decode(w: Word): Pte {
    Pte(w / 1024, BitsFlags(w % 1024))
  }

  /** `(ppn << 10) | flags` */
  function Encode(e: Pte): (w: Word)
    requires e.ppn < MAX_PPN
  {
    e.ppn * 1024 + FlagBits(e.flags)
  }

  lemma DecodeEncode(e: Pte)
    requires e.ppn < MAX_PPN
    ensures Decode(Encode(e)) == e
    ensures e.flags.v ==> Encode(e) != 0
  {
    BitsRoundTrip(FlagSeq(e.flags));
    assert Encode(e) / 1024 == e.ppn && Encode(e) % 1024 == FlagBits(e.flags);
    if e.flags.v {
      assert FlagBits(e.flags) % 2 == 1;
    }
  }

  /** Bit by bit, lowest first: V, R, W, X, U, G, A, D, then the two bits left to software. */
  ghost predicate BitsAre(w: nat, f: Flags) {
    && (w % 2 == 1 <==> f.v) && (w / 2 % 2 == 1 <==> f.r) && (w / 4 % 2 == 1 <==> f.w) && (w / 8 % 2 == 1 <==> f.x)
    && (w / 16 % 2 == 1 <==> f.u) && (w / 32 % 2 == 1 <==> f.g) && (w / 64 % 2 == 1 <==> f.a)
    && (w / 128 % 2 == 1 <==> f.d) && (w / 256 % 2 == 1 <==> f.cow) && (w / 512 % 2 == 1 <==> f.rsw)
  }

  lemma {:induction false} BitAt(n: nat, len: nat, i: nat, p: nat)
    requires i < len && p == Power(i)
    ensures p > 0 && (ValueBits(n, len)[i] <==> n / p % 2 == 1)
  {
    if i > 0 {
      BitAt(n / 2, len - 1, i - 1, Power(i - 1));
      DivTwice(n, 2, Power(i - 1));
    }
  }

  function Power(i: nat): nat {
    if i == 0 then 1 else 2 * Power(i - 1)
  }

  lemma Powers()
    ensures Power(0) == 1 && Power(1) == 2 && Power(2) == 4 && Power(3) == 8 && Power(4) == 16
    ensures Power(5) == 32 && Power(6) == 64 && Power(7) == 128 && Power(8) == 256 && Power(9) == 512
  {
  }

  lemma FlagsBits(n: nat)
    ensures BitsAre(n, BitsFlags(n))
  {
    hide ValueBits, Power;
    Powers();
    BitAt(n, 10, 0, 1);
    BitAt(n, 10, 1, 2);
    BitAt(n, 10, 2, 4);
    BitAt(n, 10, 3, 8);
    BitAt(n, 10, 4, 16);
    BitAt(n, 10, 5, 32);
    BitAt(n, 10, 6, 64);
    BitAt(n, 10, 7, 128);
    BitAt(n, 10, 8, 256);
    BitAt(n, 10, 9, 512);
  }

  /** An entry is the page number above the ten flag bits. */
  lemma EncodeBits(e: Pte)
    requires e.ppn < MAX_PPN
    ensures Encode(e) / 1024 == e.ppn && BitsAre(Encode(e) % 1024, e.flags)
  {
    hide ValueBits, BitsValue, BitsAre;
    DecodeEncode(e);
    FlagsBits(Encode(e) % 1024);
    assert Encode(e) / 1024 == e.ppn;
  }

  /** An absent entry is the zero word. */
  lemma DecodeZero()
    ensures Decode(0) == Pte(0, NO_FLAGS)
  {
    BitsRoundTrip(FlagSeq(NO_FLAGS));
    assert BitsValue([false, false, false]) == 0;
    assert BitsValue([false, false, false, false, false, false]) == 0;
    assert BitsValue(FlagSeq(NO_FLAGS)) == 0;
  }

  // ---- virtual page numbers ----

  datatype Vpn = Vpn(i: nat, j: nat, k: nat)

  /** Indices of user pages: the root's first four slots hold the kernel identity map. */
  predicate VpnOk(v: Vpn) {
    4 <= v.i < 512 && v.j < 512 && v.k < 512
  }

  const USER_BASE: nat := 0x1_0000_0000
  const VA_LIMIT: nat := 0x80_0000_0000

  predicate UserVa(va: nat) {
    USER_BASE <= va < VA_LIMIT
  }

  function VpnOf(va: nat): Vpn {
    Vpn((va / 0x4000_0000) % 512, (va / 0x20_0000) % 512, (va / 4096) % 512)
  }

  function VaOf(v: Vpn): nat {
    v.i * 0x4000_0000 + v.j * 0x20_0000 + v.k * 4096
  }

  lemma DivDiv(p: nat)
    ensures p == p / 512 * 512 + p % 512
  {
  }

  lemma VaSplit(va: nat)
    requires va < VA_LIMIT
    ensures VaOf(VpnOf(va)) + va % 4096 == va
    ensures var v := VpnOf(va); v.i * 0x4000_0000 + v.j * 0x20_0000 + v.k * 0x1000 + va % 0x1000 == va
    ensures UserVa(va) ==> VpnOk(VpnOf(va))
  {
    var p, q, r := va / 4096, va / 0x20_0000, va / 0x4000_0000;
    assert q == p / 512;
    assert r == q / 512;
    DivDiv(p);
    DivDiv(q);
    assert r < 512;
    assert r % 512 == r;
  }

  lemma VpnOfVa(v: Vpn, off: nat)
    requires VpnOk(v) && off < 4096
    ensures VpnOf(VaOf(v) + off) == v && UserVa(VaOf(v) + off) && (VaOf(v) + off) % 4096 == off
  {
    var va := VaOf(v) + off;
    var p := v.i * 0x4_0000 + v.j * 512 + v.k;
    assert va == p * 4096 + off;
    assert va / 4096 == p;
    assert va / 0x20_0000 == p / 512 == v.i * 512 + v.j;
    assert va / 0x4000_0000 == p / 512 / 512 == v.i;
  }
}
