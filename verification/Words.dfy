/** What every part uses: machine words, 4 KB pages, and the two ways the kernel looks at a page: as 512 little-endian
    64-bit words (free-list links and page-table entries) and as 4096 bytes (user data). */
module Words {

  type Pid = int

  /** Reference counts are 16 bits wide and saturate. */
  const COUNT_MAX: nat := 65535

  function SaturatingAdd(c: nat): nat {
    if c < COUNT_MAX then c + 1 else COUNT_MAX
  }

  ghost predicate NoDup(q: seq<int>) {
    forall a, b :: 0 <= a < b < |q| ==> q[a] != q[b]
  }

  type Byte = b: nat | b < 256

  type Word = w: nat | w < 0x1_0000_0000_0000_0000

  const POISON: Word := 0xCDCD_CDCD_CDCD_CDCD

  /** A physical frame's contents. */
  type Page = p: seq<Word> | |p| == 512 witness seq(512, _ => 0)

  /** A page's contents as bytes. */
  type Bytes = b: seq<Byte> | |b| == 4096 witness seq(4096, _ => 0)

  /** A frame as `alloc_frame` hands it out. */
  function Zero(): Page {
    seq(512, _ => 0)
  }

  datatype Option<+T> = None | Some(value: T)

  function Min(a: int, b: int): (m: int)
    ensures m <= a && m <= b && (m == a || m == b)
  {
    if a < b then a else b
  }

  // ---- little-endian integers ----

  function Pow256(n: nat): (r: nat)
    ensures r > 0
  {
    if n == 0 then 1 else 256 * Pow256(n - 1)
  }

  lemma Pow256Eight()
    ensures Pow256(8) == 0x1_0000_0000_0000_0000
    ensures Pow256(4) == 0x1_0000_0000
    ensures Pow256(2) == 0x1_0000
  {
    assert Pow256(1) == 256;
    assert Pow256(3) == 0x100_0000;
    assert Pow256(5) == 0x100_0000_0000;
    assert Pow256(7) == 0x100_0000_0000_0000;
  }

  /** The low `n` bytes of `x`, least significant first (`to_le_bytes`). */
  function ToLE(x: nat, n: nat): (s: seq<Byte>)
    ensures |s| == n
  {
    if n == 0 then [] else [x % 256] + ToLE(x / 256, n - 1)
  }

  /** The value of a little-endian byte string (`from_le_bytes`). */
  function FromLE(s: seq<Byte>): (x: nat)
    ensures x < Pow256(|s|)
  {
    if s == [] then 0 else s[0] + 256 * FromLE(s[1..])
  }

  lemma {:induction false} FromToLE(x: nat, n: nat)
    requires x < Pow256(n)
    ensures FromLE(ToLE(x, n)) == x
  {
    if n > 0 {
      FromToLE(x / 256, n - 1);
      assert ToLE(x, n)[1..] == ToLE(x / 256, n - 1);
    }
  }

  lemma MulAtLeast(d: int, m: nat)
    requires d >= 1
    ensures d * m >= m
  {
  }

  lemma DivTwice(x: nat, b: nat, p: nat)
    requires b > 0 && p > 0
    ensures b * p > 0 && x / b / p == x / (b * p)
  {
    MulAtLeast(b, p);
    Division(x, b);
    Division(x / b, p);
    DivParts(x, b, p, x / b / p, x / b % p, x % b);
  }

  lemma Division(x: nat, b: nat)
    requires b > 0
    ensures x == b * (x / b) + x % b && x % b < b
  {
  }

  lemma LowHalf(a: nat, k: nat)
    ensures (a + 2 * k) % 2 == a % 2
  {
  }

  lemma DivParts(x: nat, b: nat, p: nat, q: nat, r: nat, l: nat)
    requires x == b * (p * q + r) + l && r < p && l < b && b * p > 0
    ensures x / (b * p) == q
  {
    MulAtLeast(p - r, b);
    assert b * p == b * r + (p - r) * b;
    Spread(b, p, q, r);
    QuotientIs(x, b * p, q, b * r + l);
  }

  lemma Spread(b: nat, p: nat, q: nat, r: nat)
    ensures b * (p * q + r) == b * p * q + b * r
  {
  }

  lemma QuotientIs(n: nat, m: nat, q: nat, r: nat)
    requires m > 0 && n == m * q + r && r < m
    ensures n / m == q
  {
    var q', r' := n / m, n % m;
    assert n == q' * m + r' && m * q == q * m;
    if q > q' {
      MulAtLeast(q - q', m);
    } else if q < q' {
      MulAtLeast(q' - q, m);
    }
  }

  /** Byte `i` of a number, counted from the least significant. */
  lemma {:induction false} ToLEByte(x: nat, n: nat, i: nat)
    requires i < n
    ensures ToLE(x, n)[i] == x / Pow256(i) % 256
  {
    if i > 0 {
      ToLEByte(x / 256, n - 1, i - 1);
      DivTwice(x, 256, Pow256(i - 1));
    }
  }

  lemma SplitByte(b: Byte, x: nat)
    ensures (b + 256 * x) % 256 == b && (b + 256 * x) / 256 == x
  {
  }

  lemma {:induction false} ToFromLE(s: seq<Byte>)
    ensures ToLE(FromLE(s), |s|) == s
  {
    hide Pow256;
    if s != [] {
      ToFromLE(s[1..]);
      SplitByte(s[0], FromLE(s[1..]));
      assert ToLE(FromLE(s), |s|) == [s[0]] + ToLE(FromLE(s[1..]), |s| - 1);
      assert s == [s[0]] + s[1..];
    }
  }

  // ---- the byte view of a page ----

  function WordBytes(w: Word): (s: seq<Byte>)
    ensures |s| == 8
  {
    ToLE(w, 8)
  }

  function BytesWord(s: seq<Byte>): (w: Word)
    requires |s| == 8
    ensures WordBytes(w) == s
  {
    Pow256Eight();
    ToFromLE(s);
    FromLE(s)
  }

  function ToBytes(p: Page): (b: Bytes)
  {
    seq(4096, o requires 0 <= o < 4096 => WordBytes(p[o / 8])[o % 8])
  }

  function OfBytes(b: Bytes): (p: Page)
  {
    seq(512, i requires 0 <= i < 512 => BytesWord(b[8 * i..8 * i + 8]))
  }

  lemma BytesRoundTrip(b: Bytes)
    ensures ToBytes(OfBytes(b)) == b
  {
    forall o | 0 <= o < 4096 ensures ToBytes(OfBytes(b))[o] == b[o] {
      var i := o / 8;
      assert OfBytes(b)[i] == BytesWord(b[8 * i..8 * i + 8]);
      assert b[8 * i..8 * i + 8][o % 8] == b[o];
    }
  }

  lemma ZeroBytes()
    ensures ToBytes(Zero()) == seq(4096, _ => 0)
  {
    assert ToLE(0, 8) == [0, 0, 0, 0, 0, 0, 0, 0];
  }
}
