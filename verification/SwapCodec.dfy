/** The run-length codec of the swap pool, src/mm/swap.rs: (byte, count) pairs, counts at most 255. */
module SwapCodec {
  import opened Words

  function Repeat(b: Byte, n: nat): (s: seq<Byte>)
    ensures |s| == n
  {
    seq(n, _ => b)
  }

  /** The bytes a list of pairs stands for; an odd byte at the end stands for nothing. */
  function Expand(data: seq<Byte>): seq<Byte> {
    if |data| < 2 then [] else Repeat(data[0], data[1]) + Expand(data[2..])
  }

  lemma {:induction false} ExpandAppend(data: seq<Byte>, b: Byte, n: Byte)
    requires |data| % 2 == 0
    ensures Expand(data + [b, n]) == Expand(data) + Repeat(b, n)
  {
    if data == [] {
      assert data + [b, n] == [b, n];
      assert [b, n][2..] == [];
    } else {
      assert (data + [b, n])[2..] == data[2..] + [b, n];
      ExpandAppend(data[2..], b, n);
    }
  }

  /** The longest run from `i`, at most 255 bytes. */
  method RunLength(src: Bytes, i: nat) returns (run: nat)
    requires i < 4096
    ensures 1 <= run <= 255 && i + run <= 4096
    ensures src[..i + run] == src[..i] + Repeat(src[i], run)
    ensures run < 255 && i + run < 4096 ==> src[i + run] != src[i]
  {
    run := 1;
    while i + run < 4096 && src[i + run] == src[i] && run < 255
      invariant 1 <= run <= 255 && i + run <= 4096
      invariant forall k :: i <= k < i + run ==> src[k] == src[i]
    {
      run := run + 1;
    }
  }

  /** How many bytes the first `j` pairs stand for. */
  function Count(out: seq<Byte>, j: nat): nat
    requires 2 * j <= |out|
  {
    if j == 0 then 0 else Count(out, j - 1) + out[2 * j - 1]
  }

  /** Pair `j` is a byte and how often it comes in a row: at least once, at most 255 times, and as often as it does. */
  ghost predicate PairIs(src: Bytes, out: seq<Byte>, j: nat)
    requires 2 * j + 2 <= |out|
  {
    var from, n := Count(out, j), out[2 * j + 1];
    && 1 <= n && from + n <= 4096 && (forall x :: from <= x < from + n ==> src[x] == out[2 * j])
    && (n < 255 && from + n < 4096 ==> src[from + n] != out[2 * j])
  }

  lemma {:induction false} CountFront(out: seq<Byte>, more: seq<Byte>, j: nat)
    requires 2 * j <= |out|
    ensures Count(out + more, j) == Count(out, j)
  {
    if j > 0 {
      CountFront(out, more, j - 1);
    }
  }

  lemma PairsStay(src: Bytes, out: seq<Byte>, more: seq<Byte>, j: nat)
    requires 2 * j + 2 <= |out| && PairIs(src, out, j)
    ensures PairIs(src, out + more, j)
  {
    CountFront(out, more, j);
  }

  /** A page as pairs; the pairs expand to the page, whatever its bytes. */
  method CompressPage(src: Bytes) returns (out: seq<Byte>)
    ensures Expand(out) == src
    ensures |out| % 2 == 0 && |out| <= 8192 && Count(out, |out| / 2) == 4096
    ensures forall j: nat :: 2 * j + 2 <= |out| ==> PairIs(src, out, j)
  {
    hide Expand, PairIs;
    out := [];
    assert Expand(out) == src[..0] by { ExpandEmpty(); }
    var i: nat := 0;
    while i < 4096
      invariant i <= 4096 && |out| % 2 == 0 && |out| <= 2 * i
      invariant Expand(out) == src[..i] && Count(out, |out| / 2) == i
      invariant forall j: nat :: 2 * j + 2 <= |out| ==> PairIs(src, out, j)
    {
      var run := RunLength(src, i);
      ExpandAppend(out, src[i], run);
      NextPair(src, out, i, run);
      out := out + [src[i], run];
      i := i + run;
    }
    assert src[..4096] == src;
  }

  lemma NextPair(src: Bytes, out: seq<Byte>, i: nat, run: nat)
    requires |out| % 2 == 0 && i < 4096 && 1 <= run <= 255 && i + run <= 4096 && Count(out, |out| / 2) == i
    requires src[..i + run] == src[..i] + Repeat(src[i], run)
    requires run < 255 && i + run < 4096 ==> src[i + run] != src[i]
    requires forall j: nat :: 2 * j + 2 <= |out| ==> PairIs(src, out, j)
    ensures var next := out + [src[i], run];
      Count(next, |next| / 2) == i + run && forall j: nat :: 2 * j + 2 <= |next| ==> PairIs(src, next, j)
  {
    var more: seq<Byte>, last := [src[i], run], |out| / 2;
    var next := out + more;
    CountFront(out, more, last);
    forall x | i <= x < i + run ensures src[x] == src[i] {
      assert src[..i + run][x] == src[x];
    }
    forall j: nat | 2 * j + 2 <= |next| ensures PairIs(src, next, j) {
      if j < last {
        PairsStay(src, out, more, j);
      }
    }
  }

  lemma ExpandEmpty()
    ensures Expand([]) == []
  {
  }

  /** `s` written over the front of a page, what does not fit dropped. */
  function Overlay(s: seq<Byte>, dst: Bytes): (r: Bytes) {
    if |s| >= 4096 then s[..4096] else s + dst[|s|..]
  }

  /** Fills `dst` with the expansion of `src`, stopping at the end of either. */
  method DecompressPage(src: seq<Byte>, dst: Bytes) returns (out: Bytes)
    ensures out == Overlay(Expand(src), dst)
  {
    out := dst;
    var pos, i := 0, 0;
    ghost var done: seq<Byte> := [];
    assert src[0..] == src;
    while i + 1 < |src| && pos < 4096
      invariant 0 <= i <= |src| && i % 2 == 0 && 0 <= pos <= 4096
      invariant pos == Min(|done|, 4096) && out == Overlay(done, dst)
      invariant done + Expand(src[i..]) == Expand(src)
      decreases |src| - i
    {
      var b, run := src[i], src[i + 1];
      var end := Min(pos + run, 4096);
      assert src[i..][2..] == src[i + 2..];
      assert done + Expand(src[i..]) == done + Repeat(b, run) + Expand(src[i + 2..]);
      out := out[..pos] + Repeat(b, end - pos) + out[end..];
      done := done + Repeat(b, run);
      i, pos := i + 2, end;
    }
    assert pos < 4096 ==> Expand(src[i..]) == [];
    assert pos == 4096 ==> Expand(src)[..4096] == done[..4096];
  }

  /** What `swap_in` puts in a fresh frame. */
  function Restored(data: seq<Byte>): Page {
    OfBytes(Overlay(Expand(data), ToBytes(Zero())))
  }

  lemma PageRoundTrip(p: Page)
    ensures OfBytes(ToBytes(p)) == p
  {
    forall i | 0 <= i < 512 ensures OfBytes(ToBytes(p))[i] == p[i] {
      var b := ToBytes(p)[8 * i..8 * i + 8];
      assert b == WordBytes(p[i]) by {
        forall k | 0 <= k < 8 ensures b[k] == WordBytes(p[i])[k] {
          assert (8 * i + k) / 8 == i && (8 * i + k) % 8 == k;
        }
      }
      Pow256Eight();
      FromToLE(p[i], 8);
    }
  }

  /** A compressed page is restored exactly, for every page. */
  lemma SwapRoundTrip(p: Page, data: seq<Byte>)
    requires Expand(data) == ToBytes(p)
    ensures Restored(data) == p
  {
    PageRoundTrip(p);
    assert Overlay(Expand(data), ToBytes(Zero())) == ToBytes(p);
  }
}
