/** The split virtqueue of src/net/virtqueue.rs against a device that completes only chains it was offered,
    each once (section 2.6 of VIRTIO 1.1). */
module Virtqueue {
  import opened Words

  datatype Buffer = Buffer(addr: nat, len: nat, write: bool)

  /** `VIRTQ_DESC_F_NEXT` and `VIRTQ_DESC_F_WRITE` as booleans. */
  datatype Descriptor = Descriptor(addr: nat, len: nat, write: bool, more: bool, next: nat)

  datatype UsedElem = UsedElem(id: nat, len: nat)

  /** Where a chain is: in the available ring, with the device, in the used ring, or popped by the driver. */
  datatype Stage = Offered | Taken | Done | Popped

  // ---- sizes ----

  /** Queue sizes divide 65536: the powers of two the standard allows. */
  predicate SizeOk(size: nat) {
    0 < size <= 32768 && 0x1_0000 % size == 0
  }

  /** The ring slot of position `n`. */
  function Slot(n: nat, size: nat): (s: nat)
    requires size > 0
    ensures s < size
  {
    n % size
  }

  /** `as u16`, and the width of `last_used_idx`. */
  function Low16(n: nat): nat {
    n % 0x1_0000
  }

  function Low32(n: nat): nat {
    n % 0x1_0000_0000
  }

  lemma RemainderIs(n: nat, m: nat, q: nat, r: nat)
    requires m > 0 && n == q * m + r && r < m
    ensures n % m == r
  {
    var q', r' := n / m, n % m;
    assert n == q' * m + r';
    if q > q' {
      MulAtLeast(q - q', m);
    } else if q < q' {
      MulAtLeast(q' - q, m);
    }
  }

  lemma ModMultiple(x: nat, w: nat, size: nat)
    requires size > 0 && w % size == 0
    ensures (x + w) % size == x % size
  {
    RemainderIs(x + w, size, x / size + w / size, x % size);
  }

  /** Indices that wrap at a multiple of the size stay in step with the ring. */
  lemma {:induction false} WrapInStep(n: nat, wrap: nat, size: nat)
    requires size > 0 && wrap > 0 && wrap % size == 0
    ensures n % wrap % size == n % size
  {
    if n < wrap {
      RemainderIs(n, wrap, 0, n);
    } else {
      WrapInStep(n - wrap, wrap, size);
      ModMultiple(n - wrap, wrap, wrap);
      ModMultiple(n - wrap, wrap, size);
    }
  }

  lemma WideToo(size: nat)
    requires SizeOk(size)
    ensures 0x1_0000_0000 % size == 0
  {
    var k := 0x1_0000 / size;
    assert 0x1_0000_0000 == (k * 0x1_0000) * size;
    RemainderIs(0x1_0000_0000, size, k * 0x1_0000, 0);
  }

  /** Indices kept modulo 2^16 or 2^32 count on across the wrap, and name the same slots. */
  lemma IndexSlots(n: nat, size: nat)
    requires SizeOk(size)
    ensures Slot(Low16(n), size) == Slot(n, size) && Slot(Low32(n), size) == Slot(n, size)
    ensures Low16(Low16(n) + 1) == Low16(n + 1) && Low32(Low32(n) + 1) == Low32(n + 1) && Low16(Low32(n)) == Low16(n)
  {
    hide Slot, Low16, Low32, SizeOk;
    Counts(n);
    SlotsAgree(n, size);
  }

  lemma Counts(n: nat)
    ensures Low16(Low16(n) + 1) == Low16(n + 1) && Low32(Low32(n) + 1) == Low32(n + 1) && Low16(Low32(n)) == Low16(n)
  {
    NextWraps(n, 0x1_0000);
    NextWraps(n, 0x1_0000_0000);
    WrapInStep(n, 0x1_0000_0000, 0x1_0000);
  }

  lemma NextWraps(n: nat, wrap: nat)
    requires wrap > 0
    ensures (n % wrap + 1) % wrap == (n + 1) % wrap
  {
    var w := n / wrap * wrap;
    assert n + 1 == (n % wrap + 1) + w;
    RemainderIs(w, wrap, n / wrap, 0);
    ModMultiple(n % wrap + 1, w, wrap);
  }

  lemma SlotsAgree(n: nat, size: nat)
    requires SizeOk(size)
    ensures Slot(Low16(n), size) == Slot(n, size) && Slot(Low32(n), size) == Slot(n, size)
  {
    WideToo(size);
    WrapInStep(n, 0x1_0000, size);
    WrapInStep(n, 0x1_0000_0000, size);
  }

  /** Neighbouring positions use different slots. */
  lemma Residues(a: nat, b: nat, size: nat)
    requires a < b < a + size
    ensures Slot(a, size) != Slot(b, size)
  {
    var d := b - a;
    if a % size + d < size {
      RemainderIs(b, size, a / size, a % size + d);
    } else {
      RemainderIs(b, size, a / size + 1, a % size + d - size);
    }
  }

  /** Distinct numbers below `n` are at most `n` many. */
  lemma {:induction false} Pigeonhole(q: seq<nat>, n: nat)
    requires NoDup(q) && forall x :: x in q ==> x < n
    ensures |q| <= n
    decreases n
  {
    if q == [] {
      return;
    }
    assert q[0] in q;
    if n - 1 in q {
      var k :| 0 <= k < |q| && q[k] == n - 1;
      var rest := q[..k] + q[k + 1..];
      forall x | x in rest ensures x < n - 1 {
        assert x in q && x != q[k];
      }
      Pigeonhole(rest, n - 1);
    } else {
      Pigeonhole(q, n - 1);
    }
  }

  // ---- descriptors ----

  function DescOf(bufs: seq<Buffer>, ids: seq<nat>, i: nat): Descriptor
    requires i < |bufs| == |ids|
  {
    Descriptor(bufs[i].addr, bufs[i].len, bufs[i].write, i + 1 < |ids|, if i + 1 < |ids| then ids[i + 1] else 0)
  }

  /** Field by field: each descriptor has its buffer's address, length and direction, and all but the last are
      marked and name the next. */
  ghost predicate Describe(desc: seq<Descriptor>, ids: seq<nat>, bufs: seq<Buffer>) {
    && |ids| == |bufs|
    && forall i :: 0 <= i < |ids| ==>
         && ids[i] < |desc|
         && desc[ids[i]].addr == bufs[i].addr && desc[ids[i]].len == bufs[i].len && desc[ids[i]].write == bufs[i].write
         && (desc[ids[i]].more <==> i < |ids| - 1)
         && desc[ids[i]].next == if i < |ids| - 1 then ids[i + 1] else 0
  }

  /** The descriptors `ids` spell out `bufs`, linked in order. */
  ghost predicate Spells(desc: seq<Descriptor>, ids: seq<nat>, bufs: seq<Buffer>) {
    && |ids| == |bufs| > 0 && NoDup(ids)
    && (forall i :: 0 <= i < |ids| ==> ids[i] < |desc| && desc[ids[i]] == DescOf(bufs, ids, i))
  }

  lemma SpellsStill(desc: seq<Descriptor>, desc': seq<Descriptor>, ids: seq<nat>, bufs: seq<Buffer>)
    requires Spells(desc, ids, bufs) && |desc'| == |desc| && forall id: nat :: id in ids ==> desc'[id] == desc[id]
    ensures Spells(desc', ids, bufs)
  {
    forall i | 0 <= i < |ids| ensures desc'[ids[i]] == DescOf(bufs, ids, i) {
      assert ids[i] in ids;
    }
  }

  ghost predicate FreeOk(size: nat, free: seq<nat>) {
    NoDup(free) && forall id: nat :: id in free ==> id < size
  }

  ghost predicate HeadsOk(chains: map<nat, seq<nat>>) {
    forall h: nat :: h in chains ==> |chains[h]| > 0 && chains[h][0] == h && NoDup(chains[h])
  }

  ghost predicate Apart(size: nat, free: seq<nat>, chains: map<nat, seq<nat>>) {
    && (forall h: nat, id: nat :: h in chains && id in chains[h] ==> id < size && id !in free)
    && (forall g: nat, h: nat, id: nat :: g in chains && h in chains && id in chains[g] && id in chains[h] ==> g == h)
  }

  ghost predicate Covered(size: nat, free: seq<nat>, chains: map<nat, seq<nat>>) {
    forall id: nat :: id < size ==> id in free || InChain(chains, id)
  }

  /** The free list and the outstanding chains partition `0..size`. */
  ghost predicate Partition(size: nat, free: seq<nat>, chains: map<nat, seq<nat>>) {
    FreeOk(size, free) && HeadsOk(chains) && Apart(size, free, chains) && Covered(size, free, chains)
  }

  ghost predicate InChain(chains: map<nat, seq<nat>>, id: nat) {
    exists h: nat :: h in chains && id in chains[h]
  }

  ghost predicate AllSpelled(desc: seq<Descriptor>, chains: map<nat, seq<nat>>, bufs: map<nat, seq<Buffer>>) {
    chains.Keys == bufs.Keys && forall h :: h in chains ==> Spells(desc, chains[h], bufs[h])
  }

  // ---- rings ----

  /** Entries `from` on of `log` are still in the ring, one slot each. */
  ghost predicate RingHolds<T(!new)>(ring: seq<T>, log: seq<T>, from: nat, size: nat) {
    && size > 0 && |ring| == size && from <= |log| && |log| - from <= size
    && forall k :: from <= k < |log| ==> ring[Slot(k, size)] == log[k]
  }

  /** A new entry takes a slot no unconsumed entry uses. */
  lemma RingPush<T(!new)>(ring: seq<T>, log: seq<T>, from: nat, size: nat, x: T)
    requires RingHolds(ring, log, from, size) && |log| - from < size
    ensures RingHolds(ring[Slot(|log|, size) := x], log + [x], from, size)
  {
    hide Slot;
    forall k | from <= k < |log| ensures Slot(k, size) != Slot(|log|, size) {
      Residues(k, |log|, size);
    }
  }

  lemma RingPop<T(!new)>(ring: seq<T>, log: seq<T>, from: nat, size: nat)
    requires RingHolds(ring, log, from, size) && from < |log|
    ensures ring[Slot(from, size)] == log[from] && RingHolds(ring, log, from + 1, size)
  {
  }

  // ---- stages ----

  /** `q` lists the chains at stage `st`, each once. */
  ghost predicate Lists(q: seq<nat>, stage: map<nat, Stage>, st: Stage) {
    NoDup(q) && forall h :: h in q <==> h in stage && stage[h] == st
  }

  function Ids(es: seq<UsedElem>): (q: seq<nat>)
    ensures |q| == |es| && forall i :: 0 <= i < |es| ==> q[i] == es[i].id
  {
    seq(|es|, i requires 0 <= i < |es| => es[i].id)
  }

  /** One more chain at the stage still fits the ring. */
  lemma RoomForOne(q: seq<nat>, stage: map<nat, Stage>, st: Stage, h: nat, size: nat)
    requires Lists(q, stage, st) && h < size && (h in stage ==> stage[h] != st) && forall g :: g in stage ==> g < size
    ensures |q| < size
  {
    Pigeonhole(q + [h], size);
  }

  lemma ListsAdd(q: seq<nat>, stage: map<nat, Stage>, st: Stage, h: nat)
    requires Lists(q, stage, st) && (h in stage ==> stage[h] != st)
    ensures Lists(q + [h], stage[h := st], st)
  {
  }

  lemma ListsOther(q: seq<nat>, stage: map<nat, Stage>, st: Stage, h: nat, st': Stage)
    requires Lists(q, stage, st) && (h in stage ==> stage[h] != st) && st' != st
    ensures Lists(q, stage[h := st'], st) && Lists(q, stage - {h}, st)
  {
  }

  lemma ListsPop(q: seq<nat>, stage: map<nat, Stage>, st: Stage, st': Stage)
    requires Lists(q, stage, st) && q != [] && st' != st
    ensures q[0] in stage && stage[q[0]] == st && Lists(q[1..], stage[q[0] := st'], st)
  {
    assert q[0] in q;
    forall h ensures h in q[1..] <==> h in q && h != q[0] {
      if h in q && h != q[0] {
        var k :| 0 <= k < |q| && q[k] == h;
        assert q[1..][k - 1] == h;
      }
    }
  }

  // ---- partition ----

  /** The last `n` of the free list, last first: what `pop` hands out. */
  function Popping(free: seq<nat>, n: nat): (ids: seq<nat>)
    requires n <= |free|
    ensures |ids| == n && forall i :: 0 <= i < n ==> ids[i] == free[|free| - 1 - i]
  {
    seq(n, i requires 0 <= i < n => free[|free| - 1 - i])
  }

  lemma PoppingIs(free: seq<nat>, n: nat)
    requires NoDup(free) && n <= |free|
    ensures NoDup(Popping(free, n)) && NoDup(free[..|free| - n])
    ensures forall id: nat :: id in free <==> id in Popping(free, n) || id in free[..|free| - n]
    ensures forall id: nat :: id in Popping(free, n) ==> id !in free[..|free| - n]
  {
    var ids := Popping(free, n);
    forall id: nat | id in free ensures id in ids || id in free[..|free| - n] {
      var k :| 0 <= k < |free| && free[k] == id;
      if k >= |free| - n {
        assert ids[|free| - 1 - k] == id;
      } else {
        assert free[..|free| - n][k] == id;
      }
    }
  }

  lemma HeadsOff(size: nat, free: seq<nat>, chains: map<nat, seq<nat>>)
    requires Partition(size, free, chains)
    ensures forall h: nat :: h in chains ==> h !in free && h < size
  {
    forall h: nat | h in chains ensures h !in free && h < size {
      assert chains[h][0] in chains[h];
    }
  }

  lemma ApartTake(size: nat, free: seq<nat>, chains: map<nat, seq<nat>>, ids: seq<nat>, free': seq<nat>)
    requires FreeOk(size, free) && Apart(size, free, chains) && ids != []
    requires forall id: nat :: id in free <==> id in ids || id in free'
    requires forall id: nat :: id in ids ==> id !in free'
    ensures Apart(size, free', chains[ids[0] := ids])
  {
    var chains' := chains[ids[0] := ids];
    forall h: nat, id: nat | h in chains' && id in chains'[h] ensures id < size && id !in free' {
      if h != ids[0] {
        assert id in chains[h] && id !in free;
      } else {
        assert id in ids && id in free;
      }
    }
    forall g: nat, h: nat, id: nat | g in chains' && h in chains' && id in chains'[g] && id in chains'[h]
      ensures g == h
    {
      assert g != ids[0] ==> id in chains[g] && id !in ids;
      assert h != ids[0] ==> id in chains[h] && id !in ids;
    }
  }

  lemma CoveredTake(size: nat, free: seq<nat>, chains: map<nat, seq<nat>>, ids: seq<nat>, free': seq<nat>)
    requires Covered(size, free, chains) && ids != [] && ids[0] !in chains
    requires forall id: nat :: id in free <==> id in ids || id in free'
    ensures Covered(size, free', chains[ids[0] := ids])
  {
    var chains' := chains[ids[0] := ids];
    forall id: nat | id < size ensures id in free' || InChain(chains', id) {
      if id in ids {
        assert id in chains'[ids[0]];
      } else if id !in free {
        var h: nat :| h in chains && id in chains[h];
        assert id in chains'[h];
      }
    }
  }

  lemma PartitionTake(size: nat, free: seq<nat>, chains: map<nat, seq<nat>>, n: nat)
    requires Partition(size, free, chains) && 0 < n <= |free|
    ensures Popping(free, n)[0] !in chains && Popping(free, n)[0] < size
    ensures Partition(size, free[..|free| - n], chains[Popping(free, n)[0] := Popping(free, n)])
  {
    hide Apart, Covered;
    var ids, free' := Popping(free, n), free[..|free| - n];
    PoppingIs(free, n);
    assert ids[0] in ids;
    HeadsOff(size, free, chains);
    ApartTake(size, free, chains, ids, free');
    CoveredTake(size, free, chains, ids, free');
  }

  lemma ApartGive(size: nat, free: seq<nat>, chains: map<nat, seq<nat>>, h: nat, free': seq<nat>,
                  chains': map<nat, seq<nat>>)
    requires Apart(size, free, chains) && h in chains && chains' == chains - {h}
    requires forall id: nat :: id in free' <==> id in free || id in chains[h]
    ensures Apart(size, free', chains')
  {
  }

  lemma CoveredGive(size: nat, free: seq<nat>, chains: map<nat, seq<nat>>, h: nat)
    requires Covered(size, free, chains) && h in chains
    ensures Covered(size, free + chains[h], chains - {h})
  {
    forall id: nat | id < size ensures id in free + chains[h] || InChain(chains - {h}, id) {
      if id !in free + chains[h] {
        var g: nat :| g in chains && id in chains[g];
        assert id in (chains - {h})[g];
      }
    }
  }

  lemma PartitionGive(size: nat, free: seq<nat>, chains: map<nat, seq<nat>>, h: nat)
    requires Partition(size, free, chains) && h in chains
    ensures Partition(size, free + chains[h], chains - {h})
  {
    hide Covered;
    ApartGive(size, free, chains, h, free + chains[h], chains - {h});
    CoveredGive(size, free, chains, h);
    var free' := free + chains[h];
    forall a, b | 0 <= a < b < |free'| ensures free'[a] != free'[b] {
      if a < |free| <= b {
        assert free'[b] in chains[h] && free'[a] in free;
      }
    }
    forall id: nat | id in free' ensures id < size {
      assert id in free || id in chains[h];
    }
  }

  // ---- the queue ----

  /** No unconsumed entry of the available ring is overwritten, and the 16-bit index counts what was offered. */
  ghost predicate AvailOk(size: nat, ring: seq<nat>, idx: nat, offered: seq<nat>, taken: nat, stage: map<nat, Stage>) {
    && size > 0 && idx == Low16(|offered|) && taken <= |offered|
    && RingHolds(ring, offered, taken, size) && Lists(offered[taken..], stage, Offered)
  }

  /** No completion the driver has not popped is overwritten, and the indices count what was used and popped. */
  ghost predicate UsedOk(size: nat, ring: seq<UsedElem>, idx: nat, last: nat, used: seq<UsedElem>, popped: nat,
                         stage: map<nat, Stage>) {
    && size > 0 && idx == Low16(|used|) && last == Low32(popped) && popped <= |used|
    && RingHolds(ring, used, popped, size) && Lists(Ids(used[popped..]), stage, Done)
  }

  /** A chain offered. */
  lemma AvailOffer(size: nat, ring: seq<nat>, idx: nat, offered: seq<nat>, taken: nat, stage: map<nat, Stage>, h: nat)
    requires SizeOk(size) && AvailOk(size, ring, idx, offered, taken, stage) && h !in stage && h < size
    requires forall g :: g in stage ==> g < size
    ensures AvailOk(size, ring[Slot(idx, size) := h], Low16(idx + 1), offered + [h], taken, stage[h := Offered])
  {
    hide RingHolds, Lists, Slot, Low16, Low32;
    RoomForOne(offered[taken..], stage, Offered, h, size);
    ListsAdd(offered[taken..], stage, Offered, h);
    IndexSlots(|offered|, size);
    RingLength(ring, offered, taken, size);
    RingPush(ring, offered, taken, size, h);
    assert (offered + [h])[taken..] == offered[taken..] + [h];
  }

  lemma RingLength<T(!new)>(ring: seq<T>, log: seq<T>, from: nat, size: nat)
    requires RingHolds(ring, log, from, size)
    ensures |ring| == size && from <= |log| && |log| - from <= size
  {
  }

  /** Chains at other stages do not matter to a ring. */
  lemma AvailOther(size: nat, ring: seq<nat>, idx: nat, offered: seq<nat>, taken: nat, stage: map<nat, Stage>, h: nat,
                   st: Stage)
    requires AvailOk(size, ring, idx, offered, taken, stage) && (h in stage ==> stage[h] != Offered) && st != Offered
    ensures AvailOk(size, ring, idx, offered, taken, stage[h := st])
    ensures AvailOk(size, ring, idx, offered, taken, stage - {h})
  {
    hide RingHolds, Lists;
    ListsOther(offered[taken..], stage, Offered, h, st);
  }

  lemma UsedOther(size: nat, ring: seq<UsedElem>, idx: nat, last: nat, used: seq<UsedElem>, popped: nat,
                  stage: map<nat, Stage>, h: nat, st: Stage)
    requires UsedOk(size, ring, idx, last, used, popped, stage) && (h in stage ==> stage[h] != Done) && st != Done
    ensures UsedOk(size, ring, idx, last, used, popped, stage[h := st])
    ensures UsedOk(size, ring, idx, last, used, popped, stage - {h})
  {
    hide RingHolds, Lists;
    ListsOther(Ids(used[popped..]), stage, Done, h, st);
  }

  /** The device takes the oldest entry: it reads what was offered. */
  lemma AvailTake(size: nat, ring: seq<nat>, idx: nat, offered: seq<nat>, taken: nat, stage: map<nat, Stage>)
    requires AvailOk(size, ring, idx, offered, taken, stage) && taken < |offered|
    ensures |ring| == size && ring[Slot(taken, size)] == offered[taken] && offered[taken] in stage
    ensures stage[offered[taken]] == Offered
    ensures AvailOk(size, ring, idx, offered, taken + 1, stage[offered[taken] := Taken])
  {
    hide Lists, Slot, Low16;
    RingPop(ring, offered, taken, size);
    ListsPop(offered[taken..], stage, Offered, Taken);
    assert offered[taken..][1..] == offered[taken + 1..];
  }

  /** The device completes a chain it took. */
  lemma UsedComplete(size: nat, ring: seq<UsedElem>, idx: nat, last: nat, used: seq<UsedElem>, popped: nat,
                     stage: map<nat, Stage>, e: UsedElem)
    requires SizeOk(size) && UsedOk(size, ring, idx, last, used, popped, stage) && e.id in stage && stage[e.id] == Taken
    requires forall g :: g in stage ==> g < size
    ensures UsedOk(size, ring[Slot(idx, size) := e], Low16(idx + 1), last, used + [e], popped, stage[e.id := Done])
  {
    hide RingHolds, Lists, Slot, Low16, Low32;
    RoomForOne(Ids(used[popped..]), stage, Done, e.id, size);
    ListsAdd(Ids(used[popped..]), stage, Done, e.id);
    IndexSlots(|used|, size);
    RingLength(ring, used, popped, size);
    RingPush(ring, used, popped, size, e);
    assert (used + [e])[popped..] == used[popped..] + [e];
    assert Ids(used[popped..] + [e]) == Ids(used[popped..]) + [e.id];
  }

  /** The driver's test finds a completion exactly when there is one it has not popped. */
  lemma UsedTest(size: nat, ring: seq<UsedElem>, idx: nat, last: nat, used: seq<UsedElem>, popped: nat,
                 stage: map<nat, Stage>)
    requires SizeOk(size) && UsedOk(size, ring, idx, last, used, popped, stage)
    ensures |ring| == size && (Low16(last) == idx <==> popped == |used|) && Slot(last, size) == Slot(popped, size)
  {
    IndexSlots(popped, size);
    if popped < |used| {
      Residues(popped, |used|, 0x1_0000);
    }
  }

  /** Popping gives the completions in order, each once. */
  lemma UsedPop(size: nat, ring: seq<UsedElem>, idx: nat, last: nat, used: seq<UsedElem>, popped: nat,
                stage: map<nat, Stage>)
    requires SizeOk(size) && UsedOk(size, ring, idx, last, used, popped, stage) && popped < |used|
    ensures |ring| == size && ring[Slot(popped, size)] == used[popped] && used[popped].id in stage
    ensures stage[used[popped].id] == Done
    ensures UsedOk(size, ring, idx, Low32(last + 1), used, popped + 1, stage[used[popped].id := Popped])
  {
    hide Lists, Slot, Low16, Low32;
    IndexSlots(popped, size);
    RingPop(ring, used, popped, size);
    ListsPop(Ids(used[popped..]), stage, Done, Popped);
    assert Ids(used[popped..])[1..] == Ids(used[popped + 1..]);
  }

  class VirtQueue {
    const size: nat
    /** The page shared with the device: the descriptor table and the two rings with their indices. */
    var desc: seq<Descriptor>
    var availRing: seq<nat>
    var availIdx: nat
    var usedRing: seq<UsedElem>
    var usedIdx: nat
    /** The driver's own. */
    var free: seq<nat>
    var lastUsed: nat

    ghost var chains: map<nat, seq<nat>>
    ghost var bufs: map<nat, seq<Buffer>>
    ghost var stage: map<nat, Stage>
    /** Everything ever offered, and how much of it the device has taken; everything ever completed, and how
        much of it the driver has popped. */
    ghost var offered: seq<nat>
    ghost var taken: nat
    ghost var used: seq<UsedElem>
    ghost var popped: nat

    ghost predicate ChainsOk()
      reads this
    {
      && SizeOk(size) && |desc| == size && Partition(size, free, chains) && AllSpelled(desc, chains, bufs)
      && stage.Keys == chains.Keys
    }

    ghost predicate Valid()
      reads this
    {
      && ChainsOk() && AvailOk(size, availRing, availIdx, offered, taken, stage)
      && UsedOk(size, usedRing, usedIdx, lastUsed, used, popped, stage)
    }

    constructor (size: nat)
      requires SizeOk(size)
      ensures Valid() && this.size == size && chains == map[] && offered == [] && used == [] && |free| == size
    {
      this.size := size;
      desc := seq(size, _ => Descriptor(0, 0, false, false, 0));
      availRing, availIdx := seq(size, _ => 0), 0;
      usedRing, usedIdx := seq(size, _ => UsedElem(0, 0)), 0;
      free := seq(size, i requires 0 <= i < size => i);
      lastUsed := 0;
      chains, bufs, stage, offered, taken, used, popped := map[], map[], map[], [], 0, [], 0;
      new;
      forall id: nat | id < size ensures id in free {
        assert free[id] == id;
      }
      assert Ids(used[popped..]) == [];
    }

    /** Reads the buffers of a chain back, in order. */
    method ReadChain(start: nat) returns (out: seq<(nat, nat)>)
      requires ChainsOk() && start in chains
      ensures |out| == |bufs[start]|
      ensures forall i :: 0 <= i < |out| ==> out[i] == (bufs[start][i].addr, bufs[start][i].len)
    {
      hide Partition;
      out := [];
      ghost var ids := chains[start];
      ChainStarts(size, free, chains, start);
      var cur, more := start, true;
      while more
        invariant 0 <= |out| <= |ids| && Spells(desc, ids, bufs[start])
        invariant more ==> |out| < |ids| && cur == ids[|out|]
        invariant !more ==> |out| == |ids|
        invariant forall i :: 0 <= i < |out| ==> out[i] == (bufs[start][i].addr, bufs[start][i].len)
        decreases |ids| - |out|, more
      {
        var d := desc[cur];
        out := out + [(d.addr, d.len)];
        more := d.more;
        cur := d.next;
      }
    }

    /** The descriptors of a chain, by following the links. */
    method Follow(start: nat) returns (found: seq<nat>)
      requires ChainsOk() && start in chains
      ensures found == chains[start]
    {
      hide Partition;
      found := [];
      ghost var ids := chains[start];
      ChainStarts(size, free, chains, start);
      var cur, more := start, true;
      while more
        invariant 0 <= |found| <= |ids| && Spells(desc, ids, bufs[start]) && found == ids[..|found|]
        invariant more ==> |found| < |ids| && cur == ids[|found|]
        invariant !more ==> |found| == |ids|
        decreases |ids| - |found|, more
      {
        var d := desc[cur];
        found := found + [cur];
        more := d.more;
        cur := d.next;
      }
    }

    /** Returns a chain's descriptors to the free list. */
    method FreeChain(start: nat) returns (freed: seq<nat>)
      requires Valid() && start in chains && stage[start] == Popped
      modifies this`free, this`chains, this`bufs, this`stage
      ensures Valid() && freed == old(chains)[start] && free == old(free) + freed
      ensures chains == old(chains) - {start} && bufs == old(bufs) - {start} && stage == old(stage) - {start}
    {
      hide Partition, AvailOk, UsedOk, Spells;
      freed := Follow(start);
      PartitionGive(size, free, chains, start);
      AvailOther(size, availRing, availIdx, offered, taken, stage, start, Popped);
      UsedOther(size, usedRing, usedIdx, lastUsed, used, popped, stage, start, Popped);
      free := free + freed;
      chains, bufs, stage := chains - {start}, bufs - {start}, stage - {start};
    }

    /** Offers a chain of buffers to the device. It fails exactly when descriptors are short; a free slot in
        the ring there always is. */
    method EnqueueChain(buffers: seq<Buffer>) returns (r: Option<nat>)
      requires Valid() && buffers != []
      modifies this`desc, this`free, this`availRing, this`availIdx, this`chains, this`bufs, this`stage, this`offered
      ensures Valid() && (r.None? <==> |old(free)| < |buffers|)
      ensures r.None? ==> chains == old(chains) && bufs == old(bufs) && stage == old(stage)
      ensures r.None? ==> offered == old(offered) && free == old(free)
      ensures r.Some? ==>
        && r.value !in old(chains) && offered == old(offered) + [r.value]
        && free == old(free)[..|old(free)| - |buffers|]
        && bufs == old(bufs)[r.value := buffers] && stage == old(stage)[r.value := Offered]
        && chains == old(chains)[r.value := Popping(old(free), |buffers|)]
        && r.value == old(free)[|old(free)| - 1] && Describe(desc, Popping(old(free), |buffers|), buffers)
      ensures r.Some? ==> |desc| == |old(desc)|
      ensures r.Some? ==> forall id: nat :: id < |desc| && id !in chains[r.value] ==> desc[id] == old(desc)[id]
      ensures r.Some? ==> size == |old(availRing)| > 0 && availIdx == (old(availIdx) + 1) % 0x1_0000
      ensures r.Some? ==> availRing == old(availRing)[old(availIdx) % size := r.value]
    {
      hide Popping, VirtQueue.Valid, VirtQueue.CanPlace, Describe;
      if |free| < |buffers| {
        return None;
      }
      var ids := Popping(free, |buffers|);
      EnqueueKeeps(this, buffers, ids);
      Place(ids, buffers);
      return Some(ids[0]);
    }

    /** The queue is in order once these descriptors hold these buffers. */
    ghost predicate CanPlace(ids: seq<nat>, buffers: seq<Buffer>)
      reads this
    {
      && SizeOk(size) && |desc| == size && |availRing| == size
      && 0 < |ids| == |buffers| <= |free| && NoDup(ids) && (forall i :: 0 <= i < |ids| ==> ids[i] < |desc|)
      && Partition(size, free[..|free| - |buffers|], chains[ids[0] := ids])
      && AllSpelled(Filled(desc, ids, buffers), chains[ids[0] := ids], bufs[ids[0] := buffers])
      && AvailOk(size, availRing[Slot(availIdx, size) := ids[0]], Low16(availIdx + 1), offered + [ids[0]], taken,
         stage[ids[0] := Offered])
      && UsedOk(size, usedRing, usedIdx, lastUsed, used, popped, stage[ids[0] := Offered])
      && stage[ids[0] := Offered].Keys == chains[ids[0] := ids].Keys
    }

    method Place(ids: seq<nat>, buffers: seq<Buffer>)
      requires CanPlace(ids, buffers)
      modifies this`desc, this`free, this`availRing, this`availIdx, this`chains, this`bufs, this`stage, this`offered
      ensures Valid() && offered == old(offered) + [ids[0]] && free == old(free)[..|old(free)| - |buffers|]
      ensures chains == old(chains)[ids[0] := ids] && bufs == old(bufs)[ids[0] := buffers]
      ensures stage == old(stage)[ids[0] := Offered] && Describe(desc, ids, buffers)
      ensures |desc| == |old(desc)| && forall id: nat :: id < |desc| && id !in ids ==> desc[id] == old(desc)[id]
      ensures size == |old(availRing)| > 0 && availIdx == (old(availIdx) + 1) % 0x1_0000
      ensures availRing == old(availRing)[old(availIdx) % size := ids[0]]
    {
      hide SizeOk, Partition, AvailOk, UsedOk, AllSpelled, Filled, NoDup, Describe;
      FilledDescribes(desc, ids, buffers);
      SizePositive(size);
      var table := Fill(ids, buffers);
      desc, free, availRing, availIdx, chains, bufs, stage, offered :=
        table, free[..|free| - |buffers|], availRing[Slot(availIdx, size) := ids[0]], Low16(availIdx + 1),
        chains[ids[0] := ids], bufs[ids[0] := buffers], stage[ids[0] := Offered], offered + [ids[0]];
    }

    /** One completion, if there is one the driver has not popped. */
    method PopOneUsed() returns (r: Option<UsedElem>)
      requires Valid()
      modifies this`lastUsed, this`stage, this`popped
      ensures Valid() && (r.None? <==> old(popped) == |used|) && |usedRing| == size > 0
      ensures r.Some? ==> r.value == usedRing[old(lastUsed) % size]
      ensures r.None? ==> popped == old(popped) && stage == old(stage)
      ensures r.Some? ==>
        && r.value == used[old(popped)] && popped == old(popped) + 1
        && r.value.id in old(stage) && old(stage)[r.value.id] == Done && stage == old(stage)[r.value.id := Popped]
    {
      hide SizeOk, Slot, Low16, Low32, Partition, AvailOk, UsedOk, AllSpelled;
      UsedTest(size, usedRing, usedIdx, lastUsed, used, popped, stage);
      UsedLength(this);
      if Low16(lastUsed) == usedIdx {
        return None;
      }
      UsedPop(size, usedRing, usedIdx, lastUsed, used, popped, stage);
      SlotIs(lastUsed, size);
      var e := usedRing[Slot(lastUsed, size)];
      AvailOther(size, availRing, availIdx, offered, taken, stage, e.id, Popped);
      lastUsed := Low32(lastUsed + 1);
      stage, popped := stage[e.id := Popped], popped + 1;
      return Some(e);
    }

    /** All completions the driver has not popped, in order, each once. */
    method PopUsed() returns (out: seq<UsedElem>)
      requires Valid()
      modifies this`lastUsed, this`stage, this`popped
      ensures Valid() && out == used[old(popped)..] && popped == |used|
      ensures stage.Keys == old(stage).Keys
      ensures forall h :: h in stage ==> stage[h] == if h in Ids(out) then Popped else old(stage)[h]
    {
      hide SizeOk, Slot, Low16, Low32, Partition, AvailOk, UsedOk, AllSpelled;
      out := [];
      UsedTest(size, usedRing, usedIdx, lastUsed, used, popped, stage);
      UsedLength(this);
      while Low16(lastUsed) != usedIdx
        invariant Valid() && old(popped) <= popped <= |used| && out == used[old(popped)..popped]
        invariant Low16(lastUsed) == usedIdx <==> popped == |used|
        invariant stage.Keys == old(stage).Keys
        invariant forall h :: h in stage ==> stage[h] == if h in Ids(out) then Popped else old(stage)[h]
        decreases |used| - popped
      {
        ghost var before := out;
        var e := PopOneUsed();
        out := out + [e.value];
        assert Ids(out) == Ids(before) + [e.value.id];
        UsedTest(size, usedRing, usedIdx, lastUsed, used, popped, stage);
        UsedLength(this);
      }
    }

    // The device, which may act between any two driver calls.

    /** It takes the oldest chain it has not taken. */
    ghost method DeviceTake() returns (h: nat)
      requires Valid() && taken < |offered|
      modifies this`stage, this`taken
      ensures Valid() && h == offered[old(taken)] && taken == old(taken) + 1 && h in chains
      ensures stage == old(stage)[h := Taken]
      ensures |availRing| == size && h == availRing[Slot(old(taken), size)]
    {
      hide SizeOk, Slot, Low16, Low32, Partition, AvailOk, UsedOk, AllSpelled;
      AvailTake(size, availRing, availIdx, offered, taken, stage);
      h := offered[taken];
      UsedOther(size, usedRing, usedIdx, lastUsed, used, popped, stage, h, Taken);
      stage, taken := stage[h := Taken], taken + 1;
    }

    /** It completes a chain it has taken, once. */
    method DeviceComplete(h: nat, len: nat)
      requires Valid() && h in stage && stage[h] == Taken
      modifies this`usedRing, this`usedIdx, this`used, this`stage
      ensures Valid() && used == old(used) + [UsedElem(h, len)] && stage == old(stage)[h := Done]
    {
      hide SizeOk, Slot, Low16, Low32, Partition, AvailOk, UsedOk, AllSpelled;
      HeadsOff(size, free, chains);
      UsedComplete(size, usedRing, usedIdx, lastUsed, used, popped, stage, UsedElem(h, len));
      AvailOther(size, availRing, availIdx, offered, taken, stage, h, Done);
      UsedLength(this);
      usedRing := usedRing[Slot(usedIdx, size) := UsedElem(h, len)];
      usedIdx := Low16(usedIdx + 1);
      used, stage := used + [UsedElem(h, len)], stage[h := Done];
    }

    /** Writes the descriptors one by one. */
    method Fill(ids: seq<nat>, buffers: seq<Buffer>) returns (table: seq<Descriptor>)
      requires |ids| == |buffers| && forall i :: 0 <= i < |ids| ==> ids[i] < |desc|
      ensures table == Filled(desc, ids, buffers)
    {
      table := desc;
      var i := 0;
      while i < |buffers|
        invariant 0 <= i <= |buffers| && table == FilledTo(desc, ids, buffers, i)
      {
        table := table[ids[i] := DescOf(buffers, ids, i)];
        i := i + 1;
      }
    }
  }

  /** The table with the first `n` of `ids` written. */
  function FilledTo(desc: seq<Descriptor>, ids: seq<nat>, buffers: seq<Buffer>, n: nat): (d: seq<Descriptor>)
    requires n <= |ids| == |buffers| && forall i :: 0 <= i < |ids| ==> ids[i] < |desc|
    ensures |d| == |desc|
  {
    if n == 0 then desc else FilledTo(desc, ids, buffers, n - 1)[ids[n - 1] := DescOf(buffers, ids, n - 1)]
  }

  function Filled(desc: seq<Descriptor>, ids: seq<nat>, buffers: seq<Buffer>): (d: seq<Descriptor>)
    requires |ids| == |buffers| && forall i :: 0 <= i < |ids| ==> ids[i] < |desc|
    ensures |d| == |desc|
  {
    FilledTo(desc, ids, buffers, |ids|)
  }

  lemma {:induction false} FilledIs(desc: seq<Descriptor>, ids: seq<nat>, buffers: seq<Buffer>, n: nat)
    requires n <= |ids| == |buffers| && NoDup(ids) && forall i :: 0 <= i < |ids| ==> ids[i] < |desc|
    ensures forall i :: 0 <= i < n ==> FilledTo(desc, ids, buffers, n)[ids[i]] == DescOf(buffers, ids, i)
    ensures forall id: nat :: id < |desc| && id !in ids ==> FilledTo(desc, ids, buffers, n)[id] == desc[id]
  {
    if n > 0 {
      FilledIs(desc, ids, buffers, n - 1);
    }
  }

  lemma FilledDescribes(desc: seq<Descriptor>, ids: seq<nat>, buffers: seq<Buffer>)
    requires |ids| == |buffers| && NoDup(ids) && forall i :: 0 <= i < |ids| ==> ids[i] < |desc|
    ensures Describe(Filled(desc, ids, buffers), ids, buffers)
    ensures forall id: nat :: id < |desc| && id !in ids ==> Filled(desc, ids, buffers)[id] == desc[id]
  {
    FilledIs(desc, ids, buffers, |ids|);
  }

  lemma SlotIs(n: nat, size: nat)
    requires size > 0
    ensures Slot(n, size) == n % size
  {
  }

  lemma SizePositive(size: nat)
    requires SizeOk(size)
    ensures size > 0
  {
  }

  lemma TakeSpelled(size: nat, free: seq<nat>, desc: seq<Descriptor>, chains: map<nat, seq<nat>>,
                    bufs: map<nat, seq<Buffer>>, buffers: seq<Buffer>)
    requires Partition(size, free, chains) && |desc| == size && AllSpelled(desc, chains, bufs)
    requires 0 < |buffers| <= |free|
    ensures var ids := Popping(free, |buffers|);
      && NoDup(ids) && (forall i :: 0 <= i < |ids| ==> ids[i] < size)
      && AllSpelled(Filled(desc, ids, buffers), chains[ids[0] := ids], bufs[ids[0] := buffers])
  {
    hide HeadsOk, Covered, Spells;
    var ids := Popping(free, |buffers|);
    PoppingIs(free, |buffers|);
    forall i | 0 <= i < |ids| ensures ids[i] < size {
      assert ids[i] in ids;
    }
    FilledIs(desc, ids, buffers, |ids|);
    var desc' := Filled(desc, ids, buffers);
    forall h | h in chains ensures Spells(desc', chains[h], bufs[h]) {
      forall id: nat | id in chains[h] ensures id < |desc| && desc'[id] == desc[id] {
        assert id !in ids;
      }
      SpellsStill(desc, desc', chains[h], bufs[h]);
    }
    NewSpelled(desc', ids, buffers);
  }

  lemma NewSpelled(desc: seq<Descriptor>, ids: seq<nat>, buffers: seq<Buffer>)
    requires |ids| == |buffers| > 0 && NoDup(ids)
    requires forall i :: 0 <= i < |ids| ==> ids[i] < |desc| && desc[ids[i]] == DescOf(buffers, ids, i)
    ensures Spells(desc, ids, buffers)
  {
  }

  lemma EnqueueKeeps(q: VirtQueue, buffers: seq<Buffer>, ids: seq<nat>)
    requires q.Valid() && 0 < |buffers| <= |q.free| && ids == Popping(q.free, |buffers|)
    ensures |ids| == |buffers| && ids[0] !in q.chains && q.CanPlace(ids, buffers)
  {
    hide SizeOk, Slot, Low16, Low32, Partition, AvailOk, UsedOk, AllSpelled, Filled;
    PartitionTake(q.size, q.free, q.chains, |buffers|);
    HeadsOff(q.size, q.free, q.chains);
    TakeSpelled(q.size, q.free, q.desc, q.chains, q.bufs, buffers);
    AvailLength(q);
    AvailOffer(q.size, q.availRing, q.availIdx, q.offered, q.taken, q.stage, ids[0]);
    UsedOther(q.size, q.usedRing, q.usedIdx, q.lastUsed, q.used, q.popped, q.stage, ids[0], Offered);
  }

  lemma AvailLength(q: VirtQueue)
    requires AvailOk(q.size, q.availRing, q.availIdx, q.offered, q.taken, q.stage)
    ensures |q.availRing| == q.size > 0
  {
  }

  lemma UsedLength(q: VirtQueue)
    requires q.Valid()
    ensures |q.usedRing| == q.size > 0 && q.popped <= |q.used|
  {
  }

  lemma ChainStarts(size: nat, free: seq<nat>, chains: map<nat, seq<nat>>, h: nat)
    requires Partition(size, free, chains) && h in chains
    ensures |chains[h]| > 0 && chains[h][0] == h
  {
  }
}
