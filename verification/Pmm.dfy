/** The physical memory manager, src/mm/pmm.rs: a free list threaded through the free pages' first
    words, and a 16-bit reference count for every frame. */
module Pmm {
  import opened Words
  import opened Sv39
  import opened Memory
  import opened MemorySteps
  import opened Machines

  lemma LinkedPop(ram: map<nat, Page>, free: seq<nat>, page: Page)
    requires Linked(ram, free) && free != []
    ensures Linked(ram[free[0] := page], free[1..])
  {
    hide FreedPage;
    forall i | 0 <= i < |free[1..]|
      ensures NextFree(free[1..], i) == NextFree(free, i + 1) && free[1..][i] == free[i + 1] != free[0]
    {
    }
  }

  lemma NextShift(free: seq<nat>, f: nat, i: nat)
    requires i <= |free|
    ensures NextFree([f] + free, i) == if i == 0 then Head(free) else NextFree(free, i - 1)
  {
  }

  lemma LinkedPush(ram: map<nat, Page>, free: seq<nat>, f: nat)
    requires Linked(ram, free) && f in ram && 0 < f < MAX_PPN && f !in free && Head(free) < MAX_PPN
    ensures Linked(ram[f := FreedPage(Head(free) * 4096)], [f] + free)
  {
    hide FreedPage, NextFree;
    var q := [f] + free;
    forall i: nat | i < |q|
      ensures q[i] == (if i == 0 then f else free[i - 1])
      ensures NextFree(q, i) == if i == 0 then Head(free) else NextFree(free, i - 1)
    {
      NextShift(free, f, i);
    }
  }

  /** Frames off the list may be written without disturbing it. */
  lemma LinkedFrame(ram: map<nat, Page>, free: seq<nat>, f: nat, page: Page)
    requires Linked(ram, free) && f !in free
    ensures Linked(ram[f := page], free)
  {
    hide FreedPage;
  }

  lemma LinkedHead(ram: map<nat, Page>, free: seq<nat>)
    requires Linked(ram, free)
    ensures Head(free) < MAX_PPN
    ensures free != [] ==> free[0] > 0 && free[0] in ram && NextFree(free, 0) < MAX_PPN
    ensures free != [] ==> ram[free[0]] == FreedPage(NextFree(free, 0) * 4096)
    ensures free != [] ==> Head(free[1..]) == NextFree(free, 0)
  {
  }

  // ---- boot ----

  /** What the device tree and the linker say, in bytes. */
  datatype Boot = Boot(stackEnd: nat, ramEnd: nat, fdtStart: nat, fdtEnd: nat, initrdStart: nat, initrdEnd: nat)

  /** The page overlaps neither reserved region. */
  predicate Usable(b: Boot, f: nat) {
    var curr, next := f * 4096, (f + 1) * 4096;
    && !(curr < b.fdtEnd && next > b.fdtStart)
    && !(b.initrdStart > 0 && curr < b.initrdEnd && next > b.initrdStart)
  }

  /** A page is usable exactly when it has no byte in common with the device tree or the initrd, the
      latter absent when its start is zero. */
  lemma UsableBytes(b: Boot, f: nat)
    requires b.fdtStart < b.fdtEnd && (b.initrdStart > 0 ==> b.initrdStart < b.initrdEnd)
    ensures Usable(b, f) <==> forall x {:trigger InPage(f, x)} :: InPage(f, x) ==>
      !(b.fdtStart <= x < b.fdtEnd) && !(0 < b.initrdStart <= x < b.initrdEnd)
  {
    var x := if f * 4096 < b.fdtStart then b.fdtStart else f * 4096;
    var y := if f * 4096 < b.initrdStart then b.initrdStart else f * 4096;
    if !Usable(b, f) {
      assert (InPage(f, x) && b.fdtStart <= x < b.fdtEnd) || (InPage(f, y) && b.initrdStart <= y < b.initrdEnd);
    }
  }

  predicate InPage(f: nat, x: int) {
    f * 4096 <= x < f * 4096 + 4096
  }

  /** The usable frames of `[lo, hi)` in ascending order. */
  function Usables(b: Boot, lo: nat, hi: nat): (q: seq<nat>)
    decreases hi - lo
  {
    if hi <= lo then [] else Usables(b, lo, hi - 1) + if Usable(b, hi - 1) then [hi - 1] else []
  }

  lemma {:induction false} UsablesAre(b: Boot, lo: nat, hi: nat)
    ensures forall f :: f in Usables(b, lo, hi) <==> lo <= f < hi && Usable(b, f)
    ensures forall x, y :: 0 <= x < y < |Usables(b, lo, hi)| ==> Usables(b, lo, hi)[x] < Usables(b, lo, hi)[y]
    ensures NoDup(Usables(b, lo, hi))
    decreases hi - lo
  {
    if lo < hi {
      UsablesAre(b, lo, hi - 1);
      var q, t := Usables(b, lo, hi - 1), Usables(b, lo, hi);
      assert forall f :: f in t <==> f in q || (f == hi - 1 && Usable(b, f));
      assert forall x :: 0 <= x < |q| ==> t[x] == q[x] && q[x] in q;
    }
  }

  /** The list as `init` builds it: every link but the last written, every page poisoned. */
  ghost predicate Threaded(ram: map<nat, Page>, q: seq<nat>) {
    && (forall i :: 0 <= i < |q| ==> q[i] in ram && 0 < q[i] < MAX_PPN)
    && (forall i, k :: 0 <= i < |q| && 0 < k < 512 ==> ram[q[i]][k] == POISON)
    && (forall i :: 0 <= i < |q| - 1 ==> ram[q[i]][0] == q[i + 1] * 4096)
  }

  lemma ThreadedLinked(ram: map<nat, Page>, q: seq<nat>)
    requires Threaded(ram, q) && NoDup(q) && (q != [] ==> ram[q[|q| - 1]][0] == 0)
    ensures Linked(ram, q)
  {
    forall i | 0 <= i < |q|
      ensures NextFree(q, i) < MAX_PPN && ram[q[i]] == FreedPage(NextFree(q, i) * 4096)
    {
      assert ram[q[i]][0] == NextFree(q, i) * 4096;
    }
  }

  lemma ThreadedGrow(ram: map<nat, Page>, q: seq<nat>, f: nat, ram': map<nat, Page>)
    requires Threaded(ram, q) && f !in q && f in ram && 0 < f < MAX_PPN && NoDup(q)
    requires var poisoned := ram[f := FreedPage(ram[f][0])];
             ram' == if q == [] then poisoned else poisoned[q[|q| - 1] := poisoned[q[|q| - 1]][0 := f * 4096]]
    ensures Threaded(ram', q + [f])
  {
    var t := q + [f];
    forall i | 0 <= i < |t| ensures t[i] == if i < |q| then q[i] else f {
    }
    assert forall i :: 0 <= i < |q| ==> q[i] != f;
  }

  /** Poisons page `curr` and links the last page so far, if any, to it. */
  method ThreadOne(m: Machine, head: nat, prev: nat, curr: nat, ghost q: seq<nat>) returns (head': nat)
    requires Threaded(m.ram, q) && NoDup(q) && curr in m.ram && 0 < curr < MAX_PPN && curr !in q
    requires head == Head(q) && (q != [] ==> prev == q[|q| - 1])
    modifies m`ram
    ensures Threaded(m.ram, q + [curr]) && head' == Head(q + [curr]) && m.ram.Keys == old(m.ram.Keys)
  {
    hide Threaded, FreedPage, NoDup;
    ThreadedIn(m.ram, q);
    assert q != [] ==> q[0] in q && q[|q| - 1] in q;
    head' := head;
    m.ram := m.ram[curr := FreedPage(m.ram[curr][0])];
    if head' == 0 {
      head' := curr;
    } else {
      m.ram := m.ram[prev := m.ram[prev][0 := curr * 4096]];
    }
    ThreadedGrow(old(m.ram), q, curr, m.ram);
  }

  /** Threads the free list through all usable pages above the kernel, in ascending order. */
  method ThreadFree(m: Machine, b: Boot) returns (head: nat, ghost q: seq<nat>)
    requires forall f :: f in m.ram ==> 0 < f < MAX_PPN
    requires forall f :: (b.stackEnd + 4095) / 4096 <= f < b.ramEnd / 4096 ==> f in m.ram
    modifies m`ram
    ensures q == Usables(b, (b.stackEnd + 4095) / 4096, b.ramEnd / 4096)
    ensures Linked(m.ram, q) && head == Head(q) && m.ram.Keys == old(m.ram.Keys)
    ensures forall f :: f in q ==> f in m.ram
  {
    hide Threaded, Linked, FreedPage, Usable, NoDup;
    var start := (b.stackEnd + 4095) / 4096;
    var prev, curr := 0, start;
    head, q := 0, [];
    ThreadedEmpty(m.ram);
    while (curr + 1) * 4096 <= b.ramEnd
      invariant start <= curr && (curr == start || curr <= b.ramEnd / 4096)
      invariant q == Usables(b, start, curr) && Threaded(m.ram, q)
      invariant head == Head(q) && prev == if q == [] then 0 else q[|q| - 1]
      invariant m.ram.Keys == old(m.ram.Keys)
      decreases b.ramEnd - curr * 4096
    {
      UsablesAre(b, start, curr);
      if Usable(b, curr) {
        head := ThreadOne(m, head, prev, curr, q);
        prev := curr;
        q := q + [curr];
      }
      curr := curr + 1;
    }
    UsablesAre(b, start, curr);
    ThreadedIn(m.ram, q);
    if prev != 0 {
      ThreadedEnd(m.ram, q);
      m.ram := m.ram[prev := m.ram[prev][0 := 0]];
    }
    ThreadedLinked(m.ram, q);
    assert start > b.ramEnd / 4096 ==> curr == start && q == [];
  }

  method Init(m: Machine, b: Boot)
    requires m.Valid() && m.roots == map[] && m.free == [] && m.tbl == map[] && m.leaf == map[] && m.held == multiset{}
    requires forall f :: f in m.owner ==> m.owner[f] == Reserved
    requires forall f :: (b.stackEnd + 4095) / 4096 <= f < b.ramEnd / 4096 ==> f in m.ram
    modifies m`ram, m`head, m`free, m`owner
    ensures m.Valid()
    ensures m.free == Usables(b, (b.stackEnd + 4095) / 4096, b.ramEnd / 4096)
  {
    hide Inv, Linked, NoDup, Usables;
    BootFrames(m.St());
    var head, q := ThreadFree(m, b);
    m.head := head * 4096;
    m.free := q;
    m.owner := map f | f in m.owner :: if f in q then Idle else Reserved;
    LinkedNoDup(m.ram, q);
    BootInv(m.St());
  }

  lemma LinkedNoDup(ram: map<nat, Page>, free: seq<nat>)
    requires Linked(ram, free)
    ensures NoDup(free)
  {
  }

  lemma ThreadedEmpty(ram: map<nat, Page>)
    ensures Threaded(ram, [])
  {
  }

  lemma ThreadedIn(ram: map<nat, Page>, q: seq<nat>)
    requires Threaded(ram, q)
    ensures forall f :: f in q ==> f in ram && 0 < f < MAX_PPN
  {
  }

  lemma ThreadedEnd(ram: map<nat, Page>, q: seq<nat>)
    requires Threaded(ram, q) && NoDup(q) && q != []
    ensures q[|q| - 1] in ram && Threaded(ram[q[|q| - 1] := ram[q[|q| - 1]][0 := 0]], q)
  {
  }

  lemma BootFrames(s: State)
    requires Inv(s) && (forall f :: f in s.owner ==> s.owner[f] == Reserved)
    ensures s.ram.Keys == s.owner.Keys == s.counts.Keys && |s.kernel| == 4
    ensures forall f :: f in s.owner ==> 0 < f < MAX_PPN && s.counts[f] == 0
  {
  }

  // ---- allocation ----

  /** A free page if there is one, zeroed and with count one. Its poison is always intact. */
  method AllocFrame(m: Machine) returns (r: Option<nat>)
    requires m.ListOk()
    modifies m`ram, m`head, m`counts, m`free
    ensures m.ListOk()
    ensures r.None? <==> old(m.free) == []
    ensures r.None? ==> m.ram == old(m.ram) && m.counts == old(m.counts) && m.free == []
    ensures r.Some? ==>
      && r.value == old(m.free)[0] && m.free == old(m.free)[1..]
      && m.ram == old(m.ram)[r.value := Zero()] && m.counts == old(m.counts)[r.value := 1]
  {
    hide Linked;
    LinkedHead(m.ram, m.free);
    if m.head == 0 {
      return None;
    }
    var f := m.head / 4096;
    m.head := m.ram[f][0];
    assert m.ram[f][1] == POISON;
    LinkedPop(m.ram, m.free, Zero());
    m.ram := m.ram[f := Zero()];
    m.free := m.free[1..];
    m.counts := m.counts[f := 1];
    return Some(f);
  }

  /** The frame becomes the head of the list, its other words poisoned. The double-free check never
      fires because the caller owns the frame. */
  method FreePage(m: Machine, f: nat)
    requires m.ListOk() && f in m.ram && 0 < f < MAX_PPN && f !in m.free
    requires f in m.counts
    modifies m`ram, m`head, m`counts, m`free
    ensures m.ListOk() && Head(old(m.free)) < MAX_PPN
    ensures m.free == [f] + old(m.free) && m.counts == old(m.counts)[f := 0]
    ensures m.ram == Freed(old(m.ram), old(m.free), f)
    ensures f in m.ram && m.ram[f][0] == (if old(m.free) == [] then 0 else old(m.free)[0] * 4096) && m.head == f * 4096
    ensures forall i :: 1 <= i < 512 ==> m.ram[f][i] == 0xCDCD_CDCD_CDCD_CDCD
  {
    hide Linked;
    LinkedHead(m.ram, m.free);
    LinkedPush(m.ram, m.free, f);
    m.counts := m.counts[f := 0];
    m.ram := m.ram[f := FreedPage(m.head)];
    m.head := f * 4096;
    m.free := [f] + m.free;
  }

  /** One reference more, as long as the count has room; nothing else moves. */
  method IncrRef(m: Machine, f: nat)
    requires f in m.counts
    modifies m`counts
    ensures m.counts.Keys == old(m.counts).Keys
    ensures (forall g :: g in m.counts && g != f ==> m.counts[g] == old(m.counts)[g])
    ensures if old(m.counts)[f] < COUNT_MAX then m.counts[f] == old(m.counts)[f] + 1 else m.counts[f] == COUNT_MAX
  {
    m.counts := m.counts[f := SaturatingAdd(m.counts[f])];
  }

  /** One reference less; at the last one the frame goes back on the list in the same step. */
  method DecrRefAndMaybeFree(m: Machine, f: nat)
    requires m.ListOk() && f in m.ram && 0 < f < MAX_PPN && f !in m.free
    requires f in m.counts
    modifies m`ram, m`head, m`counts, m`free
    ensures m.ListOk() && Head(old(m.free)) < MAX_PPN
    ensures m.ram == DecrRam(old(m.ram), old(m.counts), old(m.free), f)
    ensures m.counts == DecrCounts(old(m.counts), f) && m.free == DecrFree(old(m.counts), old(m.free), f)
  {
    hide Linked;
    LinkedHead(m.ram, m.free);
    if m.counts[f] > 1 {
      m.counts := m.counts[f := m.counts[f] - 1];
      return;
    }
    LinkedPush(m.ram, m.free, f);
    m.counts := m.counts[f := 0];
    m.ram := m.ram[f := FreedPage(m.head)];
    m.head := f * 4096;
    m.free := [f] + m.free;
  }
}
