/** Compressed swap, src/mm/swap.rs: evicting a page of a stopped process into the pool and bringing
    it back on the next fault. */
module Swap {
  import opened Words
  import opened Sv39
  import opened Memory
  import opened MemorySteps
  import opened Machines
  import opened Pmm
  import opened Vmm
  import opened SwapCodec
  import opened Views

  // ---- eviction ----

  /** The entry of `key` cleared, its frame held. */
  lemma UnbindHeld(s: State, key: Key) returns (t: State)
    requires Inv(s) && key in s.leaf
    ensures LowOf(key) in s.tbl && s.tbl[LowOf(key)] in s.ram && s.tbl[LowOf(key)] !in s.free && VpnOk(key.v)
    ensures Inv(t) && Mapped(s.ram, s.leaf) && Mapped(t.ram, t.leaf)
    ensures Resident(t.ram, t.leaf) == Resident(s.ram, s.leaf) - {key}
    ensures t.kernel == s.kernel && t.counts == s.counts && t.free == s.free && t.tbl == s.tbl
    ensures t.ram == Poked(s.ram, s.tbl[LowOf(key)], key.v.k, 0)
    ensures t.leaf == s.leaf - {key} && t.held == s.held + multiset{s.leaf[key].ppn}
  {
    hide PoolOk, FreeOk, TreeOk, EntriesOk, LeafOk, ShareOk, CountOk, Refs, Mapped, Resident;
    LeafIn(s, key);
    TableIn(s, LowOf(key));
    OffList(s, s.tbl[LowOf(key)]);
    UnbindKeeps(s, key);
    t := Unbind(s, key);
  }

  /** `key` moved from the tables to the pool. */
  ghost predicate Evicted(a: View, b: View, key: Key) {
    key.p in a.roots && key in a.leaf && key in a.pages &&
    var k := SwapKey(a.roots[key.p], key.v);
    && b.roots == a.roots && b.leaf == a.leaf - {key} && b.pages == a.pages - {key}
    && k in b.swap && b.swap == a.swap[k := b.swap[k]]
    && b.swap[k].flags == a.leaf[key].flags && Restored(b.swap[k].data) == a.pages[key]
    && b.count == Wrap(a.count + 1) && b.bytes == Wrap(a.bytes + |b.swap[k].data|)
  }

  method ClearSlot(m: Machine, ghost key: Key, pt: nat, k: nat)
    requires m.Valid() && key in m.leaf && LowOf(key) in m.tbl && m.tbl[LowOf(key)] == pt && k == key.v.k
    modifies m`ram, m`owner, m`tbl, m`leaf, m`held
    ensures m.Valid() && m.tbl == old(m.tbl) && m.leaf == old(m.leaf) - {key}
    ensures m.held == old(m.held) + multiset{old(m.leaf)[key].ppn} && m.Pages() == old(m.Pages()) - {key}
  {
    hide Inv, Linked, Resident;
    ghost var t := UnbindHeld(m.St(), key);
    LinkedFrame(m.ram, m.free, pt, m.ram[pt][k := 0]);
    m.ram := m.ram[pt := m.ram[pt][k := 0]];
    m.Settle(t);
  }

  method DropSlot(m: Machine, ghost key: Key, pt: nat, e: Pte, k: nat)
    requires m.Valid() && key in m.leaf && LowOf(key) in m.tbl && m.tbl[LowOf(key)] == pt && k == key.v.k
    requires m.leaf[key] == e
    modifies m`ram, m`head, m`counts, m`free, m`owner, m`tbl, m`leaf, m`held
    ensures m.Valid() && m.tbl == old(m.tbl) && m.held == old(m.held)
    ensures m.leaf == old(m.leaf) - {key} && m.Pages() == old(m.Pages()) - {key}
    ensures Released(old(m.leaf), old(m.held), old(m.free), m.free, key)
  {
    hide Inv, Linked, Resident, Machine.Valid, Machine.Pages, Refs;
    NoneLeft(m.leaf, key);
    ClearSlot(m, key, pt, k);
    DropFrame(m, e.ppn);
  }

  /** One page out: compress, record, clear the entry, drop the frame. */
  method EvictLeaf(m: Machine, p: Pid, v: Vpn, pt: nat, e: Pte)
    requires m.Valid() && p in m.roots && Key(p, v) in m.leaf && m.leaf[Key(p, v)] == e
    requires Low(p, v.i, v.j) in m.tbl && m.tbl[Low(p, v.i, v.j)] == pt
    modifies m`ram, m`head, m`counts, m`free, m`owner, m`tbl, m`leaf, m`held, m`swap, m`swapPages, m`swapBytes
    ensures m.Valid() && m.held == old(m.held) && m.tbl == old(m.tbl)
    ensures Evicted(old(ViewOf(m)), ViewOf(m), Key(p, v))
    ensures Released(old(m.leaf), old(m.held), old(m.free), m.free, Key(p, v))
  {
    hide Inv, Linked, Resident, Restored, Wrap, Expand, ToBytes, Machine.Valid, Machine.Pages, Refs;
    LeafPage(m, Key(p, v));
    var page := m.ram[e.ppn];
    var data := CompressPage(ToBytes(page));
    SwapRoundTrip(page, data);
    m.swap := m.swap[SwapKey(m.roots[p], v) := Swapped(data, e.flags)];
    DropSlot(m, Key(p, v), pt, e, v.k);
    m.swapPages, m.swapBytes := Wrap(m.swapPages + 1), Wrap(m.swapBytes + |data|);
  }

  lemma LeafPage(m: Machine, key: Key)
    requires m.Valid() && key in m.leaf
    ensures m.leaf[key].ppn in m.ram && key in m.Pages() && m.Pages()[key] == m.ram[m.leaf[key].ppn]
  {
    hide Linked, Inv;
    InvMapped(m.St());
  }

  /** A scan of `p` released the frame of the page it reports. */
  ghost predicate ScanReleased(leaf: map<Key, Pte>, held: multiset<nat>, before: seq<nat>, after: seq<nat>, p: Pid,
                               hit: Option<Vpn>) {
    if hit.None? then after == before else Released(leaf, held, before, after, Key(p, hit.value))
  }

  /** A scan of `p` evicted the page it reports, or found none and changed nothing. */
  ghost predicate Scanned(a: View, b: View, p: Pid, hit: Option<Vpn>) {
    if hit.None? then b == a else Evicted(a, b, Key(p, hit.value))
  }

  method ScanLow(m: Machine, p: Pid, i: nat, j: nat, pt: nat) returns (hit: Option<Vpn>)
    requires m.Valid() && p in m.roots && Low(p, i, j) in m.tbl && m.tbl[Low(p, i, j)] == pt
    modifies m`ram, m`head, m`counts, m`free, m`owner, m`tbl, m`leaf, m`held, m`swap, m`swapPages, m`swapBytes
    ensures m.Valid() && m.held == old(m.held) && m.tbl == old(m.tbl) && Scanned(old(ViewOf(m)), ViewOf(m), p, hit)
    ensures ScanReleased(old(m.leaf), old(m.held), old(m.free), m.free, p, hit)
    ensures hit.None? ==> forall k :: 0 <= k < 512 ==> Key(p, Vpn(i, j, k)) !in m.leaf
  {
    hide Inv, Linked, Resident, Restored, Wrap, Decode, Machine.Valid, Machine.Pages, Refs, Released;
    ValidInv(m);
    TableIn(m.St(), Low(p, i, j));
    var k: nat := 0;
    while k < 512
      invariant k <= 512
      invariant m.Valid() && m.held == old(m.held) && m.tbl == old(m.tbl) && ViewOf(m) == old(ViewOf(m))
      invariant m.free == old(m.free)
      invariant forall a :: 0 <= a < k ==> Key(p, Vpn(i, j, a)) !in m.leaf
    {
      ValidInv(m);
      TableIn(m.St(), Low(p, i, j));
      ghost var key := Key(p, Vpn(i, j, k));
      LeafReads(m.St(), key);
      var e := Decode(m.ram[pt][k]);
      if e.flags.v && e.flags.u {
        EvictLeaf(m, p, Vpn(i, j, k), pt, e);
        return Some(Vpn(i, j, k));
      }
      k := k + 1;
    }
    return None;
  }

  method ScanMid(m: Machine, p: Pid, i: nat, pt: nat) returns (hit: Option<Vpn>)
    requires m.Valid() && p in m.roots && Mid(p, i) in m.tbl && m.tbl[Mid(p, i)] == pt
    modifies m`ram, m`head, m`counts, m`free, m`owner, m`tbl, m`leaf, m`held, m`swap, m`swapPages, m`swapBytes
    ensures m.Valid() && m.held == old(m.held) && m.tbl == old(m.tbl) && Scanned(old(ViewOf(m)), ViewOf(m), p, hit)
    ensures ScanReleased(old(m.leaf), old(m.held), old(m.free), m.free, p, hit)
    ensures hit.None? ==> forall j, k :: 0 <= j < 512 && 0 <= k < 512 ==> Key(p, Vpn(i, j, k)) !in m.leaf
  {
    hide Inv, Linked, Resident, Restored, Wrap, Decode, Machine.Valid, Machine.Pages, Refs, Released;
    var j: nat := 0;
    while j < 512
      invariant j <= 512
      invariant m.Valid() && m.held == old(m.held) && m.tbl == old(m.tbl) && ViewOf(m) == old(ViewOf(m))
      invariant m.free == old(m.free)
      invariant forall a, k :: 0 <= a < j && 0 <= k < 512 ==> Key(p, Vpn(i, a, k)) !in m.leaf
    {
      ValidInv(m);
      TableIn(m.St(), Mid(p, i));
      EntryReads(m.St(), Mid(p, i), j);
      var e := Decode(m.ram[pt][j]);
      if e.flags.v && !e.flags.r && !e.flags.x {
        hit := ScanLow(m, p, i, j, e.ppn);
        if hit.Some? {
          return;
        }
      } else {
        NoLowNoPages(m.St(), p, i, j);
      }
      j := j + 1;
    }
    return None;
  }

  lemma NoLowNoPages(s: State, p: Pid, i: nat, j: nat)
    requires Inv(s) && Low(p, i, j) !in s.tbl
    ensures forall k :: 0 <= k < 512 ==> Key(p, Vpn(i, j, k)) !in s.leaf
  {
    forall k | 0 <= k < 512 ensures Key(p, Vpn(i, j, k)) !in s.leaf {
      assert LowOf(Key(p, Vpn(i, j, k))) == Low(p, i, j);
    }
  }

  lemma NoMidNoPages(s: State, p: Pid, i: nat)
    requires Inv(s) && Mid(p, i) !in s.tbl
    ensures forall j, k :: 0 <= j < 512 && 0 <= k < 512 ==> Key(p, Vpn(i, j, k)) !in s.leaf
  {
    forall j, k | 0 <= j < 512 && 0 <= k < 512 ensures Key(p, Vpn(i, j, k)) !in s.leaf {
      assert LowOf(Key(p, Vpn(i, j, k))) == Low(p, i, j) && Parent(Low(p, i, j)) == Mid(p, i);
    }
  }

  /** One process's tables, skipping the kernel's slots. */
  method ScanRoot(m: Machine, p: Pid) returns (hit: Option<Vpn>)
    requires m.Valid() && p in m.roots
    modifies m`ram, m`head, m`counts, m`free, m`owner, m`tbl, m`leaf, m`held, m`swap, m`swapPages, m`swapBytes
    ensures m.Valid() && m.held == old(m.held) && m.tbl == old(m.tbl) && Scanned(old(ViewOf(m)), ViewOf(m), p, hit)
    ensures ScanReleased(old(m.leaf), old(m.held), old(m.free), m.free, p, hit)
    ensures hit.None? ==> forall v :: VpnOk(v) ==> Key(p, v) !in m.leaf
  {
    hide Inv, Linked, Resident, Restored, Wrap, Decode, Machine.Valid, Machine.Pages, Refs, Released;
    var i: nat := 4;
    ValidInv(m);
    while i < 512
      invariant 4 <= i <= 512
      invariant m.Valid() && m.held == old(m.held) && m.tbl == old(m.tbl) && ViewOf(m) == old(ViewOf(m))
      invariant m.free == old(m.free)
      invariant forall a, j, k :: 4 <= a < i && 0 <= j < 512 && 0 <= k < 512 ==> Key(p, Vpn(a, j, k)) !in m.leaf
    {
      ValidInv(m);
      TableIn(m.St(), Root(p));
      EntryReads(m.St(), Root(p), i);
      var e := Decode(m.ram[m.roots[p]][i]);
      if e.flags.v && !e.flags.r && !e.flags.x {
        hit := ScanMid(m, p, i, e.ppn);
        if hit.Some? {
          return;
        }
      } else {
        NoMidNoPages(m.St(), p, i);
      }
      i := i + 1;
    }
    forall v | VpnOk(v) ensures Key(p, v) !in m.leaf {
      assert v == Vpn(v.i, v.j, v.k);
    }
    return None;
  }

  /** Evicts one page of a stopped process, which no process can notice; it fails exactly when no
      stopped process has a page. */
  method TryEvictPage(m: Machine, stopped: seq<Pid>) returns (evicted: Option<Key>)
    requires m.Valid() && Sane(ViewOf(m)) && (forall p :: p in stopped ==> p in m.roots)
    modifies m`ram, m`head, m`counts, m`free, m`owner, m`tbl, m`leaf, m`held, m`swap, m`swapPages, m`swapBytes
    ensures m.Valid() && m.held == old(m.held) && m.tbl == old(m.tbl)
    ensures Sane(ViewOf(m)) && Same(old(ViewOf(m)), ViewOf(m))
    ensures CountersOk(old(m.swap), old(m.swapPages), old(m.swapBytes)) ==> CountersOk(m.swap, m.swapPages, m.swapBytes)
    ensures evicted.None? ==> ViewOf(m) == old(ViewOf(m)) && forall key :: key in m.leaf ==> key.p !in stopped
    ensures evicted.Some? ==> evicted.value.p in stopped && Evicted(old(ViewOf(m)), ViewOf(m), evicted.value)
    ensures if evicted.None? then m.free == old(m.free)
      else Released(old(m.leaf), old(m.held), old(m.free), m.free, evicted.value)
  {
    hide Inv, Linked, Resident, Restored, Wrap, Decode, Machine.Valid, Machine.Pages, Evicted, Sane, PageAt, CountersOk,
      Refs, Released;
    var n: nat := 0;
    ghost var before := ViewOf(m);
    while n < |stopped|
      invariant n <= |stopped|
      invariant m.Valid() && m.held == old(m.held) && m.tbl == old(m.tbl) && ViewOf(m) == before
      invariant m.free == old(m.free)
      invariant forall a, v :: 0 <= a < n && VpnOk(v) ==> Key(stopped[a], v) !in m.leaf
    {
      var hit := ScanRoot(m, stopped[n]);
      if hit.Some? {
        EvictionInvisible(before, ViewOf(m), Key(stopped[n], hit.value));
        return Some(Key(stopped[n], hit.value));
      }
      n := n + 1;
    }
    AllScanned(ViewOf(m), stopped);
    return None;
  }

  lemma AllScanned(a: View, stopped: seq<Pid>)
    requires Sane(a) && forall i, v :: 0 <= i < |stopped| && VpnOk(v) ==> Key(stopped[i], v) !in a.leaf
    ensures forall key :: key in a.leaf ==> key.p !in stopped
  {
  }

  // ---- swap-in ----

  /** Data written into a frame nobody maps yet. */
  method FillHeld(m: Machine, f: nat, page: Page)
    requires m.Valid() && f in m.held && Refs(m.leaf, f) == {}
    modifies m`ram, m`owner, m`tbl, m`leaf, m`held
    ensures m.Valid() && m.leaf == old(m.leaf) && m.tbl == old(m.tbl) && m.held == old(m.held)
    ensures m.ram == old(m.ram)[f := page] && m.Pages() == old(m.Pages())
  {
    hide Inv, Linked, Resident, Refs;
    FillFree(m.St(), f, page);
    LinkedFrame(m.ram, m.free, f, page);
    m.ram := m.ram[f := page];
  }

  lemma FillFree(s: State, f: nat, page: Page)
    requires Inv(s) && f in s.held && Refs(s.leaf, f) == {}
    ensures f in s.ram && f !in s.free && Inv(Fill(s, f, page))
    ensures Resident(s.ram[f := page], s.leaf) == Resident(s.ram, s.leaf)
  {
    hide PoolOk, FreeOk, TreeOk, EntriesOk, LeafOk, ShareOk, CountOk, Refs, Resident;
    HeldIn(s, f);
    OffList(s, f);
    FillKeeps(s, f, page);
    InvMapped(s);
    ResidentFrame(s.ram, s.leaf, f, page);
  }

  lemma AloneShares(leaf: map<Key, Pte>, key: Key, e: Pte)
    requires Refs(leaf, e.ppn) == {}
    ensures CanShare(leaf, key, e)
  {
  }

  /** A fresh frame filled with `page` and mapped at `va`. It fails exactly when memory is out or the
      page is mapped already, leaving every page as it was. */
  method MapFresh(m: Machine, p: Pid, va: nat, page: Page, flags: Flags) returns (oom: bool, ok: bool)
    requires m.Valid() && p in m.roots && VpnOk(VpnOf(va)) && flags.u
    modifies m`ram, m`head, m`counts, m`free, m`owner, m`tbl, m`leaf, m`held
    ensures m.Valid() && m.held == old(m.held) && GrewFor(Key(p, VpnOf(va)), old(m.tbl), m.tbl)
    ensures oom <==> old(m.free) == []
    ensures var key := Key(p, VpnOf(va));
      && (ok <==> key !in old(m.leaf) && Missing(old(m.tbl), key) < |old(m.free)|)
      && (ok ==> m.leaf == old(m.leaf)[key := Pte(old(m.free)[0], flags.(v := true))])
      && (ok ==> m.Pages() == old(m.Pages())[key := page])
      && (!ok ==> m.leaf == old(m.leaf) && m.Pages() == old(m.Pages()))
      && (ok ==> |m.free| == |old(m.free)| - 1 - Missing(old(m.tbl), key))
      && (key in old(m.leaf) ==> |m.free| == |old(m.free)|)
  {
    hide Inv, Linked, Resident, Refs, Machine.Valid, Machine.Pages, CanShare, Missing, GrewFor;
    var f := TakeFrame(m);
    if f.None? {
      GrewNone(Key(p, VpnOf(va)), m.tbl);
      return true, false;
    }
    FillHeld(m, f.value, page);
    AloneShares(m.leaf, Key(p, VpnOf(va)), Pte(f.value, flags.(v := true)));
    oom := false;
    ok := MapPage(m, p, va, f.value, flags);
    if !ok {
      DropFrame(m, f.value);
    }
  }

  lemma GrewNone(key: Key, tbl: map<Node, nat>)
    ensures GrewFor(key, tbl, tbl)
  {
  }

  /** `key` moved from the pool to the tables, its contents restored; or, on failure, lost. */
  ghost predicate SwappedIn(a: View, b: View, key: Key, f: nat, ok: bool) {
    InSwap(a, key.p, key.v) &&
    var k := SwapKey(a.roots[key.p], key.v);
    && (ok ==> b == View(a.roots, a.leaf[key := Pte(f, a.swap[k].flags.(v := true))],
                         a.pages[key := Restored(a.swap[k].data)], a.swap - {k},
                         Wrap(a.count - 1), Wrap(a.bytes - |a.swap[k].data|)))
    && (!ok ==> b == a.(swap := a.swap - {k}))
  }

  /** Restores a page. The entry leaves the pool before memory is sure to suffice, so a failure loses it
      and leaves the counters behind. */
  method SwapIn(m: Machine, p: Pid, v: Vpn) returns (ok: bool)
    requires m.Valid() && Sane(ViewOf(m)) && p in m.roots
    modifies m`ram, m`head, m`counts, m`free, m`owner, m`tbl, m`leaf, m`held, m`swap, m`swapPages, m`swapBytes
    ensures m.Valid() && m.held == old(m.held) && GrewFor(Key(p, v), old(m.tbl), m.tbl) && Sane(ViewOf(m))
    ensures var a, b := old(ViewOf(m)), ViewOf(m);
      && (ok <==> InSwap(a, p, v) && Missing(old(m.tbl), Key(p, v)) < |old(m.free)|)
      && (if InSwap(a, p, v) then SwappedIn(a, b, Key(p, v), Head(old(m.free)), ok) else b == a)
      && (ok ==> |m.free| == |old(m.free)| - 1 - Missing(old(m.tbl), Key(p, v)))
  {
    hide Inv, Linked, Resident, Restored, Wrap, Machine.Valid, Machine.Pages, Missing, GrewFor, Expand, Overlay,
      ToBytes, OfBytes, VpnOf, VaOf, Sane;
    var k := SwapKey(m.roots[p], v);
    GrewNone(Key(p, v), m.tbl);
    if k !in m.swap {
      return false;
    }
    var sp := m.swap[k];
    InPool(ViewOf(m), p, v);
    VpnOfVa(v, 0);
    ghost var before, free := ViewOf(m), m.free;
    m.swap := m.swap - {k};
    var bytes := DecompressPage(sp.data, ToBytes(Zero()));
    assert OfBytes(bytes) == Restored(sp.data) by { RestoredIs(sp.data); }
    var oom;
    oom, ok := MapFresh(m, p, VaOf(v), OfBytes(bytes), sp.flags);
    if ok {
      m.swapPages, m.swapBytes := Wrap(m.swapPages - 1), Wrap(m.swapBytes - |sp.data|);
    }
    SaneIn(before, ViewOf(m), Key(p, v), Head(free), ok);
  }

  lemma RestoredIs(data: seq<Byte>)
    ensures Restored(data) == OfBytes(Overlay(Expand(data), ToBytes(Zero())))
  {
  }

  lemma InPool(a: View, p: Pid, v: Vpn)
    requires Sane(a) && InSwap(a, p, v)
    ensures VpnOk(v) && a.swap[SwapKey(a.roots[p], v)].flags.u && Key(p, v) !in a.leaf
  {
  }

  lemma SaneIn(a: View, b: View, key: Key, f: nat, ok: bool)
    requires Sane(a) && SwappedIn(a, b, key, f, ok)
    ensures Sane(b)
  {
  }

  // ---- nobody notices ----

  /** Eviction keeps the pool and the tables apart and the counters right, and every process reads every
      page as before. */
  lemma EvictionInvisible(a: View, b: View, key: Key)
    requires Sane(a) && Evicted(a, b, key)
    ensures Sane(b) && Same(a, b)
    ensures CountersOk(a.swap, a.count, a.bytes) ==> CountersOk(b.swap, b.count, b.bytes)
  {
    hide Restored, Wrap, TotalBytes, CountersOk, Sane, Same;
    SaneOut(a, b, key);
    SameOut(a, b, key);
    var k := SwapKey(a.roots[key.p], key.v);
    if CountersOk(a.swap, a.count, a.bytes) {
      NotInPool(a, key);
      CountersAdd(a.swap, a.count, a.bytes, k, b.swap[k]);
    }
  }

  lemma NotInPool(a: View, key: Key)
    requires Sane(a) && key in a.leaf
    ensures key.p in a.roots && SwapKey(a.roots[key.p], key.v) !in a.swap
  {
  }

  lemma SaneOut(a: View, b: View, key: Key)
    requires Sane(a) && Evicted(a, b, key)
    ensures Sane(b)
  {
    hide Restored, Wrap;
  }

  lemma SameOut(a: View, b: View, key: Key)
    requires Sane(a) && Evicted(a, b, key)
    ensures Same(a, b)
  {
    hide Restored, Wrap;
  }

  /** So does a swap-in that succeeds. */
  lemma SwapInInvisible(a: View, b: View, key: Key, f: nat)
    requires Sane(a) && SwappedIn(a, b, key, f, true)
    ensures Same(a, b)
    ensures CountersOk(a.swap, a.count, a.bytes) ==> CountersOk(b.swap, b.count, b.bytes)
  {
    hide Restored, Wrap, TotalBytes, CountersOk;
    if CountersOk(a.swap, a.count, a.bytes) {
      CountersSub(a.swap, a.count, a.bytes, SwapKey(a.roots[key.p], key.v));
    }
  }

  /** One that fails changes that page alone, which reads as zero from then on. */
  lemma SwapInLoses(a: View, b: View, key: Key, f: nat)
    requires Sane(a) && SwappedIn(a, b, key, f, false)
    ensures b.roots == a.roots
    ensures forall p, v :: p in a.roots ==> PageAt(b, p, v) == if Key(p, v) == key then Zero() else PageAt(a, p, v)
  {
    hide Restored;
  }

  /** Out and back in again: the same contents and flags at that page, and everything else untouched. */
  lemma EvictThenSwapIn(a: View, b: View, c: View, key: Key, f: nat)
    requires Sane(a) && CountersOk(a.swap, a.count, a.bytes)
    requires Evicted(a, b, key) && SwappedIn(b, c, key, f, true)
    ensures c == a.(leaf := a.leaf[key := Pte(f, a.leaf[key].flags)])
  {
    hide Restored, TotalBytes, Wrap, CountersOk;
    var k := SwapKey(a.roots[key.p], key.v);
    CountersAdd(a.swap, a.count, a.bytes, k, b.swap[k]);
    CountersSub(b.swap, b.count, b.bytes, k);
    Undo(a.swap, k, b.swap[k]);
    Redo(a.leaf, key, Pte(f, a.leaf[key].flags));
    Redo(a.pages, key, a.pages[key]);
    OneReading(a.swap, a.count, a.bytes, c.count, c.bytes);
  }

  // ---- exit ----

  /** Drops every entry of `root`, and takes their number and bytes off the counters. */
  method EvictAll(m: Machine, root: nat)
    modifies m`swap, m`swapPages, m`swapBytes
    ensures forall k :: k in m.swap <==> k in old(m.swap) && k.root != root
    ensures forall k :: k in m.swap ==> m.swap[k] == old(m.swap)[k]
    ensures CountersOk(old(m.swap), old(m.swapPages), old(m.swapBytes)) ==> CountersOk(m.swap, m.swapPages, m.swapBytes)
    ensures m.swap == old(m.swap) ==> m.swapPages == old(m.swapPages) && m.swapBytes == old(m.swapBytes)
  {
    hide TotalBytes, Wrap, CountersOk;
    WrapSmall(m.swapPages);
    WrapSmall(m.swapBytes);
    var pool := m.swap;
    var mine := set k | k in pool && k.root == root;
    var freed: nat, count: nat, left := 0, 0, mine;
    assert pool - (mine - left) == pool;
    while left != {}
      invariant left <= mine && count == |mine| - |left| && m.swapPages == old(m.swapPages)
      invariant m.swapBytes == old(m.swapBytes)
      invariant freed + TotalBytes(pool - (mine - left)) == TotalBytes(pool)
      decreases |left|
    {
      var k :| k in left;
      TotalWithout(pool - (mine - left), k);
      assert pool - (mine - left) - {k} == pool - (mine - (left - {k}));
      freed, count := freed + |pool[k].data|, count + 1;
      left := left - {k};
    }
    assert mine - left == mine;
    CountersDrop(pool, m.swapPages, m.swapBytes, mine, freed);
    m.swapPages, m.swapBytes := Wrap(m.swapPages - count), Wrap(m.swapBytes - freed);
    m.swap := map k | k in pool && k.root != root :: pool[k];
    assert m.swap == pool - mine;
    if m.swap == pool {
      assert mine == {};
      assert pool - mine == pool;
    }
  }
}
