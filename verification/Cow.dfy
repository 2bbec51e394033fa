/** Copy-on-write, src/mm/vmm.rs: the store fault that makes a private copy. */
module Cow {
  import opened Words
  import opened Sv39
  import opened Memory
  import opened MemorySteps
  import opened Machines
  import opened Pmm
  import opened Vmm

  // ---- the store fault ----

  function Private(f: nat, flags: Flags): Pte {
    Pte(f, flags.(cow := false, w := true))
  }

  /** A private copy is writable and no longer marked; nothing else about its flags changes. */
  ghost predicate MadePrivate(f: Flags, g: Flags) {
    && g.w && !g.cow && g.v == f.v && g.r == f.r && g.x == f.x && g.u == f.u
    && g.g == f.g && g.a == f.a && g.d == f.d && g.rsw == f.rsw
  }

  /** The entry of `key` moved to a held frame nobody maps; the old frame is held instead. */
  lemma Rebind(s: State, key: Key, f: nat) returns (t: State)
    requires Inv(s) && key in s.leaf && f in s.held && Refs(s.leaf, f) == {}
    ensures LowOf(key) in s.tbl && s.tbl[LowOf(key)] in s.ram && s.tbl[LowOf(key)] !in s.free
    ensures f in s.ram && f < MAX_PPN && key.v.k < 512 && f != s.leaf[key].ppn
    ensures Inv(t) && Mapped(s.ram, s.leaf) && Mapped(t.ram, t.leaf)
    ensures Resident(t.ram, t.leaf) == Resident(s.ram, s.leaf)[key := s.ram[f]]
    ensures t.kernel == s.kernel && t.counts == s.counts && t.free == s.free && t.tbl == s.tbl
    ensures var r := s.tbl[LowOf(key)]; t.ram == s.ram[r := s.ram[r][key.v.k := Encode(Private(f, s.leaf[key].flags))]]
    ensures t.leaf == s.leaf[key := Private(f, s.leaf[key].flags)]
    ensures t.held == s.held - multiset{f} + multiset{s.leaf[key].ppn}
  {
    hide PoolOk, FreeOk, TreeOk, EntriesOk, LeafOk, ShareOk, CountOk, Encode, Mapped, Resident, Refs, CanShare;
    LeafIn(s, key);
    TableIn(s, LowOf(key));
    OffList(s, s.tbl[LowOf(key)]);
    HeldIn(s, f);
    NotTable(s, f, LowOf(key));
    UnbindKeeps(s, key);
    var u, e := Unbind(s, key), Private(f, s.leaf[key].flags);
    AloneAfter(s.leaf, key, e);
    BindKeeps(u, key, e);
    SlotTwice(s.ram, s.tbl[LowOf(key)], key.v.k, Encode(e));
    t := Bind(u, key, e);
    MapTwice(Resident(s.ram, s.leaf), key, s.ram[f]);
  }

  lemma AloneAfter(leaf: map<Key, Pte>, key: Key, e: Pte)
    requires Refs(leaf, e.ppn) == {} && key in leaf
    ensures CanShare(leaf - {key}, key, e) && leaf[key].ppn != e.ppn
    ensures (leaf - {key})[key := e] == leaf[key := e]
  {
    assert key !in Refs(leaf, e.ppn);
    assert forall a :: a in Refs(leaf - {key}, e.ppn) ==> a in Refs(leaf, e.ppn);
  }

  lemma MapTwice(m: map<Key, Page>, key: Key, page: Page)
    ensures (m - {key})[key := page] == m[key := page]
  {
  }

  lemma NotTable(s: State, f: nat, n: Node)
    requires Inv(s) && f in s.held && n in s.tbl
    ensures f != s.tbl[n]
  {
  }

  lemma SlotTwice(ram: map<nat, Page>, r: nat, k: nat, w: Word)
    requires r in ram && k < 512
    ensures var ram1 := ram[r := ram[r][k := 0]]; ram1[r := ram1[r][k := w]] == ram[r := ram[r][k := w]]
  {
    assert ram[r][k := 0][k := w] == ram[r][k := w];
  }

  /** The page copied to a held frame nobody maps, and the entry moved to it. */
  lemma CopyRebind(s: State, key: Key, f: nat) returns (t: State)
    requires Inv(s) && key in s.leaf && f in s.held && Refs(s.leaf, f) == {}
    ensures LowOf(key) in s.tbl && s.tbl[LowOf(key)] in s.ram && s.tbl[LowOf(key)] !in s.free
    ensures f in s.ram && f < MAX_PPN && key.v.k < 512 && f != s.leaf[key].ppn && s.leaf[key].ppn in s.ram
    ensures f !in s.free
    ensures Inv(t) && SamePages(s, t)
    ensures t.kernel == s.kernel && t.counts == s.counts && t.free == s.free && t.tbl == s.tbl
    ensures var r, ram1 := s.tbl[LowOf(key)], s.ram[f := s.ram[s.leaf[key].ppn]];
      r in ram1 && t.ram == ram1[r := ram1[r][key.v.k := Encode(Private(f, s.leaf[key].flags))]]
    ensures t.leaf == s.leaf[key := Private(f, s.leaf[key].flags)]
    ensures t.held == s.held - multiset{f} + multiset{s.leaf[key].ppn}
  {
    hide PoolOk, FreeOk, TreeOk, EntriesOk, LeafOk, ShareOk, CountOk, Encode, Mapped, Resident, Refs;
    LeafIn(s, key);
    HeldIn(s, f);
    OffList(s, f);
    var page := s.ram[s.leaf[key].ppn];
    FillKeeps(s, f, page);
    var u := Fill(s, f, page);
    ResidentFill(s, f, page);
    t := Rebind(u, key, f);
    OffList(s, s.tbl[LowOf(key)]) by { TableIn(s, LowOf(key)); }
    NotTable(s, f, LowOf(key));
    ResidentSame(s, key, page);
  }

  lemma ResidentFill(s: State, f: nat, page: Page)
    requires Inv(s) && Refs(s.leaf, f) == {}
    ensures Mapped(s.ram, s.leaf) && Mapped(s.ram[f := page], s.leaf)
    ensures Resident(s.ram[f := page], s.leaf) == Resident(s.ram, s.leaf)
  {
    hide PoolOk, FreeOk, TreeOk, EntriesOk, LeafOk, ShareOk, CountOk;
    InvMapped(s);
    ResidentFrame(s.ram, s.leaf, f, page);
  }

  lemma ResidentSame(s: State, key: Key, page: Page)
    requires Mapped(s.ram, s.leaf) && key in s.leaf && s.ram[s.leaf[key].ppn] == page
    ensures Resident(s.ram, s.leaf)[key := page] == Resident(s.ram, s.leaf)
  {
  }

  /** A store to a copy-on-write page gets a private writable copy; every address space reads what it
      read before. It fails exactly when the page is not marked or memory is out. */
  method HandleStorePageFault(m: Machine, p: Pid, va: nat) returns (ok: bool)
    requires m.Valid() && p in m.roots && VpnOk(VpnOf(va))
    modifies m`ram, m`head, m`counts, m`free, m`owner, m`tbl, m`leaf, m`held
    ensures m.Valid() && m.tbl == old(m.tbl) && m.held == old(m.held) && m.Pages() == old(m.Pages())
    ensures var key := Key(p, VpnOf(va));
      && (ok <==> key in old(m.leaf) && old(m.leaf)[key].flags.cow && old(m.free) != [])
      && m.leaf == (if ok then old(m.leaf)[key := Private(old(m.free)[0], old(m.leaf)[key].flags)] else old(m.leaf))
      && (ok ==> Released(old(m.leaf), old(m.held), old(m.free)[1..], m.free, key))
      && (!ok ==> m.free == old(m.free))
      && (ok ==> m.leaf[key].ppn == old(m.free)[0] && MadePrivate(old(m.leaf)[key].flags, m.leaf[key].flags))
  {
    hide Inv, Linked, Resident, Refs, Encode, Decode;
    var v := VpnOf(va);
    ghost var key := Key(p, v);
    var pt := FindLow(m, p, v);
    if pt.None? {
      return false;
    }
    LeafReads(m.St(), key);
    var e := Decode(m.ram[pt.value][v.k]);
    if !e.flags.v || !e.flags.cow {
      return false;
    }
    var f := TakeFrame(m);
    if f.None? {
      return false;
    }
    MovedOff(m.leaf, key, Private(f.value, e.flags));
    CopyPage(m, key, pt.value, v.k, e, f.value);
    DropFrame(m, e.ppn);
    return true;
  }

  lemma MovedOff(leaf: map<Key, Pte>, key: Key, e: Pte)
    requires key in leaf && Refs(leaf, e.ppn) == {}
    ensures Refs(leaf, leaf[key].ppn) == {key} ==> Refs(leaf[key := e], leaf[key].ppn) == {}
  {
    var f := leaf[key].ppn;
    assert key !in Refs(leaf, e.ppn);
    assert Refs(leaf[key := e], f) == Refs(leaf, f) - {key};
  }

  method CopyPage(m: Machine, ghost key: Key, pt: nat, k: nat, e: Pte, f: nat)
    requires m.Valid() && key in m.leaf && m.leaf[key] == e && f in m.held && Refs(m.leaf, f) == {}
    requires LowOf(key) in m.tbl && pt == m.tbl[LowOf(key)] && k == key.v.k
    modifies m`ram, m`owner, m`tbl, m`leaf, m`held
    ensures m.Valid() && m.tbl == old(m.tbl) && m.Pages() == old(m.Pages())
    ensures m.leaf == old(m.leaf)[key := Private(f, e.flags)] && m.held == old(m.held) - multiset{f} + multiset{e.ppn}
  {
    hide Inv, Linked, Resident, Refs, Encode;
    ghost var t := CopyRebind(m.St(), key, f);
    LinkedFrame(m.ram, m.free, f, m.ram[e.ppn]);
    m.ram := m.ram[f := m.ram[e.ppn]];
    LinkedFrame(m.ram, m.free, pt, m.ram[pt][k := Encode(Private(f, e.flags))]);
    m.ram := m.ram[pt := m.ram[pt][k := Encode(Private(f, e.flags))]];
    m.Settle(t);
  }
}
