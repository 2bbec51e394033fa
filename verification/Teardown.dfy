/** `destroy_level` and `destroy_user_space`, src/mm/vmm.rs: giving pages and tables back. */
module Teardown {
  import opened Words
  import opened Sv39
  import opened Memory
  import opened MemorySteps
  import opened Machines
  import opened Pmm
  import opened Vmm
  import opened Fork

  // ---- one leaf, one table ----

  /** The allocator's own conditions for taking a frame back. */
  ghost predicate Droppable(s: State, f: nat) {
    && f in s.counts && s.counts[f] > 0 && f in s.ram && 0 < f < MAX_PPN && f !in s.free && Head(s.free) < MAX_PPN
  }

  /** `decr_ref_and_maybe_free`, then the entry cleared. */
  lemma UnbindDrop(s: State, key: Key) returns (t: State)
    requires Inv(s) && key in s.leaf
    ensures LowOf(key) in s.tbl && s.tbl[LowOf(key)] in s.ram && s.tbl[LowOf(key)] !in s.free && key.v.k < 512
    ensures Droppable(s, s.leaf[key].ppn) && s.leaf[key].ppn != s.tbl[LowOf(key)]
    ensures Inv(t) && Mapped(s.ram, s.leaf) && Mapped(t.ram, t.leaf)
    ensures Resident(t.ram, t.leaf) == Resident(s.ram, s.leaf) - {key}
    ensures t.kernel == s.kernel && t.tbl == s.tbl && t.held == s.held && t.leaf == s.leaf - {key}
    ensures t.counts == DecrCounts(s.counts, s.leaf[key].ppn) && t.free == DecrFree(s.counts, s.free, s.leaf[key].ppn)
    ensures t.ram == Poked(DecrRam(s.ram, s.counts, s.free, s.leaf[key].ppn), s.tbl[LowOf(key)], key.v.k, 0)
    ensures BootKept(s.owner, t.owner)
  {
    hide PoolOk, FreeOk, TreeOk, EntriesOk, LeafOk, ShareOk, CountOk, Encode, Mapped, Resident, Refs, FreedPage;
    LeafIn(s, key);
    TableIn(s, LowOf(key));
    OffList(s, s.tbl[LowOf(key)]);
    OffList(s, s.leaf[key].ppn);
    UnbindKeeps(s, key);
    var u, f := Unbind(s, key), s.leaf[key].ppn;
    HeldIn(u, f);
    DropKeeps(u, f);
    t := Drop(u, f);
    assert t.held == s.held;
  }

  /** One page of a process given up. */
  method ClearLeaf(m: Machine, ghost key: Key, pt: nat, k: nat, f: nat)
    requires m.Valid() && key in m.leaf && m.leaf[key].ppn == f
    requires LowOf(key) in m.tbl && pt == m.tbl[LowOf(key)] && k == key.v.k
    modifies m`ram, m`head, m`counts, m`free, m`owner, m`tbl, m`leaf, m`held
    ensures m.Valid() && m.tbl == old(m.tbl) && m.held == old(m.held) && m.leaf == old(m.leaf) - {key}
    ensures m.Pages() == old(m.Pages()) - {key} && BootKept(old(m.owner), m.owner)
  {
    hide Inv, Linked, Resident, FreedPage, BootKept;
    ghost var t := UnbindDrop(m.St(), key);
    DecrRefAndMaybeFree(m, f);
    LinkedFrame(m.ram, m.free, pt, m.ram[pt][k := 0]);
    m.ram := m.ram[pt := m.ram[pt][k := 0]];
    m.Settle(t);
  }

  lemma UnlinkFree(s: State, n: Node) returns (t: State)
    requires Inv(s) && n in s.tbl && !n.Root? && NoChild(s.tbl, n) && NoLeafBelow(s.leaf, n)
    ensures Parent(n) in s.tbl && s.tbl[Parent(n)] in s.ram && s.tbl[Parent(n)] !in s.free && NodeOk(n)
    ensures Droppable(s, s.tbl[n]) && s.tbl[n] != s.tbl[Parent(n)]
    ensures Inv(t) && SamePages(s, t)
    ensures t.kernel == s.kernel && t.tbl == s.tbl - {n} && t.held == s.held && t.leaf == s.leaf
    ensures t.counts == s.counts[s.tbl[n] := 0] && t.free == [s.tbl[n]] + s.free
    ensures t.ram == Poked(Freed(s.ram, s.free, s.tbl[n]), s.tbl[Parent(n)], Index(n), 0)
    ensures BootKept(s.owner, t.owner)
  {
    hide PoolOk, FreeOk, TreeOk, EntriesOk, LeafOk, ShareOk, CountOk, Encode, Mapped, Resident, Refs, FreedPage,
      NoChild, NoLeafBelow;
    TableIn(s, n);
    TableIn(s, Parent(n));
    OffList(s, s.tbl[n]);
    OffList(s, s.tbl[Parent(n)]);
    TableCount(s, n);
    PoolKeys(s);
    UnlinkKeeps(s, n);
    t := Unlink(s, n);
  }

  lemma TableCount(s: State, n: Node)
    requires Inv(s) && n in s.tbl
    ensures s.tbl[n] in s.counts && s.counts[s.tbl[n]] == 1
  {
  }

  /** One empty table given up: `free_page`, then the parent's entry cleared. */
  method DropTable(m: Machine, ghost n: Node, pt: nat, idx: nat, f: nat)
    requires m.Valid() && n in m.tbl && !n.Root? && m.tbl[n] == f && NoChild(m.tbl, n) && NoLeafBelow(m.leaf, n)
    requires Parent(n) in m.tbl && pt == m.tbl[Parent(n)] && idx == Index(n)
    modifies m`ram, m`head, m`counts, m`free, m`owner, m`tbl, m`leaf, m`held
    ensures m.Valid() && m.tbl == old(m.tbl) - {n} && m.held == old(m.held) && m.leaf == old(m.leaf)
    ensures m.Pages() == old(m.Pages()) && BootKept(old(m.owner), m.owner)
  {
    hide Inv, Linked, Resident, FreedPage, NoChild, NoLeafBelow, BootKept;
    ghost var t := UnlinkFree(m.St(), n);
    FreePage(m, f);
    LinkedFrame(m.ram, m.free, pt, m.ram[pt][idx := 0]);
    m.ram := m.ram[pt := m.ram[pt][idx := 0]];
    m.Settle(t);
  }

  // ---- what a part-way teardown has removed ----

  /** The pages and tables of process `n.p` under `n` below index `c` are gone; nothing else is. */
  ghost predicate Emptied(l0: map<Key, Pte>, l1: map<Key, Pte>, t0: map<Node, nat>, t1: map<Node, nat>, n: Node,
                          c: nat) {
    && (forall key: Key :: Lookup(l1, key) == if key.p == n.p && Done(n, c, key.v) then None else Lookup(l0, key))
    && (forall t :: t in t1 <==> t in t0 && !TableDone(n, c, t))
    && (forall t :: t in t1 ==> t1[t] == t0[t])
  }

  /** The same for index `idx` alone. */
  ghost predicate EmptiedAt(l0: map<Key, Pte>, l1: map<Key, Pte>, t0: map<Node, nat>, t1: map<Node, nat>, n: Node,
                            idx: nat) {
    && (forall key: Key :: Lookup(l1, key) == if key.p == n.p && At(n, idx, key.v) then None else Lookup(l0, key))
    && (forall t :: t in t1 <==> t in t0 && !Within(t, n, idx))
    && (forall t :: t in t1 ==> t1[t] == t0[t])
  }

  lemma EmptiedGrow(l0: map<Key, Pte>, l1: map<Key, Pte>, l2: map<Key, Pte>,
                    t0: map<Node, nat>, t1: map<Node, nat>, t2: map<Node, nat>, n: Node, c: nat)
    requires Emptied(l0, l1, t0, t1, n, c) && EmptiedAt(l1, l2, t1, t2, n, c)
    ensures Emptied(l0, l2, t0, t2, n, c + 1)
  {
    assert forall t :: TableDone(n, c + 1, t) <==> TableDone(n, c, t) || Within(t, n, c);
  }

  lemma EmptiedNothing(l: map<Key, Pte>, t: map<Node, nat>, n: Node)
    ensures Emptied(l, l, t, t, n, 0)
  {
  }

  lemma EmptiedSkip(l: map<Key, Pte>, t: map<Node, nat>, n: Node, idx: nat)
    requires forall v :: VpnOk(v) && At(n, idx, v) ==> Key(n.p, v) !in l
    requires forall key :: key in l ==> VpnOk(key.v)
    requires forall c :: c in t ==> !Within(c, n, idx)
    ensures EmptiedAt(l, l, t, t, n, idx)
  {
  }

  lemma EmptiedLeaf(l: map<Key, Pte>, t: map<Node, nat>, n: Node, idx: nat)
    requires n.Low?
    ensures EmptiedAt(l, l - {Slot(n, idx)}, t, t, n, idx)
  {
  }

  /** A subtree emptied, then its table dropped. */
  lemma EmptiedTree(l0: map<Key, Pte>, l1: map<Key, Pte>, t0: map<Node, nat>, t1: map<Node, nat>, n: Node, idx: nat)
    requires !n.Low? && Emptied(l0, l1, t0, t1, Child(n, idx), 512)
    requires forall key :: key in l0 ==> VpnOk(key.v)
    requires forall t :: t in t0 ==> NodeOk(t)
    ensures EmptiedAt(l0, l1, t0, t1 - {Child(n, idx)}, n, idx)
    ensures NoChild(t1, Child(n, idx)) && NoLeafBelow(l1, Child(n, idx))
  {
    var c := Child(n, idx);
    forall key: Key | VpnOk(key.v) ensures At(n, idx, key.v) <==> Done(c, 512, key.v) {
    }
    forall t: Node | NodeOk(t) ensures Within(t, n, idx) <==> t == c || TableDone(c, 512, t) {
    }
    forall key: Key | key in l1 ensures LowOf(key) != c {
      assert Lookup(l1, key) != None;
      assert Lookup(l0, key) != None;
    }
  }

  /** Pages that remain are as they were. */
  ghost predicate SubPages(before: map<Key, Page>, after: map<Key, Page>) {
    forall key :: key in after ==> key in before && after[key] == before[key]
  }

  lemma ReadableLess(l0: map<Key, Pte>, l1: map<Key, Pte>, t0: map<Node, nat>, t1: map<Node, nat>, n: Node, idx: nat)
    requires Readable(l0, n.p) && EmptiedAt(l0, l1, t0, t1, n, idx)
    ensures Readable(l1, n.p)
    ensures n in t0 ==> n in t1 && t1[n] == t0[n]
  {
    forall key | key in l1 && key.p == n.p ensures l1[key].flags.r || l1[key].flags.x {
      assert Lookup(l1, key) == Lookup(l0, key);
    }
  }

  // ---- the walk ----

  /** One entry of a table: nothing, a page, or a subtree. */
  method DestroyEntry(m: Machine, ghost n: Node, pt: nat, level: nat, idx: nat)
    requires m.Valid() && n in m.tbl && m.tbl[n] == pt && level == Level(n) && InTable(n, idx) && Readable(m.leaf, n.p)
    modifies m`ram, m`head, m`counts, m`free, m`owner, m`tbl, m`leaf, m`held
    ensures m.Valid() && m.held == old(m.held)
    ensures EmptiedAt(old(m.leaf), m.leaf, old(m.tbl), m.tbl, n, idx)
    ensures SubPages(old(m.Pages()), m.Pages()) && BootKept(old(m.owner), m.owner)
    decreases level, 0
  {
    hide Inv, Linked, Decode, Readable, EmptiedAt, Emptied, Resident, NoChild, NoLeafBelow, At, Under, Within;
    EntryReads(m.St(), n, idx);
    LeafLooksLikeOne(m.St(), n, idx, n.p);
    KeysOk(m.St());
    NodesOk(m.St());
    var entry := m.ram[pt][idx];
    if entry == 0 {
      NothingAt(m.St(), n, idx);
      NoTablesWithin(m.St(), n, idx);
      EmptiedSkip(m.leaf, m.tbl, n, idx);
      return;
    }
    var e := Decode(entry);
    if e.flags.r || e.flags.x {
      ClearLeaf(m, Slot(n, idx), pt, idx, e.ppn);
      EmptiedLeaf(old(m.leaf), old(m.tbl), n, idx);
    } else {
      assert level > 0;
      DestroyLevel(m, Child(n, idx), e.ppn, level - 1);
      EmptiedTree(old(m.leaf), m.leaf, old(m.tbl), m.tbl, n, idx);
      EmptiedKeeps(old(m.leaf), m.leaf, old(m.tbl), m.tbl, n, idx);
      DropTable(m, Child(n, idx), pt, idx, e.ppn);
    }
  }

  /** Emptying a subtree leaves its own table and the one above it. */
  lemma EmptiedKeeps(l0: map<Key, Pte>, l1: map<Key, Pte>, t0: map<Node, nat>, t1: map<Node, nat>, n: Node, idx: nat)
    requires !n.Low? && Emptied(l0, l1, t0, t1, Child(n, idx), 512) && n in t0 && Child(n, idx) in t0
    ensures n in t1 && t1[n] == t0[n] && Child(n, idx) in t1 && t1[Child(n, idx)] == t0[Child(n, idx)]
  {
  }

  /** All entries of a table. */
  method DestroyLevel(m: Machine, ghost n: Node, pt: nat, level: nat)
    requires m.Valid() && n in m.tbl && m.tbl[n] == pt && level == Level(n) && !n.Root? && Readable(m.leaf, n.p)
    modifies m`ram, m`head, m`counts, m`free, m`owner, m`tbl, m`leaf, m`held
    ensures m.Valid() && m.held == old(m.held)
    ensures Emptied(old(m.leaf), m.leaf, old(m.tbl), m.tbl, n, 512)
    ensures SubPages(old(m.Pages()), m.Pages()) && BootKept(old(m.owner), m.owner)
    decreases level, 1
  {
    hide Inv, Linked, Readable, EmptiedAt, Emptied, Resident;
    EmptiedNothing(m.leaf, m.tbl, n);
    BootStays(m.owner);
    var idx := 0;
    while idx < 512
      invariant 0 <= idx <= 512 && m.Valid() && m.held == old(m.held)
      invariant n in m.tbl && m.tbl[n] == pt && Readable(m.leaf, n.p)
      invariant Emptied(old(m.leaf), m.leaf, old(m.tbl), m.tbl, n, idx)
      invariant SubPages(old(m.Pages()), m.Pages()) && BootKept(old(m.owner), m.owner)
    {
      ghost var s := m.St();
      DestroyEntry(m, n, pt, level, idx);
      EmptiedGrow(old(m.leaf), s.leaf, m.leaf, old(m.tbl), s.tbl, m.tbl, n, idx);
      ReadableLess(s.leaf, m.leaf, s.tbl, m.tbl, n, idx);
      idx := idx + 1;
    }
  }

  // ---- the whole address space ----

  /** Nothing of process `p` is left, and everything of the others is. */
  ghost predicate Gone(l0: map<Key, Pte>, l1: map<Key, Pte>, t0: map<Node, nat>, t1: map<Node, nat>, p: Pid) {
    && (forall key: Key :: Lookup(l1, key) == if key.p == p then None else Lookup(l0, key))
    && (forall t :: t in t1 <==> t in t0 && t.p != p)
    && (forall t :: t in t1 ==> t1[t] == t0[t])
  }

  lemma RootEmptied(s: State, l0: map<Key, Pte>, t0: map<Node, nat>, p: Pid)
    requires Inv(s) && Root(p) in s.tbl && Emptied(l0, s.leaf, t0, s.tbl, Root(p), 512)
    ensures NoChild(s.tbl, Root(p)) && Gone(l0, s.leaf, t0, s.tbl - {Root(p)}, p)
  {
    hide PoolOk, FreeOk, TreeOk, EntriesOk, LeafOk, ShareOk, CountOk;
    KeysOk(s);
    NodesOk(s);
    forall t | t in s.tbl && t.p == p ensures t == Root(p) {
      assert !TableDone(Root(p), 512, t);
    }
  }

  lemma UprootFree(s: State, p: Pid) returns (t: State)
    requires Inv(s) && Root(p) in s.tbl && NoChild(s.tbl, Root(p))
    ensures Droppable(s, s.tbl[Root(p)])
    ensures Inv(t) && SamePages(s, t)
    ensures t.kernel == s.kernel && t.tbl == s.tbl - {Root(p)} && t.held == s.held && t.leaf == s.leaf
    ensures t.counts == s.counts[s.tbl[Root(p)] := 0] && t.free == [s.tbl[Root(p)]] + s.free
    ensures t.ram == Freed(s.ram, s.free, s.tbl[Root(p)]) && BootKept(s.owner, t.owner)
  {
    hide PoolOk, FreeOk, TreeOk, EntriesOk, LeafOk, ShareOk, CountOk, Encode, Mapped, Resident, Refs, FreedPage,
      NoChild;
    TableIn(s, Root(p));
    TableCount(s, Root(p));
    OffList(s, s.tbl[Root(p)]);
    PoolKeys(s);
    UprootKeeps(s, p);
    t := Uproot(s, p);
  }

  /** Every page, table and the root of a process go back; the kernel's entries are never followed. */
  method DestroyUserSpace(m: Machine, p: Pid)
    requires m.Valid() && p in m.roots && Readable(m.leaf, p)
    modifies m`ram, m`head, m`counts, m`free, m`owner, m`tbl, m`leaf, m`held, m`roots
    ensures m.Valid() && m.held == old(m.held) && m.roots == old(m.roots) - {p}
    ensures Gone(old(m.leaf), m.leaf, old(m.tbl), m.tbl, p)
    ensures SubPages(old(m.Pages()), m.Pages()) && BootKept(old(m.owner), m.owner)
    ensures m.free != [] && m.free[0] == old(m.roots)[p]
  {
    hide Inv, Linked, Readable, EmptiedAt, Emptied, Resident, FreedPage, NoChild, Gone;
    ghost var n := Root(p);
    var root, i := m.roots[p], 0;
    EmptiedFour(m.St(), p);
    BootStays(m.owner);
    while i < 512
      invariant 0 <= i <= 512 && m.Valid() && m.held == old(m.held)
      invariant n in m.tbl && m.tbl[n] == root && Readable(m.leaf, p) && m.roots == old(m.roots)
      invariant Emptied(old(m.leaf), m.leaf, old(m.tbl), m.tbl, n, if i < 4 then 4 else i)
      invariant SubPages(old(m.Pages()), m.Pages()) && BootKept(old(m.owner), m.owner)
    {
      if i >= 4 {
        ghost var s := m.St();
        DestroyEntry(m, n, root, 2, i);
        EmptiedGrow(old(m.leaf), s.leaf, m.leaf, old(m.tbl), s.tbl, m.tbl, n, i);
        ReadableLess(s.leaf, m.leaf, s.tbl, m.tbl, n, i);
      }
      i := i + 1;
    }
    RootEmptied(m.St(), old(m.leaf), old(m.tbl), p);
    ghost var t := UprootFree(m.St(), p);
    FreePage(m, root);
    m.Settle(t);
    m.roots := m.roots - {p};
  }

  /** No user page or table lies under the kernel's four slots. */
  lemma EmptiedFour(s: State, p: Pid)
    requires Inv(s)
    ensures Emptied(s.leaf, s.leaf, s.tbl, s.tbl, Root(p), 4)
  {
    hide PoolOk, FreeOk, TreeOk, EntriesOk, LeafOk, ShareOk, CountOk;
    KeysOk(s);
    NodesOk(s);
  }
}
