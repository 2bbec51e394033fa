/** Page tables, src/mm/vmm.rs. The three-level tree of a process refines a partial map from page to
    (frame, flags): the ghost field `leaf` restricted to that process. */
module Vmm {
  import opened Words
  import opened Sv39
  import opened Memory
  import opened MemorySteps
  import opened Machines
  import opened Pmm

  function NodeAt(p: Pid, v: Vpn, level: nat): Node {
    if level >= 2 then Root(p) else if level == 1 then Mid(p, v.i) else Low(p, v.i, v.j)
  }

  function IndexAt(v: Vpn, level: nat): nat {
    if level >= 2 then v.i else if level == 1 then v.j else v.k
  }

  /** What an entry of a table decodes to. */
  lemma EntryReads(s: State, n: Node, idx: nat)
    requires Inv(s) && n in s.tbl && InTable(n, idx)
    ensures s.tbl[n] in s.ram
    ensures var w := s.ram[s.tbl[n]][idx];
      if n.Low? then
        if Slot(n, idx) in s.leaf then w != 0 && Decode(w) == s.leaf[Slot(n, idx)]
        else w == 0 && Decode(w) == Pte(0, NO_FLAGS)
      else
        if Child(n, idx) in s.tbl then w != 0 && Decode(w) == Pte(s.tbl[Child(n, idx)], V_ONLY)
        else w == 0 && Decode(w) == Pte(0, NO_FLAGS)
  {
    hide Decode, Encode;
    var w := s.ram[s.tbl[n]][idx];
    DecodeZero();
    if n.Low? {
      if Slot(n, idx) in s.leaf {
        LeafIn(s, Slot(n, idx));
        DecodeEncode(s.leaf[Slot(n, idx)]);
      }
    } else if Child(n, idx) in s.tbl {
      TableIn(s, Child(n, idx));
      DecodeEncode(Pte(s.tbl[Child(n, idx)], V_ONLY));
    }
  }

  // ---- translation ----

  /** The address translation of section 4.3.2 of the Privileged Architecture manual, for 4 KB pages. */
  function Walk(ram: map<nat, Page>, root: nat, v: Vpn): Option<Pte>
    requires VpnOk(v)
  {
    if root !in ram then None else
      var e2 := Decode(ram[root][v.i]);
      if !e2.flags.v || e2.flags.r || e2.flags.x || e2.ppn !in ram then None else
        var e1 := Decode(ram[e2.ppn][v.j]);
        if !e1.flags.v || e1.flags.r || e1.flags.x || e1.ppn !in ram then None else
          var e0 := Decode(ram[e1.ppn][v.k]);
          if e0.flags.v then Some(e0) else None
  }

  function Lookup(leaf: map<Key, Pte>, key: Key): Option<Pte> {
    if key in leaf then Some(leaf[key]) else None
  }

  /** The tables in memory refine the map `leaf`. */
  lemma WalkIsLookup(s: State, p: Pid, v: Vpn)
    requires Inv(s) && Root(p) in s.tbl && VpnOk(v)
    ensures Walk(s.ram, s.tbl[Root(p)], v) == Lookup(s.leaf, Key(p, v))
  {
    hide PoolOk, FreeOk, TreeOk, EntriesOk, LeafOk, ShareOk, CountOk, Refs, Decode, Encode;
    EntryReads(s, Root(p), v.i);
    if Key(p, v) in s.leaf {
      LeafIn(s, Key(p, v));
      TableIn(s, Low(p, v.i, v.j));
    }
    if Mid(p, v.i) in s.tbl {
      TableIn(s, Mid(p, v.i));
      EntryReads(s, Mid(p, v.i), v.j);
      if Low(p, v.i, v.j) in s.tbl {
        TableIn(s, Low(p, v.i, v.j));
        EntryReads(s, Low(p, v.i, v.j), v.k);
        assert Slot(Low(p, v.i, v.j), v.k) == Key(p, v);
      }
    }
  }

  /** The walk from the root to the level-0 table for `v`, which every reader of the tables does. */
  method FindLow(m: Machine, p: Pid, v: Vpn) returns (r: Option<nat>)
    requires m.Valid() && p in m.roots && VpnOk(v)
    ensures r == if Low(p, v.i, v.j) in m.tbl then Some(m.tbl[Low(p, v.i, v.j)]) else None
    ensures r.None? ==> Key(p, v) !in m.leaf
  {
    hide Inv, Linked, Decode, Encode;
    var pt, level := m.roots[p], 2;
    while level >= 1
      invariant 0 <= level <= 2
      invariant NodeAt(p, v, level) in m.tbl && pt == m.tbl[NodeAt(p, v, level)]
    {
      EntryReads(m.St(), NodeAt(p, v, level), IndexAt(v, level));
      var e := Decode(m.ram[pt][IndexAt(v, level)]);
      if !e.flags.v {
        NotBelow(m.St(), p, v, level);
        return None;
      }
      assert !e.flags.r && !e.flags.x;
      pt := e.ppn;
      level := level - 1;
    }
    return Some(pt);
  }

  /** What the hardware finds for a mapped address, word by word: bits 30 to 38 index the root, bits 21 to 29 the
      table it points to, bits 12 to 20 the next; each pointer is valid and no leaf, and the last word is the leaf. */
  ghost predicate WordsLead(ram: map<nat, Page>, root: nat, va: nat, e: Pte) {
    && root in ram
    && var w2 := ram[root][va / 0x4000_0000 % 512];
    && w2 % 2 == 1 && w2 / 2 % 2 == 0 && w2 / 8 % 2 == 0 && w2 / 1024 in ram
    && var w1 := ram[w2 / 1024][va / 0x20_0000 % 512];
    && w1 % 2 == 1 && w1 / 2 % 2 == 0 && w1 / 8 % 2 == 0 && w1 / 1024 in ram
    && var w0 := ram[w1 / 1024][va / 0x1000 % 512];
    && w0 / 1024 == e.ppn && BitsAre(w0 % 1024, e.flags)
  }

  lemma LowBits(high: nat, low: nat)
    ensures var w := 1024 * high + low; w % 2 == low % 2 && w / 2 % 2 == low / 2 % 2 && w / 8 % 2 == low / 8 % 2
  {
    LowHalf(low, 512 * high);
    LowHalf(low / 2, 256 * high);
    LowHalf(low / 8, 64 * high);
    assert (1024 * high + low) / 2 == low / 2 + 512 * high;
    assert (1024 * high + low) / 8 == low / 8 + 128 * high;
  }

  lemma PointerWord(w: Word)
    ensures Decode(w).ppn == w / 1024 && BitsAre(w % 1024, Decode(w).flags)
    ensures (w % 2 == 1 <==> Decode(w).flags.v) && (w / 2 % 2 == 1 <==> Decode(w).flags.r)
    ensures w / 8 % 2 == 1 <==> Decode(w).flags.x
  {
    hide BitsFlags;
    FlagsBits(w % 1024);
    LowBits(w / 1024, w % 1024);
  }

  lemma HardwareFinds(s: State, p: Pid, va: nat)
    requires Inv(s) && Root(p) in s.tbl && UserVa(va) && Key(p, VpnOf(va)) in s.leaf
    ensures WordsLead(s.ram, s.tbl[Root(p)], va, s.leaf[Key(p, VpnOf(va))])
  {
    hide Inv, Decode, BitsAre;
    VaSplit(va);
    var v, root := VpnOf(va), s.tbl[Root(p)];
    WalkIsLookup(s, p, v);
    var w2 := s.ram[root][v.i];
    PointerWord(w2);
    var w1 := s.ram[w2 / 1024][v.j];
    PointerWord(w1);
    PointerWord(s.ram[w1 / 1024][v.k]);
  }

  /** The physical address and flags a user address maps to. */
  method WalkPageTable(m: Machine, p: Pid, va: nat) returns (r: Option<(nat, Flags)>)
    requires m.Valid() && p in m.roots && VpnOk(VpnOf(va))
    ensures r == match Lookup(m.leaf, Key(p, VpnOf(va)))
                 case None => None
                 case Some(e) => Some((e.ppn * 4096 + va % 4096, e.flags))
  {
    hide Inv, Linked, Decode, Encode;
    var v := VpnOf(va);
    var pt := FindLow(m, p, v);
    if pt.None? {
      return None;
    }
    LeafReads(m.St(), Key(p, v));
    var e := Decode(m.ram[pt.value][v.k]);
    if !e.flags.v {
      return None;
    }
    return Some((e.ppn * 4096 + va % 4096, e.flags));
  }

  /** The slot of `key` in its level-0 table. */
  lemma LeafReads(s: State, key: Key)
    requires Inv(s) && LowOf(key) in s.tbl && key.v.k < 512
    ensures s.tbl[LowOf(key)] in s.ram
    ensures var e := Decode(s.ram[s.tbl[LowOf(key)]][key.v.k]);
            if key in s.leaf then e == s.leaf[key] && e.flags.v && e.flags.u && 0 < e.ppn < MAX_PPN && e.ppn in s.ram
            else !e.flags.v
    ensures s.ram[s.tbl[LowOf(key)]][key.v.k] == 0 <==> key !in s.leaf
  {
    hide PoolOk, FreeOk, TreeOk, EntriesOk, LeafOk, ShareOk, CountOk, Refs, Decode;
    assert Slot(LowOf(key), key.v.k) == key;
    EntryReads(s, LowOf(key), key.v.k);
    if key in s.leaf {
      LeafIn(s, key);
    }
  }

  /** With no table on the way down, the page is not mapped. */
  lemma NotBelow(s: State, p: Pid, v: Vpn, level: nat)
    requires Inv(s) && 1 <= level <= 2 && NodeAt(p, v, level - 1) !in s.tbl
    ensures Key(p, v) !in s.leaf && Low(p, v.i, v.j) !in s.tbl
  {
    hide PoolOk, FreeOk, TreeOk, EntriesOk, LeafOk, ShareOk, CountOk, Refs;
    if Low(p, v.i, v.j) in s.tbl {
      TableIn(s, Low(p, v.i, v.j));
    }
    if Key(p, v) in s.leaf {
      LeafIn(s, Key(p, v));
    }
  }

  // ---- building tables ----

  /** The same frames stay out of the allocator's hands. */
  ghost predicate BootKept(owner: map<nat, Owner>, owner': map<nat, Owner>) {
    && owner'.Keys == owner.Keys
    && forall f :: f in owner ==> (owner[f] == Reserved <==> owner'[f] == Reserved)
  }

  /** User data stays where it is. */
  ghost predicate DataKept(owner: map<nat, Owner>, ram: map<nat, Page>, owner': map<nat, Owner>, ram': map<nat, Page>) {
    && BootKept(owner, owner')
    && forall f :: f in owner && owner[f] == Data ==>
      f in owner' && owner'[f] == Data && f in ram && f in ram' && ram'[f] == ram[f]
  }

  /** A fresh table below `pt` at `idx`. */
  method AddTable(m: Machine, ghost n: Node, pt: nat, idx: nat) returns (r: Option<nat>)
    requires m.Valid() && n in m.tbl && m.tbl[n] == pt && !n.Low? && InTable(n, idx) && Child(n, idx) !in m.tbl
    modifies m`ram, m`head, m`counts, m`free, m`owner, m`tbl, m`leaf, m`held
    ensures m.Valid() && m.leaf == old(m.leaf) && m.held == old(m.held) && m.Pages() == old(m.Pages())
    ensures DataKept(old(m.owner), old(m.ram), m.owner, m.ram)
    ensures r.None? <==> old(m.free) == []
    ensures r.None? ==> m.tbl == old(m.tbl) && m.free == old(m.free)
    ensures r.Some? ==> m.tbl == old(m.tbl)[Child(n, idx) := r.value] && m.free == old(m.free)[1..]
  {
    hide Inv, Linked, Encode, Resident, DataKept;
    ghost var s := m.St();
    TableIn(s, n);
    DataStays(s);
    var f := AllocFrame(m);
    if f.None? {
      return None;
    }
    ghost var t := LinkFresh(s, Child(n, idx));
    LinkedFrame(m.ram, m.free, pt, m.ram[pt][idx := Encode(Pte(f.value, V_ONLY))]);
    m.ram := m.ram[pt := m.ram[pt][idx := Encode(Pte(f.value, V_ONLY))]];
    m.Settle(t);
    return f;
  }

  /** The table below `pt` at `idx`, allocated if there is none. */
  method Descend(m: Machine, ghost n: Node, pt: nat, idx: nat) returns (r: Option<nat>)
    requires m.Valid() && n in m.tbl && m.tbl[n] == pt && !n.Low? && InTable(n, idx)
    modifies m`ram, m`head, m`counts, m`free, m`owner, m`tbl, m`leaf, m`held
    ensures m.Valid() && m.leaf == old(m.leaf) && m.held == old(m.held) && m.Pages() == old(m.Pages())
    ensures DataKept(old(m.owner), old(m.ram), m.owner, m.ram)
    ensures r.None? <==> Child(n, idx) !in old(m.tbl) && old(m.free) == []
    ensures r.None? ==> m.tbl == old(m.tbl)
    ensures r.Some? ==> m.tbl == old(m.tbl)[Child(n, idx) := r.value]
    ensures Child(n, idx) in old(m.tbl) ==> m.tbl == old(m.tbl)
    ensures m.free == if r.None? || Child(n, idx) in old(m.tbl) then old(m.free) else old(m.free)[1..]
  {
    hide Inv, Linked, Decode, Resident, DataKept;
    DataStays(m.St());
    EntryReads(m.St(), n, idx);
    var e := Decode(m.ram[pt][idx]);
    if !e.flags.v {
      var f := AddTable(m, n, pt, idx);
      if f.None? {
        return None;
      }
    }
    EntryReads(m.St(), n, idx);
    e := Decode(m.ram[pt][idx]);
    assert !e.flags.r && !e.flags.w && !e.flags.x;
    return Some(e.ppn);
  }

  /** Tables and data are off the free list. */
  lemma OffList(s: State, f: nat)
    requires Inv(s) && f in s.owner && s.owner[f] != Idle
    ensures f !in s.free
  {
  }

  /** A fresh frame linked in as table `n`. */
  lemma LinkFresh(s: State, n: Node) returns (t: State)
    requires Inv(s) && s.free != [] && !n.Root? && NodeOk(n) && n !in s.tbl && Parent(n) in s.tbl
    ensures s.free[0] < MAX_PPN && s.tbl[Parent(n)] in s.ram
    ensures s.tbl[Parent(n)] !in s.free[1..] && s.tbl[Parent(n)] != s.free[0]
    ensures Inv(t) && SamePages(s, t)
    ensures t.kernel == s.kernel && t.counts == s.counts[s.free[0] := 1] && t.free == s.free[1..]
    ensures var f, r := s.free[0], s.tbl[Parent(n)];
            t.ram == s.ram[f := Zero()][r := s.ram[r][Index(n) := Encode(Pte(f, V_ONLY))]]
    ensures t.tbl == s.tbl[n := s.free[0]] && t.leaf == s.leaf && t.held == s.held
    ensures DataKept(s.owner, s.ram, t.owner, t.ram)
  {
    hide PoolOk, FreeOk, TreeOk, EntriesOk, LeafOk, ShareOk, CountOk, Refs, Encode, Mapped;
    TakeKeeps(s);
    var u := Take(s);
    HeldIn(u, s.free[0]);
    LinkKeeps(u, n, s.free[0]);
    TableIn(s, Parent(n));
    TableIn(u, Parent(n));
    OffList(u, s.tbl[Parent(n)]);
    t := Link(u, n, s.free[0]);
    PoolKeys(s);
    FreeHead(s.free, s.owner);
  }

  lemma BootTaken(owner: map<nat, Owner>, f: nat, o1: Owner, o2: Owner)
    requires f in owner && owner[f] == Idle && o1 != Reserved && o2 != Reserved
    ensures BootKept(owner, owner[f := o1][f := o2])
  {
  }

  lemma BootStays(owner: map<nat, Owner>)
    ensures BootKept(owner, owner)
  {
  }

  lemma DataStays(s: State)
    requires Inv(s)
    ensures DataKept(s.owner, s.ram, s.owner, s.ram)
  {
  }

  /** A held frame linked in as the leaf of `key`. */
  lemma BindHeld(s: State, key: Key, e: Pte) returns (t: State)
    requires Inv(s) && Bindable(s, key, e)
    ensures s.tbl[LowOf(key)] in s.ram && s.tbl[LowOf(key)] !in s.free && e.ppn in s.ram && e.ppn < MAX_PPN
    ensures Inv(t) && Mapped(s.ram, s.leaf) && Mapped(t.ram, t.leaf)
    ensures Resident(t.ram, t.leaf) == Resident(s.ram, s.leaf)[key := s.ram[e.ppn]]
    ensures t.kernel == s.kernel && t.counts == s.counts && t.free == s.free && t.tbl == s.tbl
    ensures var r := s.tbl[LowOf(key)]; t.ram == s.ram[r := s.ram[r][key.v.k := Encode(e)]]
    ensures t.leaf == s.leaf[key := e] && t.held == s.held - multiset{e.ppn}
  {
    hide PoolOk, FreeOk, TreeOk, EntriesOk, LeafOk, ShareOk, CountOk, Refs, Encode, Mapped, CanShare, Resident;
    BindKeeps(s, key, e);
    TableIn(s, LowOf(key));
    OffList(s, s.tbl[LowOf(key)]);
    t := Bind(s, key, e);
  }

  method WriteLeaf(m: Machine, ghost key: Key, pt: nat, k: nat, e: Pte)
    requires m.Valid() && Bindable(m.St(), key, e) && pt == m.tbl[LowOf(key)] && k == key.v.k
    modifies m`ram, m`owner, m`tbl, m`leaf, m`held
    ensures m.Valid() && m.tbl == old(m.tbl)
    ensures m.leaf == old(m.leaf)[key := e] && m.held == old(m.held) - multiset{e.ppn}
    ensures e.ppn in old(m.ram) && m.Pages() == old(m.Pages())[key := old(m.ram)[e.ppn]]
  {
    hide Inv, Linked, Encode, Resident, CanShare;
    ghost var t := BindHeld(m.St(), key, e);
    LinkedFrame(m.ram, m.free, pt, m.ram[pt][k := Encode(e)]);
    m.ram := m.ram[pt := m.ram[pt][k := Encode(e)]];
    m.Settle(t);
  }

  /** Tables only grew, and only by those on the way to `key`. */
  ghost predicate GrewFor(key: Key, before: map<Node, nat>, after: map<Node, nat>) {
    && (forall n :: n in before ==> n in after && after[n] == before[n])
    && (forall n :: n in after && n !in before ==> n == Mid(key.p, key.v.i) || n == LowOf(key))
  }

  /** The tables still missing on the way to `key`. */
  function Missing(tbl: map<Node, nat>, key: Key): nat {
    (if Mid(key.p, key.v.i) in tbl then 0 else 1) + if LowOf(key) in tbl then 0 else 1
  }

  lemma NoneMissing(s: State, key: Key)
    requires Inv(s)
    ensures key in s.leaf ==> Missing(s.tbl, key) == 0
  {
    hide PoolOk, FreeOk, EntriesOk, ShareOk, CountOk;
    if key in s.leaf {
      assert Parent(LowOf(key)) == Mid(key.p, key.v.i);
    }
  }

  /** The loop of `map_page`: the level-0 table for `v`, with missing tables allocated on the way. */
  method DescendTo(m: Machine, p: Pid, v: Vpn) returns (r: Option<nat>)
    requires m.Valid() && p in m.roots && VpnOk(v)
    modifies m`ram, m`head, m`counts, m`free, m`owner, m`tbl, m`leaf, m`held
    ensures m.Valid() && m.leaf == old(m.leaf) && m.held == old(m.held) && m.Pages() == old(m.Pages())
    ensures DataKept(old(m.owner), old(m.ram), m.owner, m.ram) && GrewFor(Key(p, v), old(m.tbl), m.tbl)
    ensures r.Some? <==> Missing(old(m.tbl), Key(p, v)) <= |old(m.free)|
    ensures r.Some? ==> Low(p, v.i, v.j) in m.tbl && m.tbl[Low(p, v.i, v.j)] == r.value
    ensures r.Some? ==> |m.free| == |old(m.free)| - Missing(old(m.tbl), Key(p, v))
    ensures r.None? ==> Key(p, v) !in m.leaf && |m.free| <= |old(m.free)|
  {
    hide Inv, Linked, Resident;
    DataStays(m.St());
    var pt, level := m.roots[p], 2;
    while level >= 1
      invariant 0 <= level <= 2 && m.Valid()
      invariant NodeAt(p, v, level) in m.tbl && pt == m.tbl[NodeAt(p, v, level)]
      invariant m.leaf == old(m.leaf) && m.held == old(m.held) && m.Pages() == old(m.Pages())
      invariant GrewFor(Key(p, v), old(m.tbl), m.tbl) && DataKept(old(m.owner), old(m.ram), m.owner, m.ram)
      invariant |m.free| + Missing(old(m.tbl), Key(p, v)) == |old(m.free)| + Missing(m.tbl, Key(p, v))
    {
      assert Child(NodeAt(p, v, level), IndexAt(v, level)) == NodeAt(p, v, level - 1);
      var next := Descend(m, NodeAt(p, v, level), pt, IndexAt(v, level));
      if next.None? {
        NotBelow(m.St(), p, v, level);
        return None;
      }
      pt := next.value;
      level := level - 1;
    }
    TableIn(m.St(), Low(p, v.i, v.j));
    return Some(pt);
  }

  /** Adds exactly the binding of `va`, or leaves the map as it was; it fails exactly when the page is
      mapped already or memory runs out between levels. */
  method MapPage(m: Machine, p: Pid, va: nat, f: nat, flags: Flags) returns (ok: bool)
    requires m.Valid() && p in m.roots && VpnOk(VpnOf(va))
    requires f in m.held && flags.u && CanShare(m.leaf, Key(p, VpnOf(va)), Pte(f, flags.(v := true)))
    modifies m`ram, m`head, m`counts, m`free, m`owner, m`tbl, m`leaf, m`held
    ensures m.Valid() && GrewFor(Key(p, VpnOf(va)), old(m.tbl), m.tbl)
    ensures var key := Key(p, VpnOf(va));
      && (ok <==> key !in old(m.leaf) && Missing(old(m.tbl), key) <= |old(m.free)|)
      && m.leaf == (if ok then old(m.leaf)[key := Pte(f, flags.(v := true))] else old(m.leaf))
      && m.held == (if ok then old(m.held) - multiset{f} else old(m.held))
      && f in old(m.ram) && m.Pages() == (if ok then old(m.Pages())[key := old(m.ram)[f]] else old(m.Pages()))
      && (ok ==> |m.free| == |old(m.free)| - Missing(old(m.tbl), key))
      && (key in old(m.leaf) ==> |m.free| == |old(m.free)|)
    ensures |m.free| <= |old(m.free)|
  {
    hide Inv, Linked, Decode, Encode, Resident, CanShare, Missing, GrewFor;
    var v := VpnOf(va);
    ghost var key := Key(p, v);
    HeldIn(m.St(), f);
    NoneMissing(m.St(), key);
    var pt := DescendTo(m, p, v);
    if pt.None? {
      return false;
    }
    LeafReads(m.St(), key);
    if Decode(m.ram[pt.value][v.k]).flags.v {
      return false;
    }
    WriteLeaf(m, key, pt.value, v.k, Pte(f, flags.(v := true)));
    return true;
  }

  // ---- processes and held frames ----

  /** The ceiling `Process::new` enforces. */
  const MAX_PROCESSES: nat := 512

  lemma PlantFresh(s: State, p: Pid) returns (t: State)
    requires Inv(s) && s.free != [] && Root(p) !in s.tbl
    ensures Inv(t) && SamePages(s, t) && |s.kernel| == 4
    ensures t.kernel == s.kernel && t.counts == s.counts[s.free[0] := 1] && t.free == s.free[1..]
    ensures t.ram == s.ram[s.free[0] := s.kernel + Zero()[4..]]
    ensures t.tbl == s.tbl[Root(p) := s.free[0]] && t.leaf == s.leaf && t.held == s.held
    ensures s.free[0] !in s.free[1..] && BootKept(s.owner, t.owner)
  {
    hide PoolOk, FreeOk, TreeOk, EntriesOk, LeafOk, ShareOk, CountOk, Refs, Encode, Mapped, BootKept;
    TakeKeeps(s);
    var u := Take(s);
    HeldIn(u, s.free[0]);
    PlantKeeps(u, p, s.free[0]);
    OffList(u, s.free[0]);
    t := Plant(u, p, s.free[0]);
    FreeHead(s.free, s.owner);
    BootTaken(s.owner, s.free[0], Data, Table(Root(p)));
  }

  /** A new address space: a root table holding the kernel's entries and nothing else. */
  method NewProcessTable(m: Machine, p: Pid) returns (ok: bool)
    requires m.Valid() && p !in m.roots
    modifies m`ram, m`head, m`counts, m`free, m`owner, m`tbl, m`leaf, m`held, m`roots
    ensures m.Valid() && m.leaf == old(m.leaf) && m.held == old(m.held) && m.Pages() == old(m.Pages())
    ensures ok <==> old(m.free) != []
    ensures !ok ==> m.tbl == old(m.tbl) && m.roots == old(m.roots)
    ensures ok ==> m.tbl == old(m.tbl)[Root(p) := old(m.free)[0]] && m.roots == old(m.roots)[p := old(m.free)[0]]
    ensures m.free == (if ok then old(m.free)[1..] else []) && BootKept(old(m.owner), m.owner)
    ensures ok ==> |m.kernel| == 4 && m.roots[p] in m.ram
    ensures ok ==> forall i :: 0 <= i < 512 ==> m.ram[m.roots[p]][i] == if i < 4 then m.kernel[i] else 0
  {
    hide Inv, Linked, Encode, Resident, BootKept;
    BootStays(m.owner);
    ghost var s := m.St();
    var f := AllocFrame(m);
    if f.None? {
      return false;
    }
    ghost var t := PlantFresh(s, p);
    var root := f.value;
    LinkedFrame(m.ram, m.free, root, m.kernel + m.ram[root][4..]);
    m.ram, m.roots := m.ram[root := m.kernel + m.ram[root][4..]], m.roots[p := root];
    m.Settle(t);
    return true;
  }

  /** An allocation whose frame the caller holds. */
  method TakeFrame(m: Machine) returns (f: Option<nat>)
    requires m.Valid()
    modifies m`ram, m`head, m`counts, m`free, m`owner, m`tbl, m`leaf, m`held
    ensures m.Valid() && m.leaf == old(m.leaf) && m.tbl == old(m.tbl) && m.Pages() == old(m.Pages())
    ensures f.None? <==> old(m.free) == []
    ensures f.None? ==> m.held == old(m.held) && m.free == [] && m.ram == old(m.ram)
    ensures f.Some? ==>
      && f.value == old(m.free)[0] && m.free == old(m.free)[1..] && m.held == old(m.held) + multiset{f.value}
      && f.value !in old(m.held) && Refs(m.leaf, f.value) == {}
      && m.ram == old(m.ram)[f.value := Zero()] && f.value in old(m.ram)
  {
    hide Inv, Linked, Resident, Refs;
    ghost var s := m.St();
    f := AllocFrame(m);
    if f.Some? {
      TakeKeeps(s);
      PoolKeys(s);
      m.Settle(Take(s));
    }
  }

  /** A held reference given up: `decr_ref_and_maybe_free`, or a dropped `PhysFrame`. */
  method DropFrame(m: Machine, f: nat)
    requires m.Valid() && f in m.held
    modifies m`ram, m`head, m`counts, m`free, m`owner, m`tbl, m`leaf, m`held
    ensures m.Valid() && m.leaf == old(m.leaf) && m.tbl == old(m.tbl) && m.Pages() == old(m.Pages())
    ensures m.held == old(m.held) - multiset{f}
    ensures m.free == old(m.free) || m.free == [f] + old(m.free)
    ensures old(m.held)[f] == 1 && Refs(old(m.leaf), f) == {} ==> m.free == [f] + old(m.free)
  {
    hide Inv, Linked, Resident, Refs;
    ghost var s := m.St();
    DropKeeps(s, f);
    HeldIn(s, f);
    OffList(s, f);
    SoleCount(s, f);
    DecrRefAndMaybeFree(m, f);
    m.Settle(Drop(s, f));
  }

  /** The frame of `key` goes back on the list when nothing else refers to it. */
  ghost predicate Released(leaf: map<Key, Pte>, held: multiset<nat>, before: seq<nat>, after: seq<nat>, key: Key) {
    key in leaf && var f := leaf[key].ppn;
    && (after == before || after == [f] + before)
    && (Refs(leaf, f) == {key} && f !in held ==> after == [f] + before)
  }

  lemma NoneLeft(leaf: map<Key, Pte>, key: Key)
    requires key in leaf
    ensures Refs(leaf, leaf[key].ppn) == {key} ==> Refs(leaf - {key}, leaf[key].ppn) == {}
  {
  }

  lemma SoleCount(s: State, f: nat)
    requires Inv(s) && f in s.held
    ensures f in s.counts && (s.held[f] == 1 && Refs(s.leaf, f) == {} ==> s.counts[f] == 1)
  {
  }
}
