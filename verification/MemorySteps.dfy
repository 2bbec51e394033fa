/** Every step keeps the invariant, and changes the mapped user pages only as it says. */
module MemorySteps {
  import opened Words
  import opened Sv39
  import opened Memory

  // ---- each part of the invariant under the changes that steps make ----

  lemma FreePop(free: seq<nat>, owner: map<nat, Owner>, o: Owner)
    requires FreeOk(free, owner) && free != [] && o != Idle
    ensures FreeOk(free[1..], owner[free[0] := o])
  {
    forall g | g in owner[free[0] := o] && owner[free[0] := o][g] == Idle ensures g in free[1..] {
      assert g in free;
    }
  }

  lemma FreePush(free: seq<nat>, owner: map<nat, Owner>, f: nat)
    requires FreeOk(free, owner) && f in owner && owner[f] != Idle
    ensures FreeOk([f] + free, owner[f := Idle])
  {
    var q := [f] + free;
    assert q[0] == f;
    assert forall a :: 0 < a < |q| ==> q[a] == free[a - 1] && free[a - 1] in free;
    assert forall g :: g in free ==> g in q;
  }

  lemma FreeSame(free: seq<nat>, owner: map<nat, Owner>, f: nat, o: Owner)
    requires FreeOk(free, owner) && f in owner && owner[f] != Idle && o != Idle
    ensures FreeOk(free, owner[f := o])
  {
  }

  lemma TreeSame(tbl: map<Node, nat>, owner: map<nat, Owner>, f: nat, o: Owner)
    requires TreeOk(tbl, owner) && f in owner && !owner[f].Table? && !o.Table?
    ensures TreeOk(tbl, owner[f := o])
  {
  }

  lemma TreeGrow(tbl: map<Node, nat>, owner: map<nat, Owner>, f: nat, n: Node)
    requires TreeOk(tbl, owner) && f in owner && !owner[f].Table?
    requires n !in tbl && NodeOk(n) && (!n.Root? ==> Parent(n) in tbl)
    ensures TreeOk(tbl[n := f], owner[f := Table(n)])
  {
  }

  lemma TreeShrink(tbl: map<Node, nat>, owner: map<nat, Owner>, n: Node, o: Owner)
    requires TreeOk(tbl, owner) && n in tbl && !o.Table?
    requires NoChild(tbl, n)
    ensures TreeOk(tbl - {n}, owner[tbl[n] := o])
  {
  }

  /** Frames that are not tables do not matter to the tables. */
  lemma EntriesFrame(kernel: seq<Word>, ram: map<nat, Page>, tbl: map<Node, nat>, leaf: map<Key, Pte>, f: nat,
                     page: Page)
    requires EntriesOk(kernel, ram, tbl, leaf) && (forall n :: n in tbl ==> tbl[n] != f)
    ensures EntriesOk(kernel, ram[f := page], tbl, leaf)
  {
  }

  lemma NotATable(tbl: map<Node, nat>, owner: map<nat, Owner>, f: nat)
    requires TreeOk(tbl, owner) && f in owner && !owner[f].Table?
    ensures forall n :: n in tbl ==> tbl[n] != f
  {
  }

  lemma LeafSame(tbl: map<Node, nat>, owner: map<nat, Owner>, leaf: map<Key, Pte>, f: nat, o: Owner)
    requires LeafOk(tbl, owner, leaf) && (o == Data || Refs(leaf, f) == {})
    ensures LeafOk(tbl, owner[f := o], leaf)
  {
    assert forall key :: key in leaf && leaf[key].ppn == f ==> key in Refs(leaf, f);
  }

  lemma NoRefs(tbl: map<Node, nat>, owner: map<nat, Owner>, leaf: map<Key, Pte>, f: nat)
    requires LeafOk(tbl, owner, leaf) && f in owner && owner[f] != Data
    ensures Refs(leaf, f) == {}
  {
  }

  lemma ResidentFrame(ram: map<nat, Page>, leaf: map<Key, Pte>, f: nat, page: Page)
    requires Mapped(ram, leaf) && Refs(leaf, f) == {}
    ensures Mapped(ram[f := page], leaf) && Resident(ram[f := page], leaf) == Resident(ram, leaf)
  {
    assert forall key :: key in leaf && leaf[key].ppn == f ==> key in Refs(leaf, f);
  }

  lemma CountNew(counts: map<nat, nat>, owner: map<nat, Owner>, leaf: map<Key, Pte>, held: multiset<nat>, f: nat)
    requires CountOk(counts, owner, leaf, held) && f in owner && owner[f] != Data && Refs(leaf, f) == {}
    ensures CountOk(counts[f := 1], owner[f := Data], leaf, held + multiset{f})
  {
  }

  lemma CountLess(counts: map<nat, nat>, owner: map<nat, Owner>, leaf: map<Key, Pte>, held: multiset<nat>, f: nat)
    requires CountOk(counts, owner, leaf, held) && f in held && counts[f] > 1
    ensures CountOk(counts[f := counts[f] - 1], owner, leaf, held - multiset{f})
  {
  }

  lemma CountMore(counts: map<nat, nat>, owner: map<nat, Owner>, leaf: map<Key, Pte>, held: multiset<nat>, f: nat)
    requires CountOk(counts, owner, leaf, held) && f in owner && owner[f] == Data
    ensures CountOk(counts[f := counts[f] + 1], owner, leaf, held + multiset{f})
  {
  }

  lemma CountGone(counts: map<nat, nat>, owner: map<nat, Owner>, leaf: map<Key, Pte>, held: multiset<nat>, f: nat)
    requires CountOk(counts, owner, leaf, held) && f in held && counts[f] == 1
    ensures CountOk(counts[f := 0], owner[f := Idle], leaf, held - multiset{f})
    ensures Refs(leaf, f) == {}
  {
    assert |Refs(leaf, f)| + held[f] == 1;
  }

  lemma CountTable(counts: map<nat, nat>, owner: map<nat, Owner>, leaf: map<Key, Pte>, held: multiset<nat>, f: nat,
                   n: Node)
    requires CountOk(counts, owner, leaf, held) && held[f] == 1 && Refs(leaf, f) == {}
    ensures CountOk(counts, owner[f := Table(n)], leaf, held - multiset{f})
  {
    assert f in held;
  }

  lemma CountFree(counts: map<nat, nat>, owner: map<nat, Owner>, leaf: map<Key, Pte>, held: multiset<nat>, f: nat)
    requires CountOk(counts, owner, leaf, held) && f in owner && owner[f] != Data
    ensures CountOk(counts[f := 0], owner[f := Idle], leaf, held)
  {
  }

  lemma RefsBind(leaf: map<Key, Pte>, key: Key, e: Pte)
    requires key !in leaf
    ensures Refs(leaf[key := e], e.ppn) == Refs(leaf, e.ppn) + {key}
    ensures forall g :: g != e.ppn ==> Refs(leaf[key := e], g) == Refs(leaf, g)
  {
  }

  lemma RefsUnbind(leaf: map<Key, Pte>, key: Key)
    requires key in leaf
    ensures Refs(leaf - {key}, leaf[key].ppn) == Refs(leaf, leaf[key].ppn) - {key}
    ensures key in Refs(leaf, leaf[key].ppn)
    ensures forall g :: g != leaf[key].ppn ==> Refs(leaf - {key}, g) == Refs(leaf, g)
  {
  }

  lemma RefsReflag(leaf: map<Key, Pte>, key: Key, e: Pte)
    requires key in leaf && leaf[key].ppn == e.ppn
    ensures forall g :: Refs(leaf[key := e], g) == Refs(leaf, g)
  {
    forall g ensures Refs(leaf[key := e], g) == Refs(leaf, g) {
      assert forall a :: a in Refs(leaf[key := e], g) <==> a in Refs(leaf, g);
    }
  }

  lemma CountBind(counts: map<nat, nat>, owner: map<nat, Owner>, leaf: map<Key, Pte>, held: multiset<nat>, key: Key,
                  e: Pte)
    requires CountOk(counts, owner, leaf, held) && key !in leaf && e.ppn in held
    ensures CountOk(counts, owner, leaf[key := e], held - multiset{e.ppn})
  {
    RefsBind(leaf, key, e);
    assert key !in Refs(leaf, e.ppn);
    hide Refs;
  }

  lemma CountUnbind(counts: map<nat, nat>, owner: map<nat, Owner>, leaf: map<Key, Pte>, held: multiset<nat>, key: Key)
    requires CountOk(counts, owner, leaf, held) && key in leaf && leaf[key].ppn in owner && owner[leaf[key].ppn] == Data
    ensures CountOk(counts, owner, leaf - {key}, held + multiset{leaf[key].ppn})
  {
    hide CountFits, Refs;
    RefsUnbind(leaf, key);
    var held', leaf' := held + multiset{leaf[key].ppn}, leaf - {key};
    forall f | f in owner ensures CountFits(owner[f], counts[f], |Refs(leaf', f)| + held'[f]) {
      assert |Refs(leaf', f)| + held'[f] == |Refs(leaf, f)| + held[f];
    }
  }

  lemma CountReflag(counts: map<nat, nat>, owner: map<nat, Owner>, leaf: map<Key, Pte>, held: multiset<nat>, key: Key,
                    e: Pte)
    requires CountOk(counts, owner, leaf, held) && key in leaf && leaf[key].ppn == e.ppn
    ensures CountOk(counts, owner, leaf[key := e], held)
  {
    RefsReflag(leaf, key, e);
    hide Refs;
  }

  lemma ShareBind(leaf: map<Key, Pte>, key: Key, e: Pte)
    requires ShareOk(leaf) && CanShare(leaf, key, e)
    ensures ShareOk(leaf[key := e])
  {
    assert forall a :: a in leaf && leaf[a].ppn == e.ppn ==> a in Refs(leaf, e.ppn);
  }

  /** Another process may already map the frame, read-only on both sides. */
  ghost predicate CanShare(leaf: map<Key, Pte>, key: Key, e: Pte) {
    forall a :: a in Refs(leaf, e.ppn) ==> a.p != key.p && !leaf[a].flags.w && !e.flags.w
  }

  lemma ShareUnbind(leaf: map<Key, Pte>, key: Key)
    requires ShareOk(leaf)
    ensures ShareOk(leaf - {key})
  {
  }

  lemma ShareReflag(leaf: map<Key, Pte>, key: Key, e: Pte)
    requires ShareOk(leaf) && key in leaf && leaf[key].ppn == e.ppn && !e.flags.w
    ensures ShareOk(leaf[key := e])
  {
  }

  lemma LeafBind(tbl: map<Node, nat>, owner: map<nat, Owner>, leaf: map<Key, Pte>, key: Key, e: Pte)
    requires LeafOk(tbl, owner, leaf)
    requires VpnOk(key.v) && LowOf(key) in tbl && e.flags.v && e.flags.u && e.ppn in owner && owner[e.ppn] == Data
    ensures LeafOk(tbl, owner, leaf[key := e])
  {
  }

  lemma LeafUnbind(tbl: map<Node, nat>, owner: map<nat, Owner>, leaf: map<Key, Pte>, key: Key)
    requires LeafOk(tbl, owner, leaf)
    ensures LeafOk(tbl, owner, leaf - {key})
  {
  }

  ghost predicate NoLeafBelow(leaf: map<Key, Pte>, n: Node) {
    forall key :: key in leaf ==> LowOf(key) != n
  }

  lemma LeafGrow(tbl: map<Node, nat>, owner: map<nat, Owner>, leaf: map<Key, Pte>, n: Node, f: nat)
    requires LeafOk(tbl, owner, leaf)
    ensures LeafOk(tbl[n := f], owner, leaf)
    ensures n !in tbl ==> NoLeafBelow(leaf, n)
  {
  }

  lemma LeafShrink(tbl: map<Node, nat>, owner: map<nat, Owner>, leaf: map<Key, Pte>, n: Node)
    requires LeafOk(tbl, owner, leaf) && NoLeafBelow(leaf, n)
    ensures LeafOk(tbl - {n}, owner, leaf)
  {
  }

  ghost predicate OneFrameEach(tbl: map<Node, nat>) {
    forall a, b :: a in tbl && b in tbl && tbl[a] == tbl[b] ==> a == b
  }

  lemma TreeInjective(tbl: map<Node, nat>, owner: map<nat, Owner>)
    requires TreeOk(tbl, owner)
    ensures OneFrameEach(tbl)
  {
    forall a, b | a in tbl && b in tbl && tbl[a] == tbl[b] ensures a == b {
      assert owner[tbl[a]] == Table(a) && owner[tbl[b]] == Table(b);
    }
  }

  ghost predicate NoChild(tbl: map<Node, nat>, n: Node) {
    forall c :: c in tbl && !c.Root? ==> Parent(c) != n
  }

  lemma WantSame(tbl: map<Node, nat>, tbl': map<Node, nat>, leaf: map<Key, Pte>, leaf': map<Key, Pte>, n: Node,
                 idx: nat)
    requires n.Low? ==> LeafWord(leaf, Slot(n, idx)) == LeafWord(leaf', Slot(n, idx))
    requires !n.Low? ==> PtrWord(tbl, Child(n, idx)) == PtrWord(tbl', Child(n, idx))
    ensures Want(tbl, leaf, n, idx) == Want(tbl', leaf', n, idx)
  {
  }

  lemma EntriesLink(kernel: seq<Word>, ram: map<nat, Page>, tbl: map<Node, nat>, leaf: map<Key, Pte>, n: Node, f: nat)
    requires EntriesOk(kernel, ram, tbl, leaf) && OneFrameEach(tbl)
    requires !n.Root? && NodeOk(n) && n !in tbl && Parent(n) in tbl && f < MAX_PPN
    requires f in ram && ram[f] == Zero() && (forall m :: m in tbl ==> tbl[m] != f)
    requires NoChild(tbl, n) && NoLeafBelow(leaf, n)
    ensures var r := tbl[Parent(n)];
      EntriesOk(kernel, ram[r := ram[r][Index(n) := Encode(Pte(f, V_ONLY))]], tbl[n := f], leaf)
  {
    hide Encode;
    var r := tbl[Parent(n)];
    var ram' := ram[r := ram[r][Index(n) := Encode(Pte(f, V_ONLY))]];
    var tbl' := tbl[n := f];
    forall m, idx: nat | m in tbl' && InTable(m, idx) ensures ram'[tbl'[m]][idx] == Want(tbl', leaf, m, idx) {
      if m == n {
        assert ram'[f][idx] == 0;
        assert !n.Low? ==> Parent(Child(n, idx)) == n;
        assert n.Low? ==> LowOf(Slot(n, idx)) == n;
      } else if m == Parent(n) && idx == Index(n) {
        assert Child(m, idx) == n;
      } else {
        assert !m.Low? ==> Child(m, idx) != n;
        WantSame(tbl, tbl', leaf, leaf, m, idx);
      }
    }
  }

  lemma EntriesPlant(kernel: seq<Word>, ram: map<nat, Page>, tbl: map<Node, nat>, leaf: map<Key, Pte>, p: Pid, f: nat)
    requires EntriesOk(kernel, ram, tbl, leaf) && Root(p) !in tbl
    requires f in ram && ram[f] == Zero() && (forall m :: m in tbl ==> tbl[m] != f)
    requires NoChild(tbl, Root(p))
    ensures EntriesOk(kernel, ram[f := kernel + ram[f][4..]], tbl[Root(p) := f], leaf)
  {
    hide Encode;
    var ram' := ram[f := kernel + ram[f][4..]];
    var tbl' := tbl[Root(p) := f];
    forall m, idx: nat | m in tbl' && InTable(m, idx) ensures ram'[tbl'[m]][idx] == Want(tbl', leaf, m, idx) {
      if m == Root(p) {
        assert ram'[f][idx] == 0;
        assert Parent(Child(m, idx)) == m;
      } else {
        WantSame(tbl, tbl', leaf, leaf, m, idx);
      }
    }
  }

  /** Rewriting one leaf slot. */
  lemma EntriesLeaf(kernel: seq<Word>, ram: map<nat, Page>, tbl: map<Node, nat>, leaf: map<Key, Pte>,
                    leaf': map<Key, Pte>, key: Key)
    requires EntriesOk(kernel, ram, tbl, leaf) && OneFrameEach(tbl)
    requires LowOf(key) in tbl && key.v.k < 512
    requires forall a :: a != key ==> (a in leaf <==> a in leaf') && (a in leaf ==> leaf'[a] == leaf[a])
    ensures var r := tbl[LowOf(key)]; EntriesOk(kernel, ram[r := ram[r][key.v.k := LeafWord(leaf', key)]], tbl, leaf')
  {
    hide Encode;
    var r := tbl[LowOf(key)];
    var ram' := ram[r := ram[r][key.v.k := LeafWord(leaf', key)]];
    forall m, idx: nat | m in tbl && InTable(m, idx) ensures ram'[tbl[m]][idx] == Want(tbl, leaf', m, idx) {
      if m == LowOf(key) && idx == key.v.k {
        assert Slot(m, idx) == key;
      } else {
        assert m.Low? ==> Slot(m, idx) != key;
        WantSame(tbl, tbl, leaf, leaf', m, idx);
      }
    }
  }

  lemma EntriesUnlink(kernel: seq<Word>, ram: map<nat, Page>, tbl: map<Node, nat>, leaf: map<Key, Pte>, n: Node,
                      page: Page)
    requires EntriesOk(kernel, ram, tbl, leaf) && OneFrameEach(tbl)
    requires !n.Root? && NodeOk(n) && n in tbl && Parent(n) in tbl
    ensures var r := tbl[Parent(n)]; EntriesOk(kernel, ram[r := ram[r][Index(n) := 0]][tbl[n] := page], tbl - {n}, leaf)
  {
    hide Encode;
    var r := tbl[Parent(n)];
    var ram' := ram[r := ram[r][Index(n) := 0]][tbl[n] := page];
    var tbl' := tbl - {n};
    forall m, idx: nat | m in tbl' && InTable(m, idx) ensures ram'[tbl'[m]][idx] == Want(tbl', leaf, m, idx) {
      if m == Parent(n) && idx == Index(n) {
        assert Child(m, idx) == n;
      } else {
        assert !m.Low? ==> Child(m, idx) != n;
        WantSame(tbl, tbl', leaf, leaf, m, idx);
      }
    }
  }

  lemma EntriesUproot(kernel: seq<Word>, ram: map<nat, Page>, tbl: map<Node, nat>, leaf: map<Key, Pte>, p: Pid,
                      page: Page)
    requires EntriesOk(kernel, ram, tbl, leaf) && OneFrameEach(tbl) && Root(p) in tbl
    ensures EntriesOk(kernel, ram[tbl[Root(p)] := page], tbl - {Root(p)}, leaf)
  {
    hide Encode;
    var tbl' := tbl - {Root(p)};
    forall m, idx: nat | m in tbl' && InTable(m, idx)
      ensures ram[tbl[Root(p)] := page][tbl'[m]][idx] == Want(tbl', leaf, m, idx)
    {
      WantSame(tbl, tbl', leaf, leaf, m, idx);
    }
  }

  lemma FreeHead(free: seq<nat>, owner: map<nat, Owner>)
    requires FreeOk(free, owner) && free != []
    ensures free[0] in owner && owner[free[0]] == Idle
  {
    assert free[0] in free;
  }

  lemma PoolSame(kernel: seq<Word>, ram: map<nat, Page>, counts: map<nat, nat>, owner: map<nat, Owner>,
                 f: nat, page: Page, c: nat, o: Owner)
    requires PoolOk(kernel, ram, counts, owner) && f in owner
    ensures PoolOk(kernel, ram[f := page], counts[f := c], owner[f := o])
    ensures PoolOk(kernel, ram[f := page], counts, owner)
    ensures PoolOk(kernel, ram, counts[f := c], owner)
    ensures PoolOk(kernel, ram[f := page], counts, owner[f := o])
  {
  }

  /** Memory at boot: frames are free or reserved, and nothing else. */
  lemma BootInv(s: State)
    requires |s.kernel| == 4 && s.tbl == map[] && s.leaf == map[] && s.held == multiset{}
    requires s.ram.Keys == s.owner.Keys == s.counts.Keys && NoDup(s.free)
    requires forall f :: f in s.owner ==> 0 < f < MAX_PPN && s.counts[f] == 0
    requires forall f :: f in s.owner ==> s.owner[f] == if f in s.free then Idle else Reserved
    requires forall f :: f in s.free ==> f in s.owner
    ensures Inv(s)
  {
    hide Want;
  }

  // ---- facts the invariant gives ----

  lemma HeadBound(s: State)
    requires Inv(s)
    ensures Head(s.free) < MAX_PPN
  {
    if s.free != [] {
      FreeHead(s.free, s.owner);
    }
  }

  lemma InvMapped(s: State)
    requires Inv(s)
    ensures Mapped(s.ram, s.leaf)
  {
  }

  lemma TableIn(s: State, n: Node)
    requires Inv(s) && n in s.tbl
    ensures NodeOk(n) && s.tbl[n] in s.ram && s.tbl[n] in s.owner && s.owner[s.tbl[n]] == Table(n)
    ensures 0 < s.tbl[n] < MAX_PPN
    ensures !n.Root? ==> Parent(n) in s.tbl
    ensures Refs(s.leaf, s.tbl[n]) == {}
  {
  }

  lemma LeafIn(s: State, key: Key)
    requires Inv(s) && key in s.leaf
    ensures VpnOk(key.v) && LowOf(key) in s.tbl && s.tbl[LowOf(key)] in s.ram
    ensures s.leaf[key].flags.v && s.leaf[key].flags.u && IsData(s, s.leaf[key].ppn)
    ensures 0 < s.leaf[key].ppn < MAX_PPN && s.leaf[key].ppn in s.ram && s.leaf[key].ppn in s.counts
  {
  }

  lemma PoolKeys(s: State)
    requires Inv(s)
    ensures s.ram.Keys == s.owner.Keys && s.counts.Keys == s.owner.Keys && |s.kernel| == 4
  {
  }

  lemma HeldIn(s: State, f: nat)
    requires Inv(s) && f in s.held
    ensures IsData(s, f) && f in s.ram && f in s.counts && s.counts[f] > 0 && 0 < f < MAX_PPN
  {
  }

  // ---- the steps ----

  ghost predicate SamePages(s: State, t: State) {
    Mapped(s.ram, s.leaf) && Mapped(t.ram, t.leaf) && Resident(t.ram, t.leaf) == Resident(s.ram, s.leaf)
  }

  lemma TakeKeeps(s: State)
    requires Inv(s) && s.free != []
    ensures Inv(Take(s)) && SamePages(s, Take(s))
    ensures Refs(s.leaf, s.free[0]) == {} && s.free[0] !in s.held && s.free[0] in s.owner
  {
    hide PoolOk, FreeOk, TreeOk, EntriesOk, LeafOk, ShareOk, CountOk, Refs, Mapped;
    var f := s.free[0];
    InvMapped(s);
    FreeHead(s.free, s.owner);
    if f in s.held {
      HeldIn(s, f);
    }
    PoolSame(s.kernel, s.ram, s.counts, s.owner, f, Zero(), 1, Data);
    NoRefs(s.tbl, s.owner, s.leaf, f);
    FreePop(s.free, s.owner, Data);
    TreeSame(s.tbl, s.owner, f, Data);
    NotATable(s.tbl, s.owner, f);
    EntriesFrame(s.kernel, s.ram, s.tbl, s.leaf, f, Zero());
    LeafSame(s.tbl, s.owner, s.leaf, f, Data);
    CountNew(s.counts, s.owner, s.leaf, s.held, f);
    ResidentFrame(s.ram, s.leaf, f, Zero());
  }

  lemma ReleaseKeeps(s: State, f: nat)
    requires Inv(s) && f in s.owner && Head(s.free) < MAX_PPN
    ensures var t := Release(s, f);
            && PoolOk(t.kernel, t.ram, t.counts, t.owner)
            && (s.owner[f] != Idle ==> FreeOk(t.free, t.owner))
            && (Refs(s.leaf, f) == {} ==> LeafOk(t.tbl, t.owner, t.leaf) && SamePages(s, t))
  {
    hide PoolOk, FreeOk, TreeOk, EntriesOk, LeafOk, ShareOk, CountOk, Refs, Mapped;
    InvMapped(s);
    var page := FreedPage(Head(s.free) * 4096);
    PoolSame(s.kernel, s.ram, s.counts, s.owner, f, page, 0, Idle);
    if s.owner[f] != Idle {
      FreePush(s.free, s.owner, f);
    }
    if Refs(s.leaf, f) == {} {
      LeafSame(s.tbl, s.owner, s.leaf, f, Idle);
      ResidentFrame(s.ram, s.leaf, f, page);
    }
  }

  lemma DropKeeps(s: State, f: nat)
    requires Inv(s) && f in s.held
    ensures IsData(s, f) && f in s.counts && Head(s.free) < MAX_PPN
    ensures Inv(Drop(s, f)) && SamePages(s, Drop(s, f))
  {
    hide PoolOk, FreeOk, TreeOk, EntriesOk, LeafOk, ShareOk, CountOk, Refs, Mapped;
    HeadBound(s);
    InvMapped(s);
    HeldIn(s, f);
    if s.counts[f] > 1 {
      PoolSame(s.kernel, s.ram, s.counts, s.owner, f, Zero(), s.counts[f] - 1, Idle);
      CountLess(s.counts, s.owner, s.leaf, s.held, f);
    } else {
      CountGone(s.counts, s.owner, s.leaf, s.held, f);
      ReleaseKeeps(s, f);
      TreeSame(s.tbl, s.owner, f, Idle);
      NotATable(s.tbl, s.owner, f);
      EntriesFrame(s.kernel, s.ram, s.tbl, s.leaf, f, FreedPage(Head(s.free) * 4096));
    }
  }

  lemma RetainKeeps(s: State, f: nat)
    requires Inv(s) && IsData(s, f)
    ensures f in s.counts && Inv(Retain(s, f)) && SamePages(s, Retain(s, f))
  {
    hide PoolOk, FreeOk, TreeOk, EntriesOk, LeafOk, ShareOk, CountOk, Refs, Mapped;
    InvMapped(s);
    PoolKeys(s);
    PoolSame(s.kernel, s.ram, s.counts, s.owner, f, Zero(), s.counts[f] + 1, Idle);
    CountMore(s.counts, s.owner, s.leaf, s.held, f);
  }

  /** Only pages that map the frame change. */
  lemma FillKeeps(s: State, f: nat, page: Page)
    requires Inv(s) && IsData(s, f)
    ensures var t := Fill(s, f, page); Inv(t) && Mapped(t.ram, t.leaf)
    ensures forall key :: key in s.leaf ==>
      s.leaf[key].ppn in s.ram && Fill(s, f, page).ram[s.leaf[key].ppn] ==
        if s.leaf[key].ppn == f then page else s.ram[s.leaf[key].ppn]
  {
    hide PoolOk, FreeOk, TreeOk, EntriesOk, LeafOk, ShareOk, CountOk, Refs;
    InvMapped(s);
    PoolSame(s.kernel, s.ram, s.counts, s.owner, f, page, 0, Idle);
    NotATable(s.tbl, s.owner, f);
    EntriesFrame(s.kernel, s.ram, s.tbl, s.leaf, f, page);
  }

  ghost predicate Linkable(s: State, n: Node, f: nat) {
    && NodeOk(n) && n !in s.tbl && (!n.Root? ==> Parent(n) in s.tbl)
    && f in s.ram && s.ram[f] == Zero() && s.held[f] == 1 && Refs(s.leaf, f) == {}
  }

  lemma LinkFacts(s: State, n: Node, f: nat)
    requires Inv(s) && Linkable(s, n, f)
    ensures IsData(s, f) && 0 < f < MAX_PPN && NoChild(s.tbl, n)
    ensures !n.Root? ==>
      s.tbl[Parent(n)] in s.ram && s.tbl[Parent(n)] in s.owner && Refs(s.leaf, s.tbl[Parent(n)]) == {}
    ensures !n.Root? ==> s.tbl[Parent(n)] != f
  {
    assert f in s.held;
    if !n.Root? {
      TableIn(s, Parent(n));
    }
  }

  lemma LinkKeeps(s: State, n: Node, f: nat)
    requires Inv(s) && Linkable(s, n, f) && !n.Root?
    ensures f < MAX_PPN && s.tbl[Parent(n)] in s.ram
    ensures Inv(Link(s, n, f)) && SamePages(s, Link(s, n, f))
  {
    hide PoolOk, FreeOk, TreeOk, EntriesOk, LeafOk, ShareOk, CountOk, Refs, Mapped, Encode, NoChild, NoLeafBelow,
      OneFrameEach;
    LinkFacts(s, n, f);
    InvMapped(s);
    var r := s.tbl[Parent(n)];
    var page := s.ram[r][Index(n) := Encode(Pte(f, V_ONLY))];
    PoolSame(s.kernel, s.ram, s.counts, s.owner, r, page, 0, Idle);
    PoolSame(s.kernel, s.ram[r := page], s.counts, s.owner, f, s.ram[r := page][f], s.counts[f], Table(n));
    assert s.ram[r := page][f := s.ram[r := page][f]] == s.ram[r := page];
    FreeSame(s.free, s.owner, f, Table(n));
    NotATable(s.tbl, s.owner, f);
    TreeInjective(s.tbl, s.owner);
    TreeGrow(s.tbl, s.owner, f, n);
    LeafGrow(s.tbl, s.owner, s.leaf, n, f);
    LeafSame(s.tbl[n := f], s.owner, s.leaf, f, Table(n));
    EntriesLink(s.kernel, s.ram, s.tbl, s.leaf, n, f);
    CountTable(s.counts, s.owner, s.leaf, s.held, f, n);
    ResidentFrame(s.ram, s.leaf, r, page);
  }

  lemma PlantKeeps(s: State, p: Pid, f: nat)
    requires Inv(s) && Linkable(s, Root(p), f)
    ensures |s.kernel| == 4
    ensures Inv(Plant(s, p, f)) && SamePages(s, Plant(s, p, f))
  {
    hide PoolOk, FreeOk, TreeOk, EntriesOk, LeafOk, ShareOk, CountOk, Refs, Mapped, Encode, NoChild, NoLeafBelow;
    LinkFacts(s, Root(p), f);
    InvMapped(s);
    PoolKeys(s);
    var n, page := Root(p), s.kernel + s.ram[f][4..];
    PoolSame(s.kernel, s.ram, s.counts, s.owner, f, page, 0, Table(n));
    FreeSame(s.free, s.owner, f, Table(n));
    NotATable(s.tbl, s.owner, f);
    TreeGrow(s.tbl, s.owner, f, n);
    LeafGrow(s.tbl, s.owner, s.leaf, n, f);
    LeafSame(s.tbl[n := f], s.owner, s.leaf, f, Table(n));
    EntriesPlant(s.kernel, s.ram, s.tbl, s.leaf, p, f);
    CountTable(s.counts, s.owner, s.leaf, s.held, f, n);
    ResidentFrame(s.ram, s.leaf, f, page);
  }

  ghost predicate Bindable(s: State, key: Key, e: Pte) {
    && key !in s.leaf && VpnOk(key.v) && LowOf(key) in s.tbl
    && e.flags.v && e.flags.u && e.ppn in s.held && CanShare(s.leaf, key, e)
  }

  /** The three steps that rewrite a leaf slot touch no user page. */
  lemma SlotFacts(s: State, key: Key, w: Word)
    requires Inv(s) && LowOf(key) in s.tbl && key.v.k < 512
    ensures s.tbl[LowOf(key)] in s.ram
    ensures var t := Poke(s, s.tbl[LowOf(key)], key.v.k, w);
            && PoolOk(t.kernel, t.ram, t.counts, t.owner) && Mapped(t.ram, s.leaf)
            && Resident(t.ram, s.leaf) == Resident(s.ram, s.leaf)
    ensures OneFrameEach(s.tbl)
  {
    hide PoolOk, FreeOk, TreeOk, EntriesOk, LeafOk, ShareOk, CountOk, Refs, Mapped;
    TableIn(s, LowOf(key));
    InvMapped(s);
    var r := s.tbl[LowOf(key)];
    PoolSame(s.kernel, s.ram, s.counts, s.owner, r, s.ram[r][key.v.k := w], 0, Idle);
    ResidentFrame(s.ram, s.leaf, r, s.ram[r][key.v.k := w]);
    TreeInjective(s.tbl, s.owner);
  }

  lemma BindKeeps(s: State, key: Key, e: Pte)
    requires Inv(s) && Bindable(s, key, e)
    ensures s.tbl[LowOf(key)] in s.ram && e.ppn in s.ram && e.ppn < MAX_PPN
    ensures var t := Bind(s, key, e);
            && Inv(t) && Mapped(s.ram, s.leaf) && Mapped(t.ram, t.leaf)
            && Resident(t.ram, t.leaf) == Resident(s.ram, s.leaf)[key := s.ram[e.ppn]]
  {
    hide PoolOk, FreeOk, TreeOk, EntriesOk, LeafOk, ShareOk, CountOk, Refs, Mapped, Encode, CanShare, OneFrameEach;
    TableIn(s, LowOf(key));
    InvMapped(s);
    HeldIn(s, e.ppn);
    var t := Bind(s, key, e);
    SlotFacts(s, key, Encode(e));
    LeafBind(s.tbl, s.owner, s.leaf, key, e);
    ShareBind(s.leaf, key, e);
    CountBind(s.counts, s.owner, s.leaf, s.held, key, e);
    EntriesLeaf(s.kernel, s.ram, s.tbl, s.leaf, s.leaf[key := e], key);
    ResidentBind(t.ram, s.leaf, key, e);
  }

  lemma ResidentBind(ram: map<nat, Page>, leaf: map<Key, Pte>, key: Key, e: Pte)
    requires Mapped(ram, leaf) && e.ppn in ram
    ensures Mapped(ram, leaf[key := e]) && Resident(ram, leaf[key := e]) == Resident(ram, leaf)[key := ram[e.ppn]]
  {
  }

  lemma ResidentUnbind(ram: map<nat, Page>, leaf: map<Key, Pte>, key: Key)
    requires Mapped(ram, leaf)
    ensures Mapped(ram, leaf - {key}) && Resident(ram, leaf - {key}) == Resident(ram, leaf) - {key}
  {
  }

  lemma UnbindKeeps(s: State, key: Key)
    requires Inv(s) && key in s.leaf
    ensures LowOf(key) in s.tbl && s.tbl[LowOf(key)] in s.ram && key.v.k < 512
    ensures var t := Unbind(s, key);
            && Inv(t) && Mapped(s.ram, s.leaf) && Mapped(t.ram, t.leaf)
            && Resident(t.ram, t.leaf) == Resident(s.ram, s.leaf) - {key}
  {
    hide PoolOk, FreeOk, TreeOk, EntriesOk, LeafOk, ShareOk, CountOk, Refs, Mapped, Encode, OneFrameEach;
    LeafIn(s, key);
    InvMapped(s);
    SlotFacts(s, key, 0);
    var t := Unbind(s, key);
    LeafUnbind(s.tbl, s.owner, s.leaf, key);
    ShareUnbind(s.leaf, key);
    CountUnbind(s.counts, s.owner, s.leaf, s.held, key);
    EntriesLeaf(s.kernel, s.ram, s.tbl, s.leaf, s.leaf - {key}, key);
    ResidentUnbind(t.ram, s.leaf, key);
  }

  lemma ReflagKeeps(s: State, key: Key, flags: Flags)
    requires Inv(s) && key in s.leaf && flags.v && flags.u && !flags.w
    ensures LowOf(key) in s.tbl && s.tbl[LowOf(key)] in s.ram && key.v.k < 512 && s.leaf[key].ppn < MAX_PPN
    ensures Inv(Reflag(s, key, flags)) && SamePages(s, Reflag(s, key, flags))
  {
    hide PoolOk, FreeOk, TreeOk, EntriesOk, LeafOk, ShareOk, CountOk, Refs, Mapped, Encode, OneFrameEach;
    LeafIn(s, key);
    InvMapped(s);
    var e := Pte(s.leaf[key].ppn, flags);
    SlotFacts(s, key, Encode(e));
    var t := Reflag(s, key, flags);
    LeafBind(s.tbl, s.owner, s.leaf, key, e);
    ShareReflag(s.leaf, key, e);
    CountReflag(s.counts, s.owner, s.leaf, s.held, key, e);
    EntriesLeaf(s.kernel, s.ram, s.tbl, s.leaf, s.leaf[key := e], key);
    ResidentReflag(t.ram, s.leaf, key, e);
  }

  lemma ResidentReflag(ram: map<nat, Page>, leaf: map<Key, Pte>, key: Key, e: Pte)
    requires Mapped(ram, leaf) && key in leaf && leaf[key].ppn == e.ppn
    ensures Mapped(ram, leaf[key := e]) && Resident(ram, leaf[key := e]) == Resident(ram, leaf)
  {
  }

  lemma UnlinkKeeps(s: State, n: Node)
    requires Inv(s) && n in s.tbl && !n.Root? && NoChild(s.tbl, n) && NoLeafBelow(s.leaf, n)
    ensures NodeOk(n) && Parent(n) in s.tbl && s.tbl[Parent(n)] in s.ram && Head(s.free) < MAX_PPN
    ensures Inv(Unlink(s, n)) && SamePages(s, Unlink(s, n))
  {
    hide PoolOk, FreeOk, TreeOk, EntriesOk, LeafOk, ShareOk, CountOk, Refs, Mapped, NoChild, NoLeafBelow, OneFrameEach;
    TableIn(s, n);
    TableIn(s, Parent(n));
    HeadBound(s);
    InvMapped(s);
    var f, r := s.tbl[n], s.tbl[Parent(n)];
    var cleared, page := s.ram[r][Index(n) := 0], FreedPage(Head(s.free) * 4096);
    var ram1 := s.ram[r := cleared];
    PoolSame(s.kernel, s.ram, s.counts, s.owner, r, cleared, 0, Idle);
    PoolSame(s.kernel, ram1, s.counts, s.owner, f, page, 0, Idle);
    FreePush(s.free, s.owner, f);
    TreeInjective(s.tbl, s.owner);
    TreeShrink(s.tbl, s.owner, n, Idle);
    LeafShrink(s.tbl, s.owner, s.leaf, n);
    LeafSame(s.tbl - {n}, s.owner, s.leaf, f, Idle);
    EntriesUnlink(s.kernel, s.ram, s.tbl, s.leaf, n, page);
    CountFree(s.counts, s.owner, s.leaf, s.held, f);
    ResidentFrame(s.ram, s.leaf, r, cleared);
    ResidentFrame(ram1, s.leaf, f, page);
  }

  lemma UprootKeeps(s: State, p: Pid)
    requires Inv(s) && Root(p) in s.tbl && NoChild(s.tbl, Root(p))
    ensures Head(s.free) < MAX_PPN
    ensures Inv(Uproot(s, p)) && SamePages(s, Uproot(s, p))
  {
    assert NoLeafBelow(s.leaf, Root(p));
    hide PoolOk, FreeOk, TreeOk, EntriesOk, LeafOk, ShareOk, CountOk, Refs, Mapped, NoChild, NoLeafBelow, OneFrameEach;
    TableIn(s, Root(p));
    HeadBound(s);
    InvMapped(s);
    var n, f, page := Root(p), s.tbl[Root(p)], FreedPage(Head(s.free) * 4096);
    PoolSame(s.kernel, s.ram, s.counts, s.owner, f, page, 0, Idle);
    FreePush(s.free, s.owner, f);
    TreeInjective(s.tbl, s.owner);
    TreeShrink(s.tbl, s.owner, n, Idle);
    LeafShrink(s.tbl, s.owner, s.leaf, n);
    LeafSame(s.tbl - {n}, s.owner, s.leaf, f, Idle);
    EntriesUproot(s.kernel, s.ram, s.tbl, s.leaf, p, page);
    CountFree(s.counts, s.owner, s.leaf, s.held, f);
    ResidentFrame(s.ram, s.leaf, f, page);
  }
}
