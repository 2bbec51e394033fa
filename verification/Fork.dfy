/** `clone_user_space`, src/mm/vmm.rs: the recursive walk that gives a child the parent's pages,
    read-only and copy-on-write on both sides. */
module Fork {
  import opened Words
  import opened Sv39
  import opened Memory
  import opened MemorySteps
  import opened Machines
  import opened Pmm
  import opened Vmm

  /** The entry both sides get: writable pages lose W and are marked. */
  function Shared(e: Pte): Pte {
    if e.flags.w then Pte(e.ppn, e.flags.(w := false, cow := true)) else e
  }

  /** What sharing makes of the flags: not writable, marked if it was writable or marked, and otherwise the same. */
  ghost predicate MadeShared(f: Flags, g: Flags) {
    && !g.w && (g.cow <==> f.w || f.cow) && g.v == f.v && g.r == f.r && g.x == f.x && g.u == f.u
    && g.g == f.g && g.a == f.a && g.d == f.d && g.rsw == f.rsw
  }

  lemma SharedIs(e: Pte)
    ensures Shared(e).ppn == e.ppn && MadeShared(e.flags, Shared(e).flags)
  {
  }

  function Twin(n: Node, child: Pid): Node {
    match n
    case Root(_) => Root(child)
    case Mid(_, i) => Mid(child, i)
    case Low(_, i, j) => Low(child, i, j)
  }

  function Level(n: Node): nat {
    match n
    case Root(_) => 2
    case Mid(_, _) => 1
    case Low(_, _, _) => 0
  }

  /** Page `v` lies under table `n`. */
  predicate Under(n: Node, v: Vpn) {
    match n
    case Root(_) => true
    case Mid(_, i) => v.i == i
    case Low(_, i, j) => v.i == i && v.j == j
  }

  /** Page `v` lies under table `n` at an index below `c`. */
  predicate Done(n: Node, c: nat, v: Vpn) {
    Under(n, v) && IndexAt(v, Level(n)) < c
  }

  predicate At(n: Node, idx: nat, v: Vpn) {
    Under(n, v) && IndexAt(v, Level(n)) == idx
  }

  function SharedEntry(e: Option<Pte>): Option<Pte> {
    match e
    case None => None
    case Some(pte) => Some(Shared(pte))
  }

  /** What fork makes of a page: the parent's becomes shared, and the child gets the same entry. */
  function ForkedEntry(before: map<Key, Pte>, parent: Pid, child: Pid, key: Key): Option<Pte> {
    if key.p == parent || key.p == child then SharedEntry(Lookup(before, Key(parent, key.v))) else Lookup(before, key)
  }

  /** Leaf maps before and after the entries of `n` below index `c` were cloned. */
  ghost predicate Forked(before: map<Key, Pte>, after: map<Key, Pte>, parent: Pid, child: Pid, n: Node, c: nat) {
    forall key: Key :: VpnOk(key.v) ==>
      Lookup(after, key) == if Done(n, c, key.v) then ForkedEntry(before, parent, child, key) else Lookup(before, key)
  }

  /** The same for index `idx` alone. */
  ghost predicate ForkedAt(before: map<Key, Pte>, after: map<Key, Pte>, parent: Pid, child: Pid, n: Node, idx: nat) {
    forall key: Key :: VpnOk(key.v) ==>
      Lookup(after, key) == if At(n, idx, key.v) then ForkedEntry(before, parent, child, key) else Lookup(before, key)
  }

  /** Every entry is as before or as fork makes it: what an interrupted clone leaves. */
  ghost predicate PartlyForked(before: map<Key, Pte>, after: map<Key, Pte>, parent: Pid, child: Pid) {
    forall key: Key :: VpnOk(key.v) ==>
      Lookup(after, key) == Lookup(before, key) || Lookup(after, key) == ForkedEntry(before, parent, child, key)
  }

  lemma ForkedNothing(leaf: map<Key, Pte>, parent: Pid, child: Pid, n: Node, c: nat)
    requires c <= if n.Root? then 4 else 0
    ensures Forked(leaf, leaf, parent, child, n, c)
  {
  }

  lemma ForkedGrow(l0: map<Key, Pte>, l1: map<Key, Pte>, l2: map<Key, Pte>, parent: Pid, child: Pid, n: Node, c: nat)
    requires Forked(l0, l1, parent, child, n, c) && ForkedAt(l1, l2, parent, child, n, c)
    ensures Forked(l0, l2, parent, child, n, c + 1)
  {
  }

  lemma ForkedAtIsPartly(l0: map<Key, Pte>, l1: map<Key, Pte>, parent: Pid, child: Pid, n: Node, idx: nat)
    requires ForkedAt(l0, l1, parent, child, n, idx)
    ensures PartlyForked(l0, l1, parent, child)
  {
  }

  lemma PartlyTrans(l0: map<Key, Pte>, l1: map<Key, Pte>, l2: map<Key, Pte>, parent: Pid, child: Pid)
    requires PartlyForked(l0, l1, parent, child) && PartlyForked(l1, l2, parent, child)
    ensures PartlyForked(l0, l2, parent, child)
  {
    forall key: Key | VpnOk(key.v)
      ensures Lookup(l2, key) == Lookup(l0, key) || Lookup(l2, key) == ForkedEntry(l0, parent, child, key)
    {
      assert Lookup(l1, Key(parent, key.v)) == Lookup(l0, Key(parent, key.v))
          || Lookup(l1, Key(parent, key.v)) == SharedEntry(Lookup(l0, Key(parent, key.v)));
    }
  }

  /** No page under the index: nothing to do there. */
  lemma ForkedSkip(leaf: map<Key, Pte>, parent: Pid, child: Pid, n: Node, idx: nat)
    requires forall v :: VpnOk(v) && At(n, idx, v) ==> Key(parent, v) !in leaf && Key(child, v) !in leaf
    ensures ForkedAt(leaf, leaf, parent, child, n, idx)
  {
  }

  /** One leaf shared. */
  lemma ForkedLeaf(leaf: map<Key, Pte>, parent: Pid, child: Pid, n: Node, k: nat)
    requires parent != child && n.Low? && n.p == parent
    requires Slot(n, k) in leaf
    ensures ForkedAt(leaf,
      leaf[Slot(n, k) := Shared(leaf[Slot(n, k)])][Slot(Twin(n, child), k) := Shared(leaf[Slot(n, k)])],
                     parent, child, n, k)
  {
  }

  /** One subtree cloned. */
  lemma ForkedTree(l0: map<Key, Pte>, l1: map<Key, Pte>, parent: Pid, child: Pid, n: Node, c: nat)
    requires !n.Low? && Forked(l0, l1, parent, child, Child(n, c), 512)
    ensures ForkedAt(l0, l1, parent, child, n, c)
  {
    forall v | VpnOk(v) ensures At(n, c, v) <==> Done(Child(n, c), 512, v) {
    }
  }

  // ---- the tables the child gets ----

  /** Table `t` is the one at index `idx` of `n`, or lies under it. */
  predicate Within(t: Node, n: Node, idx: nat) {
    && !n.Low? && !t.Root? && (t == Child(n, idx) || (t.Low? && Parent(t) == Child(n, idx)))
  }

  predicate Below(t: Node, n: Node) {
    && t.p == n.p && !t.Root? && (n.Root? || (n.Mid? && t.Low? && t.i == n.i))
  }

  ghost predicate GrewWithin(before: map<Node, nat>, after: map<Node, nat>, n: Node, idx: nat) {
    && (forall t :: t in before ==> t in after && after[t] == before[t])
    && (forall t :: t in after && t !in before ==> Within(t, n, idx))
  }

  ghost predicate GrewBelow(before: map<Node, nat>, after: map<Node, nat>, n: Node) {
    && (forall t :: t in before ==> t in after && after[t] == before[t])
    && (forall t :: t in after && t !in before ==> Below(t, n))
  }

  // ---- how many frames a clone takes ----

  /** Table `t` is under index below `c` of table `n`. */
  predicate TableDone(n: Node, c: nat, t: Node) {
    && t.p == n.p && !t.Root? && !n.Low?
    && (if n.Root? then t.i < c else t.Low? && t.i == n.i && t.j < c)
  }

  lemma NoTablesWithin(s: State, n: Node, idx: nat)
    requires Inv(s) && (n.Low? || Child(n, idx) !in s.tbl)
    ensures forall t :: t in s.tbl ==> !Within(t, n, idx)
  {
    hide PoolOk, FreeOk, EntriesOk, LeafOk, ShareOk, CountOk;
  }

  lemma NodesOk(s: State)
    requires Inv(s)
    ensures forall t :: t in s.tbl ==> NodeOk(t)
  {
  }

  /** How many tables there are under `n` at indices below `c`. */
  ghost function Needs(tbl: map<Node, nat>, n: Node, c: nat): nat {
    |set t | t in tbl && TableDone(n, c, t)|
  }

  /** How many there are at index `idx`. */
  ghost function NeedsAt(tbl: map<Node, nat>, n: Node, idx: nat): nat {
    |set t | t in tbl && Within(t, n, idx)|
  }

  lemma NeedsNext(tbl: map<Node, nat>, n: Node, c: nat)
    ensures Needs(tbl, n, c + 1) == Needs(tbl, n, c) + NeedsAt(tbl, n, c)
  {
    var a, b := set t | t in tbl && TableDone(n, c, t), set t | t in tbl && Within(t, n, c);
    assert forall t :: TableDone(n, c + 1, t) <==> TableDone(n, c, t) || Within(t, n, c);
    assert (set t | t in tbl && TableDone(n, c + 1, t)) == a + b && a * b == {};
  }

  lemma {:induction false} NeedsMore(tbl: map<Node, nat>, n: Node, c: nat, d: nat)
    requires c <= d
    ensures Needs(tbl, n, c) <= Needs(tbl, n, d)
    decreases d - c
  {
    if c < d {
      NeedsNext(tbl, n, c);
      NeedsMore(tbl, n, c + 1, d);
    }
  }

  /** New tables of the child do not change what the parent has. */
  lemma NeedsKept(t0: map<Node, nat>, t1: map<Node, nat>, n: Node, child: Pid, c: nat)
    requires GrewBelow(t0, t1, Twin(n, child)) && child != n.p
    ensures NeedsAt(t1, n, c) == NeedsAt(t0, n, c)
  {
    assert (set t | t in t1 && Within(t, n, c)) == set t | t in t0 && Within(t, n, c);
  }

  /** No table at the index, so no frame is needed there. */
  lemma NeedsNone(s: State, n: Node, idx: nat)
    requires Inv(s) && (n.Low? || Child(n, idx) !in s.tbl)
    ensures NeedsAt(s.tbl, n, idx) == 0
  {
    hide Inv;
    NoTablesWithin(s, n, idx);
    assert (set t | t in s.tbl && Within(t, n, idx)) == {};
  }

  /** A table at the index: one frame for it, and those for the tables below. */
  lemma NeedsTree(s: State, t1: map<Node, nat>, n: Node, idx: nat)
    requires Inv(s) && !n.Low? && Child(n, idx) in s.tbl
    requires forall t: Node :: t.p == n.p ==> (t in t1 <==> t in s.tbl)
    ensures NeedsAt(s.tbl, n, idx) == 1 + Needs(t1, Child(n, idx), 512)
  {
    hide Inv;
    NodesOk(s);
    var c := Child(n, idx);
    forall t: Node | NodeOk(t) ensures Within(t, n, idx) <==> t == c || TableDone(c, 512, t) {
    }
    var below := set t | t in t1 && TableDone(c, 512, t);
    assert (set t | t in s.tbl && Within(t, n, idx)) == {c} + below;
  }

  /** No process has tables in the kernel's part of its root. */
  lemma NeedsStart(s: State, n: Node)
    requires Inv(s)
    ensures Needs(s.tbl, n, if n.Root? then 4 else 0) == 0
  {
    hide Inv;
    NodesOk(s);
    assert (set t | t in s.tbl && TableDone(n, if n.Root? then 4 else 0, t)) == {};
  }

  /** The child has nothing yet at indices of `n` from `c` on. */
  ghost predicate Blank(tbl: map<Node, nat>, leaf: map<Key, Pte>, n: Node, child: Pid, c: nat) {
    && (!n.Low? ==> forall idx: nat :: idx >= c ==> Child(Twin(n, child), idx) !in tbl)
    && (forall v :: VpnOk(v) && Under(n, v) && IndexAt(v, Level(n)) >= c ==> Key(child, v) !in leaf)
  }

  lemma BlankNext(l0: map<Key, Pte>, l1: map<Key, Pte>, t0: map<Node, nat>, t1: map<Node, nat>, n: Node, parent: Pid,
                  child: Pid, c: nat)
    requires Blank(t0, l0, n, child, c) && ForkedAt(l0, l1, parent, child, n, c)
    requires GrewWithin(t0, t1, Twin(n, child), c)
    ensures Blank(t1, l1, n, child, c + 1)
  {
    forall v | VpnOk(v) && Under(n, v) && IndexAt(v, Level(n)) >= c + 1 ensures Key(child, v) !in l1 {
      assert Lookup(l1, Key(child, v)) == Lookup(l0, Key(child, v));
    }
  }

  /** Every page of the process can be read or executed, so level-0 entries look like leaves. */
  ghost predicate Readable(leaf: map<Key, Pte>, p: Pid) {
    forall key :: key in leaf && key.p == p ==> leaf[key].flags.r || leaf[key].flags.x
  }

  lemma ReadableAfter(l0: map<Key, Pte>, l1: map<Key, Pte>, parent: Pid, child: Pid)
    requires PartlyForked(l0, l1, parent, child) && Readable(l0, parent)
    requires forall key :: key in l1 ==> VpnOk(key.v)
    ensures Readable(l1, parent)
  {
    forall key | key in l1 && key.p == parent ensures l1[key].flags.r || l1[key].flags.x {
      assert Lookup(l1, key) == Lookup(l0, key) || Lookup(l1, key) == ForkedEntry(l0, parent, child, key);
    }
  }

  /** Whatever the child maps, the parent maps at the same address. */
  ghost predicate Mirror(leaf: map<Key, Pte>, parent: Pid, child: Pid) {
    forall v :: VpnOk(v) && Key(child, v) in leaf ==>
      Key(parent, v) in leaf && leaf[Key(parent, v)].ppn == leaf[Key(child, v)].ppn
  }

  lemma MirrorAfter(l0: map<Key, Pte>, l1: map<Key, Pte>, parent: Pid, child: Pid)
    requires PartlyForked(l0, l1, parent, child) && Mirror(l0, parent, child)
    ensures Mirror(l1, parent, child)
  {
    forall v | VpnOk(v) && Key(child, v) in l1
      ensures Key(parent, v) in l1 && l1[Key(parent, v)].ppn == l1[Key(child, v)].ppn
    {
      assert Lookup(l1, Key(child, v)) == Lookup(l0, Key(child, v))
          || Lookup(l1, Key(child, v)) == ForkedEntry(l0, parent, child, Key(child, v));
      assert Lookup(l1, Key(parent, v)) == Lookup(l0, Key(parent, v))
          || Lookup(l1, Key(parent, v)) == ForkedEntry(l0, parent, child, Key(parent, v));
    }
  }

  // ---- counts never saturate ----

  lemma {:induction false} InjectionBound(keys: set<Key>, pids: set<Pid>)
    requires forall a :: a in keys ==> a.p in pids
    requires forall a, b :: a in keys && b in keys && a.p == b.p ==> a == b
    ensures |keys| <= |pids|
  {
    if keys != {} {
      var a :| a in keys;
      InjectionBound(keys - {a}, pids - {a.p});
    }
  }

  /** A frame has at most one reference per process, besides those kernel code holds. */
  lemma RefsBound(s: State, f: nat, pids: set<Pid>)
    requires Inv(s) && f in s.counts && (forall p :: Root(p) in s.tbl ==> p in pids)
    ensures s.counts[f] <= |pids| + |s.held| + 1
  {
    forall a | a in Refs(s.leaf, f) ensures a.p in pids {
      TableIn(s, LowOf(a));
      TableIn(s, Mid(a.p, a.v.i));
    }
    InjectionBound(Refs(s.leaf, f), pids);
    assert s.held[f] <= |s.held| by { HeldBound(s.held, f); }
    PoolKeys(s);
  }

  lemma HeldBound(held: multiset<nat>, f: nat)
    ensures held[f] <= |held|
  {
    var rest := held[f := 0];
    assert held == rest + multiset{}[f := held[f]];
  }

  // ---- the walk ----

  /** The parent's page shared with the child: marked on both sides, one more reference. */
  lemma ShareLeaf(s: State, key: Key, child: Pid) returns (t: State)
    requires Inv(s) && key in s.leaf && child != key.p
    requires Key(child, key.v) !in s.leaf && LowOf(Key(child, key.v)) in s.tbl && Mirror(s.leaf, key.p, child)
    ensures LowOf(key) in s.tbl && s.tbl[LowOf(key)] in s.ram && s.tbl[LowOf(Key(child, key.v))] in s.ram
    ensures s.tbl[LowOf(key)] !in s.free && s.tbl[LowOf(Key(child, key.v))] !in s.free
    ensures VpnOk(key.v) && s.leaf[key].ppn < MAX_PPN && s.leaf[key].ppn in s.counts
    ensures Inv(t) && DataKept(s.owner, s.ram, t.owner, t.ram)
    ensures t.kernel == s.kernel && t.free == s.free && t.tbl == s.tbl && t.held == s.held
    ensures t.counts == s.counts[s.leaf[key].ppn := s.counts[s.leaf[key].ppn] + 1]
    ensures t.leaf == s.leaf[key := Shared(s.leaf[key])][Key(child, key.v) := Shared(s.leaf[key])]
    ensures var e, lp, lc := s.leaf[key], s.tbl[LowOf(key)], s.tbl[LowOf(Key(child, key.v))];
      var ram1 := if e.flags.w then s.ram[lp := s.ram[lp][key.v.k := Encode(Shared(e))]] else s.ram;
      lc in ram1 && t.ram == ram1[lc := ram1[lc][key.v.k := Encode(Shared(e))]]
  {
    hide PoolOk, FreeOk, TreeOk, EntriesOk, LeafOk, ShareOk, CountOk, Encode, Mapped, Resident, Refs;
    var e, ckey := s.leaf[key], Key(child, key.v);
    LeafIn(s, key);
    TableIn(s, LowOf(key));
    TableIn(s, LowOf(ckey));
    OffList(s, s.tbl[LowOf(key)]);
    OffList(s, s.tbl[LowOf(ckey)]);
    var u := s;
    if e.flags.w {
      ReflagKeeps(s, key, Shared(e).flags);
      u := Reflag(s, key, Shared(e).flags);
      assert u.leaf[key] == Shared(e);
    }
    assert u.leaf == s.leaf[key := Shared(e)];
    RetainKeeps(u, e.ppn);
    var r := Retain(u, e.ppn);
    ChildMayShare(s, u, key, child);
    BindKeeps(r, ckey, Shared(e));
    t := Bind(r, ckey, Shared(e));
    assert t.held == s.held;
    PoolKeys(s);
    forall f | f in s.owner && s.owner[f] == Data ensures f != s.tbl[LowOf(key)] && f != s.tbl[LowOf(ckey)] {
    }
  }

  lemma ChildMayShare(s: State, u: State, key: Key, child: Pid)
    requires Inv(s) && Inv(u) && key in s.leaf && child != key.p && Key(child, key.v) !in s.leaf
    requires Mirror(s.leaf, key.p, child)
    requires u.leaf == s.leaf[key := Shared(s.leaf[key])]
    ensures CanShare(u.leaf, Key(child, key.v), Shared(s.leaf[key]))
  {
    hide PoolOk, FreeOk, TreeOk, EntriesOk, CountOk;
    forall a | a in Refs(u.leaf, s.leaf[key].ppn) ensures a.p != child && !u.leaf[a].flags.w {
      LeafIn(u, a);
      assert a == Key(a.p, a.v);
    }
  }

  /** What a clone step may assume of the machine. */
  ghost predicate Ready(m: Machine, parent: Pid, child: Pid, n: Node, parentPa: nat, childPa: nat)
    reads m
  {
    && m.Valid() && parent != child && n.p == parent
    && n in m.tbl && m.tbl[n] == parentPa
    && Twin(n, child) in m.tbl && m.tbl[Twin(n, child)] == childPa
    && Readable(m.leaf, parent) && Mirror(m.leaf, parent, child)
    && |m.roots| + |m.held| + 1 < COUNT_MAX
  }

  /** Both pages have the frame the first had, and its flags made shared. */
  ghost predicate SharedBy(before: map<Key, Pte>, after: map<Key, Pte>, key: Key, other: Key) {
    && key in before && key in after && other in after
    && after[key].ppn == before[key].ppn && MadeShared(before[key].flags, after[key].flags)
    && after[other].ppn == before[key].ppn && MadeShared(before[key].flags, after[other].flags)
  }

  lemma ForkedBoth(before: map<Key, Pte>, after: map<Key, Pte>, parent: Pid, child: Pid, n: Node, k: nat)
    requires n.Low? && n.p == parent != child && k < 512 && Slot(n, k) in before
    requires VpnOk(Slot(n, k).v) && ForkedAt(before, after, parent, child, n, k)
    ensures SharedBy(before, after, Slot(n, k), Slot(Twin(n, child), k))
  {
    var key := Slot(n, k);
    assert Lookup(after, key) == ForkedEntry(before, parent, child, key);
    assert Lookup(after, Key(child, key.v)) == ForkedEntry(before, parent, child, Key(child, key.v));
  }

  /** One user page: mark it on both sides and count the new reference. */
  method CloneLeaf(m: Machine, parent: Pid, child: Pid, ghost n: Node, parentPa: nat, childPa: nat, k: nat)
    requires Ready(m, parent, child, n, parentPa, childPa) && n.Low? && k < 512
    requires Slot(n, k) in m.leaf && Slot(Twin(n, child), k) !in m.leaf
    modifies m`ram, m`counts, m`owner, m`tbl, m`leaf, m`held
    ensures m.Valid() && m.tbl == old(m.tbl) && m.held == old(m.held)
    ensures DataKept(old(m.owner), old(m.ram), m.owner, m.ram)
    ensures ForkedAt(old(m.leaf), m.leaf, parent, child, n, k)
    ensures SharedBy(old(m.leaf), m.leaf, Slot(n, k), Slot(Twin(n, child), k))
  {
    hide Inv, Linked, Encode, Decode, Readable, Mirror, DataKept, ForkedAt, SharedBy;
    ghost var key := Slot(n, k);
    assert key.p == parent && Key(child, key.v) == Slot(Twin(n, child), k);
    LeafReads(m.St(), key);
    var e := Decode(m.ram[parentPa][k]);
    ghost var t := ShareLeaf(m.St(), key, child);
    RefsBound(m.St(), e.ppn, m.roots.Keys);
    if e.flags.w {
      LinkedFrame(m.ram, m.free, parentPa, m.ram[parentPa][k := Encode(Shared(e))]);
      m.ram := m.ram[parentPa := m.ram[parentPa][k := Encode(Shared(e))]];
    }
    IncrRef(m, e.ppn);
    assert m.counts == t.counts;
    LinkedFrame(m.ram, m.free, childPa, m.ram[childPa][k := Encode(Shared(e))]);
    m.ram := m.ram[childPa := m.ram[childPa][k := Encode(Shared(e))]];
    m.Settle(t);
    ForkedLeaf(old(m.leaf), parent, child, n, k);
    ForkedBoth(old(m.leaf), m.leaf, parent, child, n, k);
  }

  /** An absent entry: the process has no page there. */
  lemma NothingAt(s: State, n: Node, idx: nat)
    requires Inv(s) && n in s.tbl && InTable(n, idx)
    requires if n.Low? then Slot(n, idx) !in s.leaf else Child(n, idx) !in s.tbl
    ensures forall v :: VpnOk(v) && At(n, idx, v) ==> Key(n.p, v) !in s.leaf
  {
    hide PoolOk, FreeOk, TreeOk, EntriesOk, LeafOk, ShareOk, CountOk;
    forall v | VpnOk(v) && At(n, idx, v) ensures Key(n.p, v) !in s.leaf {
      if n.Low? {
        assert Slot(n, idx) == Key(n.p, v);
      } else {
        assert NodeAt(n.p, v, Level(n) - 1) == Child(n, idx);
        NotBelow(s, n.p, v, Level(n));
      }
    }
  }

  /** The child's slot is still zero, so writing zero there changes nothing. */
  lemma ZeroAgain(s: State, n: Node, child: Pid, idx: nat)
    requires Inv(s) && n in s.tbl && Twin(n, child) in s.tbl && InTable(n, idx) && Blank(s.tbl, s.leaf, n, child, idx)
    ensures s.tbl[Twin(n, child)] in s.ram
    ensures var r := s.tbl[Twin(n, child)]; s.ram[r := s.ram[r][idx := 0]] == s.ram
    ensures forall v :: VpnOk(v) && At(n, idx, v) ==> Key(child, v) !in s.leaf
  {
    hide PoolOk, FreeOk, TreeOk, EntriesOk, LeafOk, ShareOk, CountOk, Decode;
    TableIn(s, n);
    BlankSlot(s.tbl, s.leaf, n, child, idx);
    EntryReads(s, Twin(n, child), idx);
    assert s.ram[s.tbl[Twin(n, child)]][idx := 0] == s.ram[s.tbl[Twin(n, child)]];
  }

  /** A table just added has nothing under it. */
  lemma BlankNew(s: State, n: Node, child: Pid, idx: nat, f: nat)
    requires Inv(s) && !n.Low? && Child(Twin(n, child), idx) !in s.tbl && InTable(n, idx)
    requires Blank(s.tbl, s.leaf, n, child, idx)
    ensures Blank(s.tbl[Child(Twin(n, child), idx) := f], s.leaf, Child(n, idx), child, 0)
  {
    hide PoolOk, FreeOk, TreeOk, EntriesOk, LeafOk, ShareOk, CountOk;
    var c := Child(Twin(n, child), idx);
    assert Twin(Child(n, idx), child) == c;
    if !c.Low? {
      forall j: nat ensures Child(c, j) !in s.tbl {
        if Child(c, j) in s.tbl {
          TableIn(s, Child(c, j));
        }
      }
    }
    forall v | VpnOk(v) && Under(Child(n, idx), v) ensures Key(child, v) !in s.leaf {
      assert Under(n, v) && IndexAt(v, Level(n)) == idx;
    }
  }

  lemma WithinBelow(t0: map<Node, nat>, t1: map<Node, nat>, t2: map<Node, nat>, n: Node, idx: nat, f: nat)
    requires !n.Low? && t1 == t0[Child(n, idx) := f] && Child(n, idx) !in t0 && GrewBelow(t1, t2, Child(n, idx))
    ensures GrewWithin(t0, t2, n, idx)
  {
  }

  lemma KeysOk(s: State)
    requires Inv(s)
    ensures forall key :: key in s.leaf ==> VpnOk(key.v)
  {
  }

  lemma DataTrans(o0: map<nat, Owner>, r0: map<nat, Page>, o1: map<nat, Owner>, r1: map<nat, Page>, o2: map<nat, Owner>,
                  r2: map<nat, Page>)
    requires DataKept(o0, r0, o1, r1) && DataKept(o1, r1, o2, r2)
    ensures DataKept(o0, r0, o2, r2)
  {
  }

  /** One entry of a table: nothing, a subtree, or a page. */
  method CloneEntry(m: Machine, parent: Pid, child: Pid, ghost n: Node, parentPa: nat, childPa: nat, level: nat,
                    idx: nat) returns (ok: bool)
    requires Ready(m, parent, child, n, parentPa, childPa) && level == Level(n) && InTable(n, idx)
    requires Blank(m.tbl, m.leaf, n, child, idx)
    modifies m`ram, m`head, m`counts, m`free, m`owner, m`tbl, m`leaf, m`held
    ensures m.Valid() && m.held == old(m.held) && GrewWithin(old(m.tbl), m.tbl, Twin(n, child), idx)
    ensures DataKept(old(m.owner), old(m.ram), m.owner, m.ram)
    ensures PartlyForked(old(m.leaf), m.leaf, parent, child)
    ensures ok ==> ForkedAt(old(m.leaf), m.leaf, parent, child, n, idx)
    ensures ok <==> NeedsAt(old(m.tbl), n, idx) <= |old(m.free)|
    ensures ok ==> |m.free| + NeedsAt(old(m.tbl), n, idx) == |old(m.free)|
    decreases level, 0
  {
    hide Inv, Linked, Encode, Decode, Readable, Mirror, DataKept, ForkedAt, PartlyForked, Blank, Forked, Resident, At,
      Under, NeedsAt;
    EntryReads(m.St(), n, idx);
    DataStays(m.St());
    var entry := m.ram[parentPa][idx];
    if entry == 0 {
      NothingAt(m.St(), n, idx);
      NeedsNone(m.St(), n, idx);
      ZeroAgain(m.St(), n, child, idx);
      m.ram := m.ram[childPa := m.ram[childPa][idx := 0]];
      ForkedSkip(m.leaf, parent, child, n, idx);
      ForkedAtIsPartly(m.leaf, m.leaf, parent, child, n, idx);
      return true;
    }
    var e := Decode(entry);
    LeafLooksLikeOne(m.St(), n, idx, parent);
    if !(e.flags.r || e.flags.x) {
      assert level > 0;
      ok := CloneTable(m, parent, child, n, parentPa, childPa, level, idx, e.ppn);
    } else {
      BlankSlot(m.tbl, m.leaf, n, child, idx);
      NeedsNone(m.St(), n, idx);
      CloneLeaf(m, parent, child, n, parentPa, childPa, idx);
      ForkedAtIsPartly(old(m.leaf), m.leaf, parent, child, n, idx);
      ok := true;
    }
  }

  lemma BlankSlot(tbl: map<Node, nat>, leaf: map<Key, Pte>, n: Node, child: Pid, idx: nat)
    requires Blank(tbl, leaf, n, child, idx) && NodeOk(n) && InTable(n, idx)
    ensures if n.Low? then Slot(Twin(n, child), idx) !in leaf else Child(Twin(n, child), idx) !in tbl
  {
    if n.Low? {
      var v := Vpn(n.i, n.j, idx);
      assert VpnOk(v) && Under(n, v);
      assert Slot(Twin(n, child), idx) == Key(child, v);
    }
  }

  lemma LeafLooksLikeOne(s: State, n: Node, idx: nat, p: Pid)
    requires Inv(s) && n in s.tbl && n.p == p && InTable(n, idx) && Readable(s.leaf, p)
    ensures NodeOk(n)
    ensures n.Low? && Slot(n, idx) in s.leaf ==> s.leaf[Slot(n, idx)].flags.r || s.leaf[Slot(n, idx)].flags.x
  {
  }

  /** A subtree: a fresh table for the child, then the level below. */
  method CloneTable(m: Machine, parent: Pid, child: Pid, ghost n: Node, parentPa: nat, childPa: nat, level: nat,
                    idx: nat, next: nat) returns (ok: bool)
    requires Ready(m, parent, child, n, parentPa, childPa) && level == Level(n) && level > 0 && InTable(n, idx)
    requires Blank(m.tbl, m.leaf, n, child, idx) && Child(n, idx) in m.tbl && m.tbl[Child(n, idx)] == next
    modifies m`ram, m`head, m`counts, m`free, m`owner, m`tbl, m`leaf, m`held
    ensures m.Valid() && m.held == old(m.held) && GrewWithin(old(m.tbl), m.tbl, Twin(n, child), idx)
    ensures DataKept(old(m.owner), old(m.ram), m.owner, m.ram)
    ensures PartlyForked(old(m.leaf), m.leaf, parent, child)
    ensures ok ==> ForkedAt(old(m.leaf), m.leaf, parent, child, n, idx)
    ensures ok <==> NeedsAt(old(m.tbl), n, idx) <= |old(m.free)|
    ensures ok ==> |m.free| + NeedsAt(old(m.tbl), n, idx) == |old(m.free)|
    decreases level - 1, 2
  {
    hide Inv, Linked, Readable, Mirror, DataKept, ForkedAt, PartlyForked, Blank, Forked, Resident, GrewWithin,
      GrewBelow, Needs, NeedsAt;
    ghost var s := m.St();
    TableIn(s, n);
    BlankSlot(m.tbl, m.leaf, n, child, idx);
    Unchanged(m.tbl, m.leaf, parent, child, n, idx);
    NeedsTree(s, m.tbl, n, idx);
    var new_page := AddTable(m, Twin(n, child), childPa, idx);
    if new_page.None? {
      return false;
    }
    BlankNew(s, n, child, idx, new_page.value);
    assert Twin(Child(n, idx), child) == Child(Twin(n, child), idx);
    ghost var s1 := m.St();
    NeedsTree(s, s1.tbl, n, idx);
    ok := CloneLevel(m, parent, child, Child(n, idx), next, new_page.value, level - 1);
    WithinBelow(s.tbl, s1.tbl, m.tbl, Twin(n, child), idx, new_page.value);
    DataTrans(s.owner, s.ram, s1.owner, s1.ram, m.owner, m.ram);
    if ok {
      ForkedTree(s.leaf, m.leaf, parent, child, n, idx);
    }
  }

  lemma Unchanged(tbl: map<Node, nat>, leaf: map<Key, Pte>, parent: Pid, child: Pid, n: Node, idx: nat)
    ensures GrewWithin(tbl, tbl, Twin(n, child), idx) && PartlyForked(leaf, leaf, parent, child)
    ensures GrewBelow(tbl, tbl, Twin(n, child))
  {
  }

  lemma WithinToBelow(t0: map<Node, nat>, t1: map<Node, nat>, t2: map<Node, nat>, n: Node, idx: nat)
    requires GrewBelow(t0, t1, n) && GrewWithin(t1, t2, n, idx)
    ensures GrewBelow(t0, t2, n)
  {
  }

  /** All entries of a table. */
  method CloneLevel(m: Machine, parent: Pid, child: Pid, ghost n: Node, parentPa: nat, childPa: nat,
                    level: nat) returns (ok: bool)
    requires Ready(m, parent, child, n, parentPa, childPa) && level == Level(n)
    requires Blank(m.tbl, m.leaf, n, child, if level == 2 then 4 else 0)
    modifies m`ram, m`head, m`counts, m`free, m`owner, m`tbl, m`leaf, m`held
    ensures m.Valid() && m.held == old(m.held) && GrewBelow(old(m.tbl), m.tbl, Twin(n, child))
    ensures DataKept(old(m.owner), old(m.ram), m.owner, m.ram)
    ensures PartlyForked(old(m.leaf), m.leaf, parent, child)
    ensures ok ==> Forked(old(m.leaf), m.leaf, parent, child, n, 512)
    ensures ok <==> Needs(old(m.tbl), n, 512) <= |old(m.free)|
    ensures ok ==> |m.free| + Needs(old(m.tbl), n, 512) == |old(m.free)|
    decreases level, 1
  {
    hide Inv, Linked, Readable, Mirror, DataKept, ForkedAt, PartlyForked, Blank, Forked, Resident, GrewWithin,
      GrewBelow, Needs, NeedsAt;
    var idx := if level == 2 then 4 else 0;
    Unchanged(m.tbl, m.leaf, parent, child, n, idx);
    ForkedNothing(m.leaf, parent, child, n, idx);
    DataStays(m.St());
    NeedsStart(m.St(), n);
    while idx < 512
      invariant (if level == 2 then 4 else 0) <= idx <= 512
      invariant Ready(m, parent, child, n, parentPa, childPa) && m.held == old(m.held)
      invariant Blank(m.tbl, m.leaf, n, child, idx) && GrewBelow(old(m.tbl), m.tbl, Twin(n, child))
      invariant DataKept(old(m.owner), old(m.ram), m.owner, m.ram)
      invariant PartlyForked(old(m.leaf), m.leaf, parent, child)
      invariant Forked(old(m.leaf), m.leaf, parent, child, n, idx)
      invariant |m.free| + Needs(old(m.tbl), n, idx) == |old(m.free)|
    {
      ghost var s := m.St();
      NeedsNext(old(m.tbl), n, idx);
      NeedsMore(old(m.tbl), n, idx + 1, 512);
      NeedsKept(old(m.tbl), m.tbl, n, child, idx);
      ok := CloneEntry(m, parent, child, n, parentPa, childPa, level, idx);
      DataTrans(old(m.owner), old(m.ram), s.owner, s.ram, m.owner, m.ram);
      PartlyTrans(old(m.leaf), s.leaf, m.leaf, parent, child);
      WithinToBelow(old(m.tbl), s.tbl, m.tbl, Twin(n, child), idx);
      if !ok {
        return false;
      }
      ForkedGrow(old(m.leaf), s.leaf, m.leaf, parent, child, n, idx);
      BlankNext(s.leaf, m.leaf, s.tbl, m.tbl, n, parent, child, idx);
      StillReady(m, s, parent, child, n, idx);
      idx := idx + 1;
    }
    return true;
  }

  lemma StillReady(m: Machine, s: State, parent: Pid, child: Pid, n: Node, idx: nat)
    requires m.Valid() && PartlyForked(s.leaf, m.leaf, parent, child) && Readable(s.leaf, parent)
    requires Mirror(s.leaf, parent, child)
    requires GrewWithin(s.tbl, m.tbl, Twin(n, child), idx) && n in s.tbl && Twin(n, child) in s.tbl
    ensures Readable(m.leaf, parent) && Mirror(m.leaf, parent, child)
    ensures n in m.tbl && m.tbl[n] == s.tbl[n] && Twin(n, child) in m.tbl
    ensures m.tbl[Twin(n, child)] == s.tbl[Twin(n, child)]
  {
    hide Inv, Linked, Readable, Mirror, PartlyForked;
    KeysOk(m.St());
    ReadableAfter(s.leaf, m.leaf, parent, child);
    MirrorAfter(s.leaf, m.leaf, parent, child);
  }
}
