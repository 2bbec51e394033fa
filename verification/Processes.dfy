/** `sys_fork` and `cleanup_process`, src/posix/spawn.rs: making and ending address spaces. */
module Processes {
  import opened Words
  import opened Sv39
  import opened Memory
  import opened MemorySteps
  import opened Machines
  import opened Pmm
  import opened Vmm
  import opened Fork
  import opened Teardown
  import opened SwapCodec
  import opened Views
  import opened Swap

  // ---- the tables determine the allocator ----

  /** The same pages map the same frames. */
  ghost predicate SameFrames(l0: map<Key, Pte>, l1: map<Key, Pte>) {
    && (forall key :: key in l1 <==> key in l0)
    && (forall key :: key in l0 ==> l1[key].ppn == l0[key].ppn)
  }

  lemma SameRefs(l0: map<Key, Pte>, l1: map<Key, Pte>, f: nat)
    requires SameFrames(l0, l1)
    ensures Refs(l0, f) == Refs(l1, f)
  {
  }

  lemma SameOwner(s: State, t: State, f: nat)
    requires Inv(s) && Inv(t) && t.tbl == s.tbl && t.held == s.held && BootKept(s.owner, t.owner)
    requires SameFrames(s.leaf, t.leaf)
    requires f in s.owner
    ensures f in t.owner && t.owner[f] == s.owner[f] && f in s.counts && f in t.counts && t.counts[f] == s.counts[f]
  {
    hide PoolOk, FreeOk, EntriesOk, ShareOk, Refs;
    SameRefs(s.leaf, t.leaf, f);
    assert |Refs(s.leaf, f)| > 0 <==> exists key :: key in s.leaf && s.leaf[key].ppn == f by { SomeRef(s.leaf, f); }
  }

  lemma SomeRef(leaf: map<Key, Pte>, f: nat)
    ensures |Refs(leaf, f)| > 0 <==> exists key :: key in leaf && leaf[key].ppn == f
  {
    if |Refs(leaf, f)| > 0 {
      var key :| key in Refs(leaf, f);
    }
    if key :| key in leaf && leaf[key].ppn == f {
      assert key in Refs(leaf, f);
    }
  }

  /** Which frames are free and every reference count follow from what the tables map. */
  lemma Determined(s: State, t: State)
    requires Inv(s) && Inv(t) && t.tbl == s.tbl && t.held == s.held && BootKept(s.owner, t.owner)
    requires SameFrames(s.leaf, t.leaf)
    ensures t.owner == s.owner && t.counts == s.counts && (forall f :: f in t.free <==> f in s.free)
  {
    hide PoolOk, TreeOk, EntriesOk, LeafOk, ShareOk, CountOk, SameFrames;
    forall f | f in s.owner
      ensures f in t.owner && t.owner[f] == s.owner[f] && f in s.counts && f in t.counts && t.counts[f] == s.counts[f]
    {
      SameOwner(s, t, f);
    }
    PoolKeys(s);
    PoolKeys(t);
  }

  /** Between operations a user frame's count is the number of entries that name it, it is on the free
      list exactly when there are none, each process maps it at most once, and the 16-bit count has room. */
  lemma ExactCounts(m: Machine, f: nat)
    requires m.Valid() && m.held == multiset{} && |m.roots| <= MAX_PROCESSES
    requires f in m.owner && (m.owner[f] == Data || m.owner[f] == Idle)
    ensures f in m.counts && m.counts[f] == |Refs(m.leaf, f)| <= MAX_PROCESSES < COUNT_MAX
    ensures f in m.free <==> Refs(m.leaf, f) == {}
    ensures forall a, b :: a in Refs(m.leaf, f) && b in Refs(m.leaf, f) && a.p == b.p ==> a == b
  {
    hide Linked, Inv;
    CountIs(m.St(), f);
    RefsFit(m.St(), f, m.roots.Keys);
  }

  lemma CountIs(s: State, f: nat)
    requires Inv(s) && s.held == multiset{} && f in s.owner && (s.owner[f] == Data || s.owner[f] == Idle)
    ensures f in s.counts && s.counts[f] == |Refs(s.leaf, f)| && (f in s.free <==> Refs(s.leaf, f) == {})
  {
    hide TreeOk, EntriesOk, ShareOk, Refs;
    if s.owner[f] == Idle {
      NoRefs(s.tbl, s.owner, s.leaf, f);
    }
  }

  lemma RefsFit(s: State, f: nat, pids: set<Pid>)
    requires Inv(s) && (forall p :: Root(p) in s.tbl ==> p in pids)
    ensures |Refs(s.leaf, f)| <= |pids|
    ensures forall a, b :: a in Refs(s.leaf, f) && b in Refs(s.leaf, f) && a.p == b.p ==> a == b
  {
    hide PoolOk, FreeOk, EntriesOk, CountOk;
    forall a | a in Refs(s.leaf, f) ensures a.p in pids {
      assert Parent(LowOf(a)) in s.tbl && Parent(Parent(LowOf(a))) == Root(a.p);
    }
    InjectionBound(Refs(s.leaf, f), pids);
  }

  // ---- cloning an address space ----

  /** The process has its root table and nothing else. */
  ghost predicate Fresh(tbl: map<Node, nat>, leaf: map<Key, Pte>, p: Pid) {
    && (forall n :: n in tbl && n.p == p ==> n.Root?)
    && (forall key :: key in leaf ==> key.p != p)
  }

  /** The tables of a process below its root. */
  ghost function TablesOf(tbl: map<Node, nat>, p: Pid): set<Node> {
    set n | n in tbl && n.p == p && !n.Root?
  }

  lemma NeedsTables(s: State, p: Pid)
    requires Inv(s)
    ensures Needs(s.tbl, Root(p), 512) == |TablesOf(s.tbl, p)|
  {
    hide Inv;
    NodesOk(s);
    assert (set t | t in s.tbl && TableDone(Root(p), 512, t)) == TablesOf(s.tbl, p);
  }

  /** The clone succeeds exactly when there is a free frame for each of the parent's tables. */
  method CloneUserSpace(m: Machine, parent: Pid, child: Pid) returns (ok: bool)
    requires m.Valid() && AllReadable(m.leaf) && parent in m.roots && child in m.roots && parent != child
    requires Fresh(m.tbl, m.leaf, child) && |m.roots| <= MAX_PROCESSES && m.held == multiset{}
    modifies m`ram, m`head, m`counts, m`free, m`owner, m`tbl, m`leaf, m`held
    ensures m.Valid() && m.held == multiset{} && GrewBelow(old(m.tbl), m.tbl, Root(child))
    ensures DataKept(old(m.owner), old(m.ram), m.owner, m.ram)
    ensures PartlyForked(old(m.leaf), m.leaf, parent, child)
    ensures ok ==> Forked(old(m.leaf), m.leaf, parent, child, Root(parent), 512)
    ensures ok <==> |TablesOf(old(m.tbl), parent)| <= |old(m.free)|
  {
    hide Inv, Linked, DataKept, PartlyForked, Forked, GrewBelow, Readable, Mirror, Blank, Needs, TablesOf;
    NeedsTables(m.St(), parent);
    assert Readable(m.leaf, parent) by { ReadableAll(m.leaf, parent); }
    FreshBlank(m.tbl, m.leaf, parent, child);
    ok := CloneLevel(m, parent, child, Root(parent), m.roots[parent], m.roots[child], 2);
  }

  lemma ReadableAll(leaf: map<Key, Pte>, p: Pid)
    requires AllReadable(leaf)
    ensures Readable(leaf, p)
  {
  }

  lemma FreshBlank(tbl: map<Node, nat>, leaf: map<Key, Pte>, parent: Pid, child: Pid)
    requires Fresh(tbl, leaf, child)
    ensures Blank(tbl, leaf, Root(parent), child, 4) && Mirror(leaf, parent, child)
  {
  }

  // ---- fork ----

  /** The child's table is the parent's, page for page; everything else is as it was. */
  ghost predicate ForkView(a: View, b: View, parent: Pid, child: Pid) {
    && child !in a.roots && child in b.roots && b.roots == a.roots[child := b.roots[child]]
    && b.swap == a.swap && b.count == a.count && b.bytes == a.bytes
    && (forall key: Key :: VpnOk(key.v) ==> Lookup(b.leaf, key) == ForkedEntry(a.leaf, parent, child, key))
    && (forall key :: key in b.leaf ==>
         key in b.pages && Origin(parent, child, key) in a.pages && b.pages[key] == a.pages[Origin(parent, child, key)])
  }

  function Origin(parent: Pid, child: Pid, key: Key): Key {
    if key.p == child then Key(parent, key.v) else key
  }

  /** An address space nobody has yet: no tables, no pages, nothing in the pool. */
  lemma NotThere(m: Machine, p: Pid)
    requires m.Valid() && p !in m.roots
    ensures (forall n :: n in m.tbl ==> n.p != p) && (forall key :: key in m.leaf ==> key.p != p)
  {
    hide Linked, PoolOk, FreeOk, EntriesOk, ShareOk, CountOk;
    forall n | n in m.tbl ensures n.p != p {
      if n.Low? {
        assert Parent(n) in m.tbl && Parent(Parent(n)) in m.tbl;
      } else if n.Mid? {
        assert Parent(n) in m.tbl;
      }
    }
  }

  /** `key`'s entry after a clone names the frame its origin's entry named. */
  lemma SharedFrom(l0: map<Key, Pte>, l1: map<Key, Pte>, parent: Pid, child: Pid, key: Key)
    requires PartlyForked(l0, l1, parent, child) && key in l1 && VpnOk(key.v) && parent != child
    requires forall k :: k in l0 ==> k.p != child
    ensures Origin(parent, child, key) in l0 && l1[key].ppn == l0[Origin(parent, child, key)].ppn
    ensures l1[key] == l0[Origin(parent, child, key)] || l1[key] == Shared(l0[Origin(parent, child, key)])
    ensures key.p != child && key.p != parent ==> l1[key] == l0[key]
  {
    assert Lookup(l1, key) == Lookup(l0, key) || Lookup(l1, key) == ForkedEntry(l0, parent, child, key);
  }

  lemma StillThere(l0: map<Key, Pte>, l1: map<Key, Pte>, parent: Pid, child: Pid, key: Key)
    requires PartlyForked(l0, l1, parent, child) && key in l0 && VpnOk(key.v) && key.p != child
    ensures key in l1
  {
    assert Lookup(l1, key) == Lookup(l0, key) || Lookup(l1, key) == ForkedEntry(l0, parent, child, key);
  }

  /** Pages keep their contents through a clone, finished or not. */
  lemma ClonedPages(s: State, t: State, parent: Pid, child: Pid)
    requires Inv(s) && Inv(t) && parent != child && DataKept(s.owner, s.ram, t.owner, t.ram)
    requires PartlyForked(s.leaf, t.leaf, parent, child) && (forall key :: key in s.leaf ==> key.p != child)
    ensures forall key :: key in t.leaf ==>
      && key in Resident(t.ram, t.leaf) && Origin(parent, child, key) in Resident(s.ram, s.leaf)
      && Resident(t.ram, t.leaf)[key] == Resident(s.ram, s.leaf)[Origin(parent, child, key)]
  {
    hide PoolOk, FreeOk, TreeOk, EntriesOk, LeafOk, ShareOk, CountOk, PartlyForked;
    forall key | key in t.leaf
      ensures key in Resident(t.ram, t.leaf) && Origin(parent, child, key) in Resident(s.ram, s.leaf)
      ensures Resident(t.ram, t.leaf)[key] == Resident(s.ram, s.leaf)[Origin(parent, child, key)]
    {
      LeafIn(t, key);
      SharedFrom(s.leaf, t.leaf, parent, child, key);
      LeafIn(s, Origin(parent, child, key));
    }
  }

  lemma ReadableForked(l0: map<Key, Pte>, l1: map<Key, Pte>, parent: Pid, child: Pid)
    requires PartlyForked(l0, l1, parent, child) && parent != child && AllReadable(l0)
    requires (forall k :: k in l1 ==> VpnOk(k.v))
    requires forall k :: k in l0 ==> k.p != child
    ensures AllReadable(l1)
  {
    forall key | key in l1 ensures l1[key].flags.r || l1[key].flags.x {
      SharedFrom(l0, l1, parent, child, key);
    }
  }

  /** What `Process::new` asks for: room in the process table, a frame for the root, a kernel stack. */
  ghost predicate CanStart(roots: map<Pid, nat>, free: seq<nat>, stack: bool) {
    |roots| < MAX_PROCESSES && free != [] && stack
  }

  /** Besides the root's, a frame for each of the parent's tables. */
  ghost predicate Fits(tbl: map<Node, nat>, free: seq<nat>, parent: Pid) {
    |TablesOf(tbl, parent)| + 1 <= |free|
  }

  /** A new process with its root, or everything as before. */
  method NewProcess(m: Machine, parent: Pid, child: Pid, stack: bool) returns (ok: bool)
    requires m.Valid() && Sane(ViewOf(m)) && parent in m.roots && child !in m.roots && m.held == multiset{}
    modifies m`ram, m`head, m`counts, m`free, m`owner, m`tbl, m`leaf, m`held, m`roots, m`swap, m`swapPages, m`swapBytes
    ensures m.Valid() && m.held == multiset{} && (ok <==> CanStart(old(m.roots), old(m.free), stack))
    ensures !ok ==> Sane(ViewOf(m)) && Rolled(old(ViewOf(m)), ViewOf(m), parent)
    ensures !ok ==> m.tbl == old(m.tbl) && m.counts == old(m.counts) && forall f :: f in m.free <==> f in old(m.free)
    ensures ok ==>
      child in m.roots && Fresh(m.tbl, m.leaf, child) && |m.roots| <= MAX_PROCESSES && BootKept(old(m.owner), m.owner)
    ensures ok ==> SwapOk(m.roots, m.leaf, m.swap) && forall k :: k in m.swap ==> k.root != m.roots[child]
    ensures ok ==> ViewOf(m) == old(ViewOf(m)).(roots := old(m.roots)[child := m.roots[child]])
    ensures ok ==> m.tbl == old(m.tbl)[Root(child) := m.roots[child]] && |m.free| + 1 == |old(m.free)|
  {
    hide Inv, Linked, Machine.Valid, Machine.Pages, PartlyForked, GrewBelow, Sane, Rolled, ClonedFrom, BootKept,
      AllReadable, Fresh, OneRootEach, SwapOk;
    ghost var s, a := m.St(), ViewOf(m);
    RolledNot(a, parent);
    if |m.roots| >= MAX_PROCESSES {
      return false;
    }
    NotThere(m, child);
    SaneFacts(a);
    ValidInv(m);
    ok := NewProcessTable(m, child);
    ValidInv(m);
    Known(m);
    if !ok {
      SameNone(m.leaf);
      Determined(s, m.St());
      return;
    }
    FreshRoot(a, child, m.roots[child]);
    FreshNow(s.tbl, s.leaf, child, m.roots[child]);
    if !stack {
      NoneOf(m.St(), child);
      RootOnly(a, ViewOf(m), m.tbl, parent, child);
      Abandon(m, parent, child, s, a);
      return false;
    }
  }

  /** `clone` without CLONE_VM: a child with its own address space, or, when the ceiling is reached or memory
      runs out at any point, everything as before: the same frames free, the same counts, every page reading
      the same. Which of the two is decided by the frames free at the start. */
  method SysClone(m: Machine, parent: Pid, child: Pid, stack: bool) returns (ok: bool)
    requires m.Valid() && Sane(ViewOf(m)) && parent in m.roots && child !in m.roots && m.held == multiset{}
    modifies m`ram, m`head, m`counts, m`free, m`owner, m`tbl, m`leaf, m`held, m`roots, m`swap, m`swapPages, m`swapBytes
    ensures m.Valid() && Sane(ViewOf(m)) && m.held == multiset{}
    ensures ok <==> CanStart(old(m.roots), old(m.free), stack) && Fits(old(m.tbl), old(m.free), parent)
    ensures ok ==> ForkView(old(ViewOf(m)), ViewOf(m), parent, child)
    ensures !ok ==> Rolled(old(ViewOf(m)), ViewOf(m), parent)
    ensures !ok ==> m.tbl == old(m.tbl) && m.counts == old(m.counts) && forall f :: f in m.free <==> f in old(m.free)
  {
    hide Inv, Linked, Machine.Valid, Machine.Pages, PartlyForked, Forked, GrewBelow, Sane, Rolled, ForkView, ClonedFrom,
      BootKept, AllReadable, Fresh, SwapOk, TablesOf, CanStart;
    ghost var s, a := m.St(), ViewOf(m);
    NotThere(m, child);
    SaneFacts(a);
    ValidInv(m);
    ok := NewProcess(m, parent, child, stack);
    if !ok {
      return;
    }
    SameTables(s.tbl, parent, child, m.roots[child]);
    ValidInv(m);
    NoneOf(m.St(), child);
    ok := CloneInto(m, parent, child, s, a);
    if !ok {
      Abandon(m, parent, child, s, a);
      return;
    }
    ForkDone(a, ViewOf(m), parent, child);
  }

  datatype ForkResult = Cloned | Refused | Panicked

  /** `fork` clones the parent with the process table locked. When memory runs out on the way, its error path
      locks the table again on the same hart, which panics. A call that cannot even make the process fails
      cleanly; one that finds too few frames for the parent's tables takes the kernel down. */
  method SysFork(m: Machine, parent: Pid, child: Pid, stack: bool) returns (r: ForkResult)
    requires m.Valid() && Sane(ViewOf(m)) && parent in m.roots && child !in m.roots && m.held == multiset{}
    modifies m`ram, m`head, m`counts, m`free, m`owner, m`tbl, m`leaf, m`held, m`roots, m`swap, m`swapPages, m`swapBytes
    ensures m.Valid() && Sane(ViewOf(m)) && m.held == multiset{}
    ensures r == Refused <==> !CanStart(old(m.roots), old(m.free), stack)
    ensures r == Panicked <==> CanStart(old(m.roots), old(m.free), stack) && !Fits(old(m.tbl), old(m.free), parent)
    ensures r == Cloned ==> ForkView(old(ViewOf(m)), ViewOf(m), parent, child)
    ensures r == Refused ==> Rolled(old(ViewOf(m)), ViewOf(m), parent)
    ensures r == Refused ==>
      m.tbl == old(m.tbl) && m.counts == old(m.counts) && forall f :: f in m.free <==> f in old(m.free)
  {
    hide Inv, Linked, Machine.Valid, Machine.Pages, PartlyForked, Forked, GrewBelow, Sane, Rolled, ForkView, ClonedFrom,
      BootKept, AllReadable, Fresh, SwapOk, TablesOf, CanStart;
    ghost var s, a := m.St(), ViewOf(m);
    SaneFacts(a);
    var made := NewProcess(m, parent, child, stack);
    if !made {
      return Refused;
    }
    SameTables(s.tbl, parent, child, m.roots[child]);
    var copied := CloneInto(m, parent, child, s, a);
    if !copied {
      return Panicked; // `cleanup_process` locks PROCESS_TABLE, which this hart holds
    }
    ForkDone(a, ViewOf(m), parent, child);
    return Cloned;
  }

  /** A child with only its root is a clone that stopped at once. */
  lemma RootOnly(a: View, b: View, tbl: map<Node, nat>, parent: Pid, child: Pid)
    requires Sane(a) && child !in a.roots && child in b.roots && b == a.(roots := a.roots[child := b.roots[child]])
    requires SwapOk(b.roots, b.leaf, b.swap) && OneRootEach(b.roots) && (forall key :: key in a.leaf ==> key.p != child)
    ensures Sane(b) && ClonedFrom(a, b, parent, child) && GrewBelow(tbl, tbl, Root(child))
    ensures PartlyForked(a.leaf, b.leaf, parent, child)
  {
    Unchanged(tbl, a.leaf, parent, child, Root(parent), 0);
  }

  /** The child, which has its root, gets the parent's pages, or some of them. */
  method CloneInto(m: Machine, parent: Pid, child: Pid, ghost s: State, ghost a: View) returns (ok: bool)
    requires m.Valid() && m.held == multiset{} && BootKept(s.owner, m.owner) && |m.roots| <= MAX_PROCESSES
    requires AllReadable(a.leaf) && parent in a.roots && child !in a.roots && child in m.roots
    requires Fresh(m.tbl, m.leaf, child)
    requires SwapOk(m.roots, m.leaf, m.swap) && (forall k :: k in m.swap ==> k.root != m.roots[child])
    requires ViewOf(m) == a.(roots := a.roots[child := m.roots[child]])
    modifies m`ram, m`head, m`counts, m`free, m`owner, m`tbl, m`leaf, m`held
    ensures m.Valid() && m.held == multiset{} && BootKept(s.owner, m.owner) && Sane(ViewOf(m))
    ensures GrewBelow(old(m.tbl), m.tbl, Root(child)) && PartlyForked(a.leaf, m.leaf, parent, child)
    ensures ClonedFrom(a, ViewOf(m), parent, child)
    ensures ok ==> Forked(a.leaf, m.leaf, parent, child, Root(parent), 512)
    ensures ok <==> |TablesOf(old(m.tbl), parent)| <= |old(m.free)|
  {
    hide Inv, Linked, Machine.Valid, Machine.Pages, DataKept, PartlyForked, Forked, GrewBelow, Sane, BootKept,
      AllReadable, Fresh, SwapOk, TablesOf;
    ghost var s1, v1 := m.St(), ViewOf(m);
    ValidInv(m);
    NoneOf(s1, child);
    ok := CloneUserSpace(m, parent, child);
    ValidInv(m);
    Known(m);
    ClonedPages(s1, m.St(), parent, child);
    SaneClone(v1, ViewOf(m), parent, child);
    BootLink(s.owner, s1.owner, m.owner, s1.ram, m.ram);
  }

  /** A clone that stopped part-way is undone. */
  method Abandon(m: Machine, parent: Pid, child: Pid, ghost s: State, ghost a: View)
    requires Inv(s) && s.leaf == a.leaf && s.held == multiset{} && (forall n :: n in s.tbl ==> n.p != child)
    requires m.Valid() && m.held == multiset{} && BootKept(s.owner, m.owner) && Sane(ViewOf(m)) && child in m.roots
    requires parent != child
    requires GrewBelow(s.tbl[Root(child) := m.roots[child]], m.tbl, Root(child))
    requires PartlyForked(a.leaf, m.leaf, parent, child)
    requires Sane(a) && ClonedFrom(a, ViewOf(m), parent, child)
    requires (forall k :: k in a.swap ==> k.root != m.roots[child])
    requires forall key :: key in a.leaf ==> key.p != child && VpnOk(key.v)
    modifies m`ram, m`head, m`counts, m`free, m`owner, m`tbl, m`leaf, m`held, m`roots, m`swap, m`swapPages, m`swapBytes
    ensures m.Valid() && Sane(ViewOf(m)) && m.held == multiset{} && Rolled(a, ViewOf(m), parent)
    ensures m.tbl == s.tbl && m.counts == s.counts && forall f :: f in m.free <==> f in s.free
  {
    hide Inv, Linked, Machine.Valid, Machine.Pages, PartlyForked, GrewBelow, Sane, Rolled, ClonedFrom, BootKept,
      AllReadable, Ended, Gone, SameFrames;
    ghost var s2, v2 := m.St(), ViewOf(m);
    SaneFacts(v2);
    Cleanup(m, child);
    ValidInv(m);
    ForkUndone(a, v2, ViewOf(m), parent, child);
    TablesBack(s.tbl, s2.tbl, m.tbl, s2.leaf, m.leaf, child, v2.roots[child]);
    BootLast(s.owner, s2.owner, m.owner);
    Determined(s, m.St());
  }

  lemma BootLink(o0: map<nat, Owner>, o1: map<nat, Owner>, o2: map<nat, Owner>, r1: map<nat, Page>, r2: map<nat, Page>)
    requires BootKept(o0, o1) && DataKept(o1, r1, o2, r2)
    ensures BootKept(o0, o2)
  {
  }

  lemma BootLast(o0: map<nat, Owner>, o1: map<nat, Owner>, o2: map<nat, Owner>)
    requires BootKept(o0, o1) && BootKept(o1, o2)
    ensures BootKept(o0, o2)
  {
  }

  lemma NoneOf(s: State, p: Pid)
    requires Fresh(s.tbl, s.leaf, p) && Inv(s)
    ensures forall key :: key in s.leaf ==> key.p != p && VpnOk(key.v)
  {
    KeysOk(s);
  }

  lemma SameNone(leaf: map<Key, Pte>)
    ensures SameFrames(leaf, leaf)
  {
  }

  lemma FreshNow(tbl: map<Node, nat>, leaf: map<Key, Pte>, p: Pid, f: nat)
    requires (forall n :: n in tbl ==> n.p != p) && (forall key :: key in leaf ==> key.p != p)
    ensures Fresh(tbl[Root(p) := f], leaf, p)
  {
  }

  lemma SameTables(tbl: map<Node, nat>, p: Pid, q: Pid, f: nat)
    ensures TablesOf(tbl[Root(q) := f], p) == TablesOf(tbl, p)
  {
  }

  lemma TablesBack(t0: map<Node, nat>, t2: map<Node, nat>, t3: map<Node, nat>, l2: map<Key, Pte>, l3: map<Key, Pte>,
                   child: Pid, f: nat)
    requires (forall n :: n in t0 ==> n.p != child) && Gone(l2, l3, t2, t3, child)
    requires GrewBelow(t0[Root(child) := f], t2, Root(child))
    ensures t3 == t0
  {
  }

  /** The view after a clone, finished or not, is in order. */
  lemma SaneClone(a: View, b: View, parent: Pid, child: Pid)
    requires PartlyForked(a.leaf, b.leaf, parent, child) && parent != child && parent in a.roots && child in a.roots
    requires b.roots == a.roots && b.swap == a.swap
    requires SwapOk(a.roots, a.leaf, a.swap) && AllReadable(a.leaf) && (forall key :: key in a.leaf ==> key.p != child)
    requires forall k :: k in a.swap ==> k.root != a.roots[child]
    requires OneRootEach(b.roots) && KeysLive(b.roots, b.leaf) && b.pages.Keys == b.leaf.Keys
    ensures Sane(b)
  {
    ReadableForked(a.leaf, b.leaf, parent, child);
    forall key | key in b.leaf ensures SwapKey(b.roots[key.p], key.v) !in b.swap {
      SharedFrom(a.leaf, b.leaf, parent, child, key);
    }
  }

  /** Every page reads as before; entries of the parent may have lost W to copy-on-write. */
  ghost predicate Rolled(a: View, b: View, parent: Pid) {
    && b == a.(leaf := b.leaf) && b.leaf.Keys == a.leaf.Keys
    && forall key :: key in a.leaf ==>
         b.leaf[key] == a.leaf[key] || (key.p == parent && b.leaf[key] == Shared(a.leaf[key]))
  }

  lemma RolledNot(a: View, parent: Pid)
    ensures Rolled(a, a, parent)
  {
  }

  /** The pool has nothing for a root just allocated. */
  lemma FreshRoot(a: View, child: Pid, f: nat)
    requires Sane(a) && child !in a.roots && OneRootEach(a.roots[child := f])
    ensures (forall k :: k in a.swap ==> k.root != f) && SwapOk(a.roots[child := f], a.leaf, a.swap)
  {
    var roots := a.roots[child := f];
    forall k | k in a.swap ensures k.root != f && IsRoot(roots, k.root) {
      var p :| p in a.roots && a.roots[p] == k.root;
      assert roots[p] == k.root && roots[child] == f;
    }
  }

  ghost predicate ClonedFrom(a: View, b: View, parent: Pid, child: Pid) {
    && child !in a.roots && child in b.roots && b.roots == a.roots[child := b.roots[child]]
    && b.swap == a.swap && b.count == a.count && b.bytes == a.bytes
    && (forall key :: key in b.leaf ==>
         key in b.pages && Origin(parent, child, key) in a.pages && b.pages[key] == a.pages[Origin(parent, child, key)])
  }

  lemma ForkDone(a: View, b: View, parent: Pid, child: Pid)
    requires ClonedFrom(a, b, parent, child) && Forked(a.leaf, b.leaf, parent, child, Root(parent), 512)
    ensures ForkView(a, b, parent, child)
  {
    forall key: Key | VpnOk(key.v) ensures Lookup(b.leaf, key) == ForkedEntry(a.leaf, parent, child, key) {
      assert Done(Root(parent), 512, key.v);
    }
  }

  lemma ForkUndone(a: View, b: View, c: View, parent: Pid, child: Pid)
    requires Sane(a) && Sane(b) && ClonedFrom(a, b, parent, child) && PartlyForked(a.leaf, b.leaf, parent, child)
    requires parent != child
    requires Ended(b, c, child) && (forall k :: k in a.swap ==> k.root != b.roots[child])
    requires (forall key :: key in a.leaf ==> key.p != child && VpnOk(key.v))
    ensures Rolled(a, c, parent) && SameFrames(a.leaf, c.leaf) && Sane(c)
  {
    hide PageAt, PartlyForked, Restored, Wrap, Sane, Ended, KeysLive, Shared;
    SaneFacts(a);
    SaneFacts(b);
    EndingInvisible(b, c, child);
    EndedLeaf(b, c, child);
    UndoneLeaf(a, b, c, parent, child);
    UndoneRest(a, b, c, parent, child);
  }

  lemma UndoneLeaf(a: View, b: View, c: View, parent: Pid, child: Pid)
    requires PartlyForked(a.leaf, b.leaf, parent, child) && parent != child && KeysLive(b.roots, b.leaf)
    requires forall k :: k in a.leaf ==> k.p != child && VpnOk(k.v)
    requires forall key :: key in c.leaf <==> key in b.leaf && key.p != child
    requires forall key :: key in c.leaf ==> c.leaf[key] == b.leaf[key]
    ensures SameFrames(a.leaf, c.leaf) && c.leaf.Keys == a.leaf.Keys
    ensures forall key :: key in a.leaf ==>
      c.leaf[key] == a.leaf[key] || (key.p == parent && c.leaf[key] == Shared(a.leaf[key]))
  {
    hide PartlyForked, KeysLive, Shared;
    forall key: Key
      ensures key in c.leaf <==> key in a.leaf
      ensures key in c.leaf ==> c.leaf[key].ppn == a.leaf[key].ppn
      ensures key in c.leaf ==>
        c.leaf[key] == a.leaf[key] || (key.p == parent && c.leaf[key] == Shared(a.leaf[key]))
    {
      UndoneKey(a, b, c, parent, child, key);
    }
  }

  lemma UndoneKey(a: View, b: View, c: View, parent: Pid, child: Pid, key: Key)
    requires PartlyForked(a.leaf, b.leaf, parent, child) && parent != child && KeysLive(b.roots, b.leaf)
    requires forall k :: k in a.leaf ==> k.p != child && VpnOk(k.v)
    requires (key in c.leaf <==> key in b.leaf && key.p != child) && (key in c.leaf ==> c.leaf[key] == b.leaf[key])
    ensures key in c.leaf <==> key in a.leaf
    ensures key in c.leaf ==> c.leaf[key].ppn == a.leaf[key].ppn
    ensures key in c.leaf ==>
      c.leaf[key] == a.leaf[key] || (key.p == parent && c.leaf[key] == Shared(a.leaf[key]))
  {
    hide PartlyForked;
    if key in a.leaf {
      StillThere(a.leaf, b.leaf, parent, child, key);
    }
    if key in c.leaf {
      SharedFrom(a.leaf, b.leaf, parent, child, key);
    }
  }

  lemma UndoneRest(a: View, b: View, c: View, parent: Pid, child: Pid)
    requires ClonedFrom(a, b, parent, child) && Ended(b, c, child)
    requires (forall k :: k in a.swap ==> k.root != b.roots[child])
    requires a.pages.Keys == a.leaf.Keys == c.leaf.Keys == c.pages.Keys && b.pages.Keys == b.leaf.Keys
    ensures c == a.(leaf := c.leaf)
  {
    assert c.roots == a.roots;
    assert c.swap == a.swap;
    assert c.pages == a.pages;
  }

  /** Fork, page by page: everyone reads as before, and the child reads the parent's page where the
      parent's is mapped and zero where it is not. */
  lemma ForkReads(a: View, b: View, parent: Pid, child: Pid, p: Pid, v: Vpn)
    requires Sane(a) && Sane(b) && ForkView(a, b, parent, child) && parent in a.roots && p in b.roots && VpnOk(v)
    ensures PageAt(b, p, v) ==
      if p != child then PageAt(a, p, v) else if Key(parent, v) in a.leaf then PageAt(a, parent, v) else Zero()
  {
    hide Restored, SwapOk, AllReadable, KeysLive;
    var key := Key(p, v);
    assert Lookup(b.leaf, key) == ForkedEntry(a.leaf, parent, child, key);
    if p == child {
      RootUnused(a, b, child);
    }
  }

  lemma RootUnused(a: View, b: View, child: Pid)
    requires Sane(a) && OneRootEach(b.roots) && child !in a.roots && child in b.roots
    requires b.roots == a.roots[child := b.roots[child]]
    ensures forall k :: k in a.swap ==> k.root != b.roots[child]
  {
    FreshRoot(a, child, b.roots[child]);
  }

  ghost predicate CopiedWhole(a: View, b: View, parent: Pid, child: Pid) {
    forall v :: VpnOk(v) ==> PageAt(b, child, v) == PageAt(a, parent, v)
  }

  /** Fork copies every byte exactly when no page of the parent in the pool holds anything but zeros. */
  lemma ForkCopies(a: View, b: View, parent: Pid, child: Pid)
    requires Sane(a) && Sane(b) && ForkView(a, b, parent, child) && parent in a.roots
    ensures CopiedWhole(a, b, parent, child) <==>
      forall k :: k in a.swap && k.root == a.roots[parent] ==> Restored(a.swap[k].data) == Zero()
  {
    hide Restored, Sane, ForkView, PageAt;
    forall v | VpnOk(v)
      ensures PageAt(b, child, v) == PageAt(a, parent, v) <==>
        (SwapKey(a.roots[parent], v) in a.swap ==> Restored(a.swap[SwapKey(a.roots[parent], v)].data) == Zero())
    {
      ForkCopiesPage(a, b, parent, child, v);
    }
    forall k | k in a.swap && k.root == a.roots[parent] ensures VpnOk(k.v) && k == SwapKey(a.roots[parent], k.v) {
      PoolVpn(a, k);
    }
  }

  lemma PoolVpn(a: View, k: SwapKey)
    requires Sane(a) && k in a.swap
    ensures VpnOk(k.v)
  {
  }

  lemma ForkCopiesPage(a: View, b: View, parent: Pid, child: Pid, v: Vpn)
    requires Sane(a) && Sane(b) && ForkView(a, b, parent, child) && parent in a.roots && VpnOk(v)
    ensures PageAt(b, child, v) == PageAt(a, parent, v) <==>
      (SwapKey(a.roots[parent], v) in a.swap ==> Restored(a.swap[SwapKey(a.roots[parent], v)].data) == Zero())
  {
    hide Restored;
    ForkReads(a, b, parent, child, child, v);
  }

  // ---- ending ----

  /** Everything of `p` is gone; nothing of anyone else is. */
  ghost predicate Ended(a: View, b: View, p: Pid) {
    && b.roots == a.roots - {p}
    && (forall key: Key :: Lookup(b.leaf, key) == if key.p == p then None else Lookup(a.leaf, key))
    && (forall key :: key in b.pages <==> key in a.pages && key.p != p)
    && (forall key :: key in b.pages ==> b.pages[key] == a.pages[key])
    && (forall k :: k in b.swap <==> k in a.swap && (p in a.roots ==> k.root != a.roots[p]))
    && (forall k :: k in b.swap ==> b.swap[k] == a.swap[k])
    && (b.swap == a.swap ==> b.count == a.count && b.bytes == a.bytes)
  }

  /** `cleanup_process`: drop the pool's entries, then every page and table. */
  method Cleanup(m: Machine, p: Pid)
    requires m.Valid() && p in m.roots && AllReadable(m.leaf)
    modifies m`ram, m`head, m`counts, m`free, m`owner, m`tbl, m`leaf, m`held, m`roots, m`swap, m`swapPages, m`swapBytes
    ensures m.Valid() && m.held == old(m.held) && BootKept(old(m.owner), m.owner)
    ensures Ended(old(ViewOf(m)), ViewOf(m), p) && Gone(old(m.leaf), m.leaf, old(m.tbl), m.tbl, p)
    ensures CountersOk(old(m.swap), old(m.swapPages), old(m.swapBytes)) ==> CountersOk(m.swap, m.swapPages, m.swapBytes)
  {
    hide Inv, Linked, Machine.Valid, Machine.Pages, Gone, BootKept, CountersOk, Readable;
    ReadableAll(m.leaf, p);
    ghost var a := ViewOf(m);
    Known(m);
    EvictAll(m, m.roots[p]);
    DestroyUserSpace(m, p);
    Known(m);
    EndedPages(a.leaf, a.pages, m.leaf, m.Pages(), old(m.tbl), m.tbl, p);
  }

  lemma EndedPages(l0: map<Key, Pte>, g0: map<Key, Page>, l1: map<Key, Pte>, g1: map<Key, Page>, t0: map<Node, nat>,
                   t1: map<Node, nat>, p: Pid)
    requires Gone(l0, l1, t0, t1, p) && SubPages(g0, g1) && g0.Keys == l0.Keys && g1.Keys == l1.Keys
    ensures forall key: Key :: Lookup(l1, key) == if key.p == p then None else Lookup(l0, key)
    ensures forall key :: key in g1 <==> key in g0 && key.p != p
  {
    forall key: Key ensures key in g1 <==> key in g0 && key.p != p {
      assert Lookup(l1, key) == if key.p == p then None else Lookup(l0, key);
    }
  }

  /** The survivors read what they read before. */
  lemma EndingInvisible(a: View, b: View, p: Pid)
    requires Sane(a) && p in a.roots && Ended(a, b, p)
    ensures Sane(b) && forall q, v :: q in b.roots ==> PageAt(b, q, v) == PageAt(a, q, v)
  {
    hide Ended, Sane, PageAt;
    EndedSane(a, b, p);
    forall q, v | q in b.roots ensures PageAt(b, q, v) == PageAt(a, q, v) {
      EndedAt(a, b, p, q, v);
    }
  }

  lemma EndedAt(a: View, b: View, p: Pid, q: Pid, v: Vpn)
    requires Sane(a) && p in a.roots && Ended(a, b, p) && q in b.roots
    ensures PageAt(b, q, v) == PageAt(a, q, v)
  {
    hide Restored;
  }

  lemma EndedSane(a: View, b: View, p: Pid)
    requires Sane(a) && p in a.roots && Ended(a, b, p)
    ensures Sane(b)
  {
    hide Restored, SwapOk;
    EndedLeaf(a, b, p);
    EndedPool(a, b, p);
  }

  lemma EndedLeaf(a: View, b: View, p: Pid)
    requires Sane(a) && Ended(a, b, p)
    ensures forall key :: key in b.leaf <==> key in a.leaf && key.p != p
    ensures forall key :: key in b.leaf ==> b.leaf[key] == a.leaf[key]
    ensures b.leaf.Keys == b.pages.Keys
  {
    forall key: Key
      ensures key in b.leaf <==> key in a.leaf && key.p != p
      ensures key in b.leaf ==> b.leaf[key] == a.leaf[key]
    {
      assert Lookup(b.leaf, key) == if key.p == p then None else Lookup(a.leaf, key);
    }
  }

  lemma EndedPool(a: View, b: View, p: Pid)
    requires Sane(a) && p in a.roots && Ended(a, b, p)
    ensures SwapOk(b.roots, b.leaf, b.swap)
  {
    SurvivorsLive(a, b, p);
    EndedLeaf(a, b, p);
  }

  lemma SurvivorsLive(a: View, b: View, p: Pid)
    requires Sane(a) && p in a.roots && Ended(a, b, p)
    ensures forall k :: k in b.swap ==> IsRoot(b.roots, k.root)
  {
    forall k | k in b.swap ensures IsRoot(b.roots, k.root) {
      var q :| q in a.roots && a.roots[q] == k.root;
      assert q in b.roots && b.roots[q] == k.root;
    }
  }

  // ---- reaping without clearing the pool ----

  /** `sys_reap_process` destroys the address space and leaves the pool alone. The root is the last frame freed,
      so the next process gets it, and with it the pages the dead one had in the pool. */
  method ReapThenNew(m: Machine, p: Pid, q: Pid)
    requires m.Valid() && Sane(ViewOf(m)) && p in m.roots && q !in m.roots
    modifies m`ram, m`head, m`counts, m`free, m`owner, m`tbl, m`leaf, m`held, m`roots
    ensures m.Valid() && m.roots == old(m.roots) - {p} + map[q := old(m.roots)[p]]
    ensures forall v ::
      PageAt(ViewOf(m), q, v) == if InSwap(old(ViewOf(m)), p, v) then PageAt(old(ViewOf(m)), p, v) else Zero()
  {
    hide Inv, Linked, Machine.Valid, Machine.Pages, Sane, PageAt, InSwap, Gone, SubPages, BootKept, AllReadable,
      Readable, KeysLive;
    ghost var a := ViewOf(m);
    SaneFacts(a);
    ReadableAll(m.leaf, p);
    DestroyUserSpace(m, p);
    NoPagesOf(m, q);
    var rooted := NewProcessTable(m, q);
    StaleReads(a, ViewOf(m), p, q);
  }

  lemma NoPagesOf(m: Machine, q: Pid)
    requires m.Valid() && q !in m.roots
    ensures forall v :: Key(q, v) !in m.Pages()
  {
    hide Inv, Linked;
    NotThere(m, q);
    Known(m);
  }

  lemma StaleReads(a: View, b: View, p: Pid, q: Pid)
    requires Sane(a) && p in a.roots && q in b.roots && b.roots[q] == a.roots[p] && b.swap == a.swap
    requires (forall v :: Key(q, v) !in b.pages)
    ensures forall v :: PageAt(b, q, v) == if InSwap(a, p, v) then PageAt(a, p, v) else Zero()
  {
    hide Restored;
  }
}
