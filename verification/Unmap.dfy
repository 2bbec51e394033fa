/** `unmap_range`, src/mm/vmm.rs: which pages it clears. Missing tables are skipped by adding 1 GB or
    2 MB to the address, not by moving to the next region, so the walk can step over mapped pages. */
module Unmap {
  import opened Words
  import opened Sv39
  import opened Memory
  import opened MemorySteps
  import opened Machines
  import opened Vmm
  import opened Fork
  import opened Teardown
  import opened Views

  const GB: nat := 0x4000_0000
  const MB2: nat := 0x20_0000

  /** The next address the walk looks at. */
  function Next(tbl: map<Node, nat>, p: Pid, va: nat): nat {
    var v := VpnOf(va);
    if Mid(p, v.i) !in tbl then va + GB else if Low(p, v.i, v.j) !in tbl then va + MB2 else va + 4096
  }

  /** The pages the walk reaches from `va` on. */
  function Visits(tbl: map<Node, nat>, p: Pid, va: nat, end: nat): set<Vpn>
    decreases end - va
  {
    if va >= end then {}
    else
      var v := VpnOf(va);
      (if Mid(p, v.i) in tbl && Low(p, v.i, v.j) in tbl then {v} else {}) + Visits(tbl, p, Next(tbl, p, va), end)
  }

  ghost function Of(p: Pid, vs: set<Vpn>): set<Key> {
    set v | v in vs :: Key(p, v)
  }

  /** The pages `vs` of `p` are gone, and nothing else. */
  ghost predicate Cleared(l0: map<Key, Pte>, l1: map<Key, Pte>, g0: map<Key, Page>, g1: map<Key, Page>, p: Pid,
                          vs: set<Vpn>) {
    l1 == l0 - Of(p, vs) && g1 == g0 - Of(p, vs)
  }

  lemma ClearedNone(l: map<Key, Pte>, g: map<Key, Page>, p: Pid)
    ensures Cleared(l, l, g, g, p, {})
  {
  }

  lemma ClearedMore(l0: map<Key, Pte>, l1: map<Key, Pte>, l2: map<Key, Pte>, g0: map<Key, Page>, g1: map<Key, Page>,
                    g2: map<Key, Page>,
                    p: Pid, vs: set<Vpn>, v: Vpn)
    requires Cleared(l0, l1, g0, g1, p, vs) && l2 == l1 - {Key(p, v)} && g2 == g1 - {Key(p, v)}
    ensures Cleared(l0, l2, g0, g2, p, vs + {v})
  {
    assert Of(p, vs + {v}) == Of(p, vs) + {Key(p, v)};
  }

  /** Clears exactly the pages its walk reaches. */
  method UnmapRange(m: Machine, p: Pid, start: nat, len: nat)
    requires m.Valid() && p in m.roots && USER_BASE <= start && start + len <= VA_LIMIT
    modifies m`ram, m`head, m`counts, m`free, m`owner, m`tbl, m`leaf, m`held
    ensures m.Valid() && m.tbl == old(m.tbl) && m.held == old(m.held)
    ensures Cleared(old(m.leaf), m.leaf, old(m.Pages()), m.Pages(), p,
      Visits(m.tbl, p, start / 4096 * 4096, start + len))
  {
    hide Inv, Linked, Machine.Valid, Machine.Pages, VpnOf, Decode, Cleared;
    var end := start + len;
    var va := start / 4096 * 4096;
    ghost var done: set<Vpn> := {};
    ghost var all := Visits(m.tbl, p, va, end);
    ClearedNone(m.leaf, m.Pages(), p);
    while va < end
      invariant USER_BASE <= va && m.Valid() && m.tbl == old(m.tbl) && m.held == old(m.held)
      invariant done + Visits(m.tbl, p, va, end) == all
      invariant Cleared(old(m.leaf), m.leaf, old(m.Pages()), m.Pages(), p, done)
      decreases end - va
    {
      var v := VpnOf(va);
      VaSplit(va);
      RootReads(m, p, v);
      var e2 := Decode(m.ram[m.roots[p]][v.i]);
      if !e2.flags.v || e2.flags.r || e2.flags.x {
        va := va + GB;
        continue;
      }
      MidReads(m, p, v);
      var e1 := Decode(m.ram[e2.ppn][v.j]);
      if !e1.flags.v || e1.flags.r || e1.flags.x {
        va := va + MB2;
        continue;
      }
      ghost var leaf, pages := m.leaf, m.Pages();
      ClearEntry(m, p, v, e1.ppn);
      ClearedMore(old(m.leaf), leaf, m.leaf, old(m.Pages()), pages, m.Pages(), p, done, v);
      done := done + {v};
      va := va + 4096;
    }
  }

  /** The level-0 entry of `v`, if there is one: drop the page, clear the entry. */
  method ClearEntry(m: Machine, ghost p: Pid, v: Vpn, pt: nat)
    requires m.Valid() && VpnOk(v) && Low(p, v.i, v.j) in m.tbl && m.tbl[Low(p, v.i, v.j)] == pt
    modifies m`ram, m`head, m`counts, m`free, m`owner, m`tbl, m`leaf, m`held
    ensures m.Valid() && m.tbl == old(m.tbl) && m.held == old(m.held)
    ensures m.leaf == old(m.leaf) - {Key(p, v)} && m.Pages() == old(m.Pages()) - {Key(p, v)}
  {
    hide Inv, Linked, Machine.Valid, Machine.Pages, Decode;
    SlotReads(m, Key(p, v));
    var e0 := Decode(m.ram[pt][v.k]);
    if e0.flags.v {
      assert e0.flags.u;
      ClearLeaf(m, Key(p, v), pt, v.k, e0.ppn);
    }
  }

  lemma RootReads(m: Machine, p: Pid, v: Vpn)
    requires m.Valid() && p in m.roots && VpnOk(v)
    ensures m.roots[p] in m.ram
    ensures var e := Decode(m.ram[m.roots[p]][v.i]);
      if Mid(p, v.i) in m.tbl then e == Pte(m.tbl[Mid(p, v.i)], V_ONLY) else !e.flags.v
  {
    hide Inv, Linked, Decode;
    EntryReads(m.St(), Root(p), v.i);
  }

  lemma MidReads(m: Machine, p: Pid, v: Vpn)
    requires m.Valid() && Mid(p, v.i) in m.tbl && VpnOk(v)
    ensures m.tbl[Mid(p, v.i)] in m.ram
    ensures var e := Decode(m.ram[m.tbl[Mid(p, v.i)]][v.j]);
      if Low(p, v.i, v.j) in m.tbl then e == Pte(m.tbl[Low(p, v.i, v.j)], V_ONLY) else !e.flags.v
  {
    hide Inv, Linked, Decode;
    EntryReads(m.St(), Mid(p, v.i), v.j);
  }

  lemma SlotReads(m: Machine, key: Key)
    requires m.Valid() && LowOf(key) in m.tbl && VpnOk(key.v)
    ensures m.tbl[LowOf(key)] in m.ram && m.Pages().Keys == m.leaf.Keys
    ensures var e := Decode(m.ram[m.tbl[LowOf(key)]][key.v.k]);
      if key in m.leaf then e == m.leaf[key] && e.flags.v && e.flags.u else !e.flags.v
  {
    hide Inv, Linked, Decode, Resident;
    LeafReads(m.St(), key);
    Known(m);
  }

  /** A page that was mapped and is cleared reads as zeros; one in the pool keeps its contents, since the
      pool is not touched, and so does every other page. */
  lemma UnmappedReads(a: View, b: View, p: Pid, vs: set<Vpn>, q: Pid, v: Vpn)
    requires Sane(a) && q in a.roots && Cleared(a.leaf, b.leaf, a.pages, b.pages, p, vs)
    requires b == a.(leaf := b.leaf, pages := b.pages)
    ensures PageAt(b, q, v) == if q == p && v in vs && Key(p, v) in a.leaf then Zero() else PageAt(a, q, v)
  {
    assert Key(q, v) in Of(p, vs) <==> q == p && v in vs;
  }

  // ---- which pages those are ----

  /** Never a page outside the range. */
  lemma {:induction false} VisitsInside(tbl: map<Node, nat>, p: Pid, va: nat, end: nat, v: Vpn)
    requires va % 4096 == 0 && end <= VA_LIMIT && v in Visits(tbl, p, va, end)
    ensures va <= VaOf(v) < end
    decreases end - va
  {
    hide VpnOf, VaOf;
    VaSplit(va);
    if v != VpnOf(va) || Mid(p, v.i) !in tbl || Low(p, v.i, v.j) !in tbl {
      VisitsInside(tbl, p, Next(tbl, p, va), end, v);
    }
  }

  /** The walk is in step with the tables: it stands at the start of whatever is missing. */
  predicate InStep(tbl: map<Node, nat>, p: Pid, va: nat) {
    var v := VpnOf(va);
    && va % 4096 == 0
    && (Mid(p, v.i) in tbl || va % GB == 0)
    && (Low(p, v.i, v.j) in tbl || va % MB2 == 0)
  }

  ghost predicate Closed(tbl: map<Node, nat>, p: Pid) {
    forall i, j :: Low(p, i, j) in tbl ==> Mid(p, i) in tbl
  }

  /** From an address in step with the tables, every mapped page of the range is cleared. */
  lemma {:induction false} VisitsAll(tbl: map<Node, nat>, p: Pid, va: nat, end: nat, v: Vpn)
    requires InStep(tbl, p, va) && Closed(tbl, p) && USER_BASE <= va && end <= VA_LIMIT
    requires VpnOk(v) && Low(p, v.i, v.j) in tbl && va <= VaOf(v) < end
    ensures v in Visits(tbl, p, va, end)
    decreases end - va
  {
    hide InStep, Closed, VpnOf, VaOf;
    if VpnOf(va) != v {
      NotSkipped(tbl, p, va, v);
      NextInStep(tbl, p, va);
      VisitsAll(tbl, p, Next(tbl, p, va), end, v);
    } else {
      MidToo(tbl, p, v);
    }
  }

  lemma MidToo(tbl: map<Node, nat>, p: Pid, v: Vpn)
    requires Closed(tbl, p) && Low(p, v.i, v.j) in tbl
    ensures Mid(p, v.i) in tbl
  {
  }

  /** Aligned addresses in terms of indices. */
  lemma Aligned(v: Vpn)
    requires VpnOk(v)
    ensures VaOf(v) % GB == 0 <==> v.j == 0 && v.k == 0
    ensures VaOf(v) % MB2 == 0 <==> v.k == 0
    ensures VaOf(v) % 4096 == 0
  {
    assert VaOf(v) == v.i * GB + (v.j * MB2 + v.k * 4096);
    assert VaOf(v) == (v.i * 512 + v.j) * MB2 + v.k * 4096;
    assert VaOf(v) == (v.i * 0x4_0000 + v.j * 512 + v.k) * 4096;
  }

  function Onward(tbl: map<Node, nat>, p: Pid, u: Vpn): Vpn {
    if Mid(p, u.i) !in tbl then Vpn(u.i + 1, 0, 0)
    else if Low(p, u.i, u.j) in tbl && u.k < 511 then Vpn(u.i, u.j, u.k + 1)
    else if u.j < 511 then Vpn(u.i, u.j + 1, 0) else Vpn(u.i + 1, 0, 0)
  }

  /** From in step, the walk moves to the next page, or to the start of the next region. */
  lemma NextIs(tbl: map<Node, nat>, p: Pid, va: nat)
    requires InStep(tbl, p, va) && UserVa(va)
    ensures VpnOk(VpnOf(va)) && VaOf(VpnOf(va)) == va && Next(tbl, p, va) == VaOf(Onward(tbl, p, VpnOf(va)))
  {
    hide VpnOf, VaOf;
    VaSplit(va);
    Aligned(VpnOf(va));
    OnwardVa(tbl, p, VpnOf(va));
  }

  lemma OnwardVa(tbl: map<Node, nat>, p: Pid, u: Vpn)
    requires VpnOk(u)
    requires (Mid(p, u.i) in tbl || (u.j == 0 && u.k == 0)) && (Low(p, u.i, u.j) in tbl || u.k == 0)
    ensures VaOf(Onward(tbl, p, u)) == VaOf(u)
      + if Mid(p, u.i) !in tbl then GB else if Low(p, u.i, u.j) !in tbl then MB2 else 4096
  {
  }

  lemma NotSkipped(tbl: map<Node, nat>, p: Pid, va: nat, v: Vpn)
    requires InStep(tbl, p, va) && Closed(tbl, p) && UserVa(va)
    requires VpnOk(v) && Low(p, v.i, v.j) in tbl && va <= VaOf(v) && VpnOf(va) != v
    ensures Next(tbl, p, va) <= VaOf(v)
  {
    hide VpnOf, VaOf, InStep, Next, Onward, Closed;
    NextIs(tbl, p, va);
    InStepIs(tbl, p, va);
    MidToo(tbl, p, v);
    var u := VpnOf(va);
    VaOrder(u, v);
    OnwardLeast(tbl, p, u, v);
    VaOrderBack(Onward(tbl, p, u), v);
  }

  /** Page order is lexicographic in the indices. */
  predicate Before(u: Vpn, v: Vpn) {
    u.i < v.i || (u.i == v.i && (u.j < v.j || (u.j == v.j && u.k <= v.k)))
  }

  lemma VaOrder(u: Vpn, v: Vpn)
    requires VpnOk(u) && VpnOk(v) && VaOf(u) <= VaOf(v)
    ensures Before(u, v)
  {
  }

  lemma VaOrderBack(u: Vpn, v: Vpn)
    requires u.j < 512 && u.k < 512 && VpnOk(v) && Before(u, v)
    ensures VaOf(u) <= VaOf(v)
  {
  }

  lemma OnwardLeast(tbl: map<Node, nat>, p: Pid, u: Vpn, v: Vpn)
    requires VpnOk(u) && VpnOk(v) && Before(u, v) && u != v && Mid(p, v.i) in tbl && Low(p, v.i, v.j) in tbl
    ensures Before(Onward(tbl, p, u), v) && Onward(tbl, p, u).j < 512 && Onward(tbl, p, u).k < 512
  {
  }

  lemma InStepIs(tbl: map<Node, nat>, p: Pid, va: nat)
    requires InStep(tbl, p, va) && UserVa(va)
    ensures var u := VpnOf(va); (Mid(p, u.i) in tbl || (u.j == 0 && u.k == 0)) && (Low(p, u.i, u.j) in tbl || u.k == 0)
  {
    hide VpnOf, VaOf;
    VaSplit(va);
    Aligned(VpnOf(va));
  }

  lemma NextInStep(tbl: map<Node, nat>, p: Pid, va: nat)
    requires InStep(tbl, p, va) && Closed(tbl, p) && UserVa(va) && Next(tbl, p, va) < VA_LIMIT
    ensures InStep(tbl, p, Next(tbl, p, va))
  {
    hide VpnOf, VaOf, Next;
    NextIs(tbl, p, va);
    var w := Onward(tbl, p, VpnOf(va));
    OnwardOk(tbl, p, VpnOf(va));
    VpnOfVa(w, 0);
    Aligned(w);
  }

  lemma OnwardOk(tbl: map<Node, nat>, p: Pid, u: Vpn)
    requires VpnOk(u) && VaOf(Onward(tbl, p, u)) < VA_LIMIT
    ensures VpnOk(Onward(tbl, p, u))
  {
  }

  // ---- exactly when it clears everything ----

  /** Every page of the range that has a level-0 table is reached. */
  ghost predicate AllVisited(tbl: map<Node, nat>, p: Pid, va: nat, end: nat) {
    forall v :: VpnOk(v) && Low(p, v.i, v.j) in tbl && va <= VaOf(v) < end ==> v in Visits(tbl, p, va, end)
  }

  /** No level-0 table's first page lies strictly between `va` and `end`. */
  ghost predicate NoneStarts(tbl: map<Node, nat>, p: Pid, va: nat, end: nat) {
    forall i: nat, j: nat :: Low(p, i, j) in tbl && va < VaOf(Vpn(i, j, 0)) ==> end <= VaOf(Vpn(i, j, 0))
  }

  /** `i` is the first gigabyte after `g` that has a level-1 table. */
  ghost predicate FirstMid(tbl: map<Node, nat>, p: Pid, g: nat, i: nat) {
    g < i && Mid(p, i) in tbl && forall x: nat :: g < x < i ==> Mid(p, x) !in tbl
  }

  /** The start is in step with the tables; or it is inside a 2 MB region without a table, and no table
      starts in the rest of the range; or it is a later 2 MB region of a gigabyte without a table, and in the
      next gigabyte that has one no table before the same offset starts in the range. */
  ghost predicate Covers(tbl: map<Node, nat>, p: Pid, va: nat, end: nat) {
    var u := VpnOf(va);
    || InStep(tbl, p, va)
    || (u.k != 0 && Low(p, u.i, u.j) !in tbl && NoneStarts(tbl, p, va, end))
    || (u.k == 0 && u.j != 0 && Mid(p, u.i) !in tbl
        && forall i: nat, j: nat :: FirstMid(tbl, p, u.i, i) && j < u.j && Low(p, i, j) in tbl ==>
             end <= VaOf(Vpn(i, j, 0)))
  }

  lemma {:induction false} FirstStart(tbl: map<Node, nat>, p: Pid, va: nat, i: nat, j: nat) returns (t: Vpn)
    requires Low(p, i, j) in tbl && va < VaOf(Vpn(i, j, 0))
    ensures t.k == 0 && Low(p, t.i, t.j) in tbl && va < VaOf(t) <= VaOf(Vpn(i, j, 0)) && NoneStarts(tbl, p, va, VaOf(t))
    decreases VaOf(Vpn(i, j, 0))
  {
    t := Vpn(i, j, 0);
    if !NoneStarts(tbl, p, va, VaOf(t)) {
      var i', j' :| Low(p, i', j') in tbl && va < VaOf(Vpn(i', j', 0)) < VaOf(t);
      t := FirstStart(tbl, p, va, i', j');
    }
  }

  lemma {:induction false} SomeFirstMid(tbl: map<Node, nat>, p: Pid, g: nat, i: nat) returns (f: nat)
    requires g < i && Mid(p, i) in tbl
    ensures FirstMid(tbl, p, g, f) && f <= i
  {
    f := i;
    if x: nat :| g < x < i && Mid(p, x) in tbl {
      f := SomeFirstMid(tbl, p, g, x);
    }
  }

  /** From inside a 2 MB region without a table, the walk keeps its offset and misses the first page of the
      next table. */
  lemma {:induction false} Misses(tbl: map<Node, nat>, p: Pid, u: Vpn, end: nat, t: Vpn)
    requires VpnOk(u) && u.k != 0 && Low(p, u.i, u.j) !in tbl && VpnOk(t) && t.k == 0 && VaOf(u) < VaOf(t)
    requires NoneStarts(tbl, p, VaOf(u), VaOf(t)) && end <= VA_LIMIT
    ensures t !in Visits(tbl, p, VaOf(u), end)
    decreases VaOf(t) - VaOf(u)
  {
    hide VpnOf, NoneStarts;
    VpnOfVa(u, 0);
    var w := if Mid(p, u.i) !in tbl then Vpn(u.i + 1, u.j, u.k)
      else if u.j < 511 then Vpn(u.i, u.j + 1, u.k)
      else Vpn(u.i + 1, 0, u.k);
    assert Next(tbl, p, VaOf(u)) == VaOf(w) > VaOf(u);
    assert VaOf(w) == (w.i * 0x4_0000 + w.j * 512 + w.k) * 4096;
    if VaOf(w) > VaOf(t) {
      if t in Visits(tbl, p, VaOf(w), end) {
        VisitsInside(tbl, p, VaOf(w), end, t);
      }
    } else {
      StartsLater(tbl, p, u, w, t);
      Misses(tbl, p, w, end, t);
    }
  }

  lemma StartsLater(tbl: map<Node, nat>, p: Pid, u: Vpn, w: Vpn, t: Vpn)
    requires VpnOk(u) && VpnOk(t) && t.k == 0 && w.j < 512 && w.k == u.k != 0 && VaOf(w) <= VaOf(t)
    requires u.i < w.i || (u.i == w.i && u.j < w.j)
    requires NoneStarts(tbl, p, VaOf(u), VaOf(t))
    ensures VpnOk(w) && VaOf(w) < VaOf(t) && Low(p, w.i, w.j) !in tbl && NoneStarts(tbl, p, VaOf(w), VaOf(t))
  {
    assert VaOf(u) < VaOf(Vpn(w.i, w.j, 0)) < VaOf(t);
    assert VaOf(u) < VaOf(w);
  }

  /** From a gigabyte without a table, the walk reaches the next that has one at the same offset. */
  lemma {:induction false} Slides(tbl: map<Node, nat>, p: Pid, u: Vpn, i: nat, end: nat)
    requires VpnOk(u) && Mid(p, u.i) !in tbl && FirstMid(tbl, p, u.i, i) && i < 512 && end <= VA_LIMIT
    ensures Visits(tbl, p, VaOf(u), end) == Visits(tbl, p, VaOf(Vpn(i, u.j, u.k)), end)
    decreases i - u.i
  {
    hide VpnOf;
    VpnOfVa(u, 0);
    var w := Vpn(u.i + 1, u.j, u.k);
    assert VaOf(w) == VaOf(u) + GB;
    if VaOf(u) < end && w.i < i {
      Slides(tbl, p, w, i, end);
    }
  }

  /** The walk that starts inside a 2 MB region without a table. */
  lemma InsideRegion(tbl: map<Node, nat>, p: Pid, u: Vpn, end: nat)
    requires VpnOk(u) && u.k != 0 && Low(p, u.i, u.j) !in tbl && end <= VA_LIMIT && (forall n :: n in tbl ==> NodeOk(n))
    ensures AllVisited(tbl, p, VaOf(u), end) <==> NoneStarts(tbl, p, VaOf(u), end)
  {
    hide Visits, VpnOf;
    if NoneStarts(tbl, p, VaOf(u), end) {
      forall v | VpnOk(v) && Low(p, v.i, v.j) in tbl && VaOf(u) <= VaOf(v) ensures end <= VaOf(v) {
        VaOrder(u, v);
        assert VaOf(u) < VaOf(Vpn(v.i, v.j, 0)) <= VaOf(v);
      }
    } else {
      var i: nat, j: nat :| Low(p, i, j) in tbl && VaOf(u) < VaOf(Vpn(i, j, 0)) < end;
      var t := FirstStart(tbl, p, VaOf(u), i, j);
      assert NodeOk(Low(p, t.i, t.j));
      Misses(tbl, p, u, end, t);
    }
  }

  /** The walk that starts at a later 2 MB region of a gigabyte without a table. */
  lemma InsideGigabyte(tbl: map<Node, nat>, p: Pid, u: Vpn, end: nat)
    requires VpnOk(u) && u.k == 0 && u.j != 0 && Mid(p, u.i) !in tbl && end <= VA_LIMIT && Closed(tbl, p)
    requires (forall n :: n in tbl ==> NodeOk(n))
    ensures AllVisited(tbl, p, VaOf(u), end) <==>
      forall i: nat, j: nat :: FirstMid(tbl, p, u.i, i) && j < u.j && Low(p, i, j) in tbl ==> end <= VaOf(Vpn(i, j, 0))
  {
    hide Visits, VpnOf, Closed, FirstMid, InStep;
    if i: nat, j: nat :| FirstMid(tbl, p, u.i, i) && j < u.j && Low(p, i, j) in tbl && VaOf(Vpn(i, j, 0)) < end {
      BeforeLanding(tbl, p, u, i, j, end);
    } else {
      forall v | VpnOk(v) && Low(p, v.i, v.j) in tbl && VaOf(u) <= VaOf(v) < end
        ensures v in Visits(tbl, p, VaOf(u), end)
      {
        AfterLanding(tbl, p, u, v, end);
      }
    }
  }

  /** A table of the next gigabyte before the offset the walk lands on is missed. */
  lemma BeforeLanding(tbl: map<Node, nat>, p: Pid, u: Vpn, i: nat, j: nat, end: nat)
    requires VpnOk(u) && Mid(p, u.i) !in tbl && FirstMid(tbl, p, u.i, i) && NodeOk(Low(p, i, j)) && j < u.j
    requires end <= VA_LIMIT
    ensures VpnOk(Vpn(i, j, 0)) && VaOf(u) <= VaOf(Vpn(i, j, 0)) && Vpn(i, j, 0) !in Visits(tbl, p, VaOf(u), end)
  {
    hide Visits, VpnOf;
    var land, v := Vpn(i, u.j, u.k), Vpn(i, j, 0);
    Slides(tbl, p, u, i, end);
    Aligned(land);
    if v in Visits(tbl, p, VaOf(land), end) {
      VisitsInside(tbl, p, VaOf(land), end, v);
    }
  }

  lemma AfterLanding(tbl: map<Node, nat>, p: Pid, u: Vpn, v: Vpn, end: nat)
    requires VpnOk(u) && u.k == 0 && Mid(p, u.i) !in tbl && Closed(tbl, p) && end <= VA_LIMIT
    requires VpnOk(v) && Low(p, v.i, v.j) in tbl && VaOf(u) <= VaOf(v) < end
    requires forall i: nat, j: nat :: FirstMid(tbl, p, u.i, i) && j < u.j && Low(p, i, j) in tbl ==>
      end <= VaOf(Vpn(i, j, 0))
    ensures v in Visits(tbl, p, VaOf(u), end)
  {
    hide Visits, VpnOf, VaOf, Closed, FirstMid;
    MidToo(tbl, p, v);
    VaOrder(u, v);
    assert v.i != u.i;
    var i := SomeFirstMid(tbl, p, u.i, v.i);
    var land := Vpn(i, u.j, 0);
    Slides(tbl, p, u, i, end);
    Lands(tbl, p, u.i, land);
    assert Before(Vpn(v.i, v.j, 0), v);
    VaOrderBack(Vpn(v.i, v.j, 0), v);
    VaOrderBack(land, v);
    VisitsAll(tbl, p, VaOf(land), end, v);
  }

  lemma Lands(tbl: map<Node, nat>, p: Pid, g: nat, land: Vpn)
    requires VpnOk(land) && land.k == 0 && FirstMid(tbl, p, g, land.i)
    ensures InStep(tbl, p, VaOf(land)) && USER_BASE <= VaOf(land)
  {
    hide VpnOf, VaOf;
    VpnOfVa(land, 0);
    Aligned(land);
  }

  /** Every page that has a level-0 table is reached if and only if the start covers the range. */
  lemma VisitsExactly(tbl: map<Node, nat>, p: Pid, va: nat, end: nat)
    requires va % 4096 == 0 && USER_BASE <= va <= VA_LIMIT && end <= VA_LIMIT && Closed(tbl, p)
    requires (forall n :: n in tbl ==> NodeOk(n))
    ensures AllVisited(tbl, p, va, end) <==> Covers(tbl, p, va, end)
  {
    hide Visits, VpnOf, VaOf, Closed, FirstMid, NoneStarts;
    if InStep(tbl, p, va) {
      forall v | VpnOk(v) && Low(p, v.i, v.j) in tbl && va <= VaOf(v) < end ensures v in Visits(tbl, p, va, end) {
        VisitsAll(tbl, p, va, end, v);
      }
    } else if va < VA_LIMIT {
      var u := VpnOf(va);
      VaSplit(va);
      Aligned(u);
      if Low(p, u.i, u.j) in tbl {
        MidToo(tbl, p, u);
      }
      if u.k != 0 {
        InsideRegion(tbl, p, u, end);
      } else {
        InsideGigabyte(tbl, p, u, end);
      }
    }
  }

  /** `unmap_range` clears every page of the range that has a table if and only if the start covers it. */
  lemma UnmapsExactly(s: State, p: Pid, start: nat, len: nat)
    requires Inv(s) && USER_BASE <= start && start + len <= VA_LIMIT
    ensures var va, end := start / 4096 * 4096, start + len;
      AllVisited(s.tbl, p, va, end) <==> Covers(s.tbl, p, va, end)
  {
    hide Inv, AllVisited, Covers;
    ClosedTree(s, p);
    NodesOk(s);
    VisitsExactly(s.tbl, p, start / 4096 * 4096, start + len);
  }

  /** Then every mapped page of the range goes. */
  lemma UnmapsAll(s: State, p: Pid, start: nat, len: nat, v: Vpn)
    requires Inv(s) && USER_BASE <= start && start + len <= VA_LIMIT
    requires Covers(s.tbl, p, start / 4096 * 4096, start + len)
    requires Key(p, v) in s.leaf && start / 4096 * 4096 <= VaOf(v) < start + len
    ensures v in Visits(s.tbl, p, start / 4096 * 4096, start + len)
  {
    hide PoolOk, FreeOk, EntriesOk, ShareOk, CountOk, VpnOf, VaOf, Covers, Visits;
    UnmapsExactly(s, p, start, len);
  }

  lemma ClosedTree(s: State, p: Pid)
    requires Inv(s)
    ensures Closed(s.tbl, p)
  {
    hide PoolOk, FreeOk, EntriesOk, LeafOk, ShareOk, CountOk;
    forall i, j | Low(p, i, j) in s.tbl ensures Mid(p, i) in s.tbl {
      assert Parent(Low(p, i, j)) == Mid(p, i);
    }
  }

  /** Otherwise a page may stay: from one page into a gigabyte without tables, the walk jumps over the first
      page of the next. */
  lemma StepsOver(s: State, p: Pid)
    requires Inv(s) && Key(p, Vpn(5, 0, 0)) in s.leaf && Mid(p, 4) !in s.tbl
    ensures var start := VaOf(Vpn(4, 0, 1));
      start < VaOf(Vpn(5, 0, 0)) < start + 2 * GB && Vpn(5, 0, 0) !in Visits(s.tbl, p, start, start + 2 * GB)
  {
    hide Inv, VpnOf;
    var start := VaOf(Vpn(4, 0, 1));
    VpnOfVa(Vpn(4, 0, 1), 0);
    assert Next(s.tbl, p, start) == start + GB;
    if Vpn(5, 0, 0) in Visits(s.tbl, p, start, start + 2 * GB) {
      VisitsInside(s.tbl, p, start + GB, start + 2 * GB, Vpn(5, 0, 0));
    }
  }
}
