/** Copy-on-write, demand paging and swap refine eager copying. Over any run of accesses, forks, clones,
    evictions and exits, every process reads exactly what it would if fork copied every page that is not in the
    swap pool and absent pages were zero; with nothing in the pool at any fork, that is every page. */
module Runs {
  import opened Words
  import opened Sv39
  import opened Memory
  import opened MemorySteps
  import opened Machines
  import opened Vmm
  import opened Fork
  import opened Teardown
  import opened SwapCodec
  import opened Views
  import opened Swap
  import opened Faults
  import opened Processes

  // ---- the eager model ----

  /** A private address space; pages not in the map are zero. */
  type Space = map<Vpn, Page>

  ghost function EagerPage(s: Space, v: Vpn): Page {
    if v in s then s[v] else Zero()
  }

  ghost function EagerWrite(s: Space, v: Vpn, page: Page): Space {
    s[v := page]
  }

  datatype Op =
    | Touch(p: Pid, va: nat, access: Access, quota: bool)
    | Clone(parent: Pid, child: Pid, stack: bool)
    | Fork(parent: Pid, child: Pid, stack: bool)
    | Evict(stopped: seq<Pid>)
    | End(p: Pid)

  /** What happened. `lost` are the parent's pages that were in the pool when it forked; `Halted` is a fork that
      panicked. */
  datatype Event = Touched(outcome: Outcome) | Spawned(lost: set<Vpn>) | Ended | Nothing | Halted

  /** The same step with private spaces and eager copies. */
  ghost function EagerStep(e: map<Pid, Space>, op: Op, ev: Event): map<Pid, Space> {
    match (op, ev)
    case (Touch(p, va, access, _), Touched(outcome)) =>
      if p !in e then e
      else if outcome == Killed then e - {p}
      else if outcome.Done? && access.Store? then
        e[p := EagerWrite(e[p], VpnOf(va), WithByte(EagerPage(e[p], VpnOf(va)), va % 4096, access.b))]
      else e
    case (Clone(parent, child, _), Spawned(lost)) => if parent in e then e[child := e[parent] - lost] else e
    case (Fork(parent, child, _), Spawned(lost)) => if parent in e then e[child := e[parent] - lost] else e
    case (End(p), Ended) => e - {p}
    case _ => e
  }

  ghost function EagerRun(e: map<Pid, Space>, ops: seq<Op>, evs: seq<Event>): map<Pid, Space>
    requires |evs| == |ops|
  {
    if ops == [] then e
    else EagerStep(EagerRun(e, ops[..|ops| - 1], evs[..|ops| - 1]), ops[|ops| - 1], evs[|ops| - 1])
  }

  /** A completed access got the eager model's byte. */
  ghost predicate Honest(e: map<Pid, Space>, op: Op, ev: Event) {
    op.Touch? && ev.Touched? && ev.outcome.Done? ==>
      op.p in e && ev.outcome.value == ByteAt(EagerPage(e[op.p], VpnOf(op.va)), op.va % 4096)
  }

  /** The running processes read what the eager model says. */
  ghost predicate Agrees(a: View, e: map<Pid, Space>) {
    && e.Keys <= a.roots.Keys
    && forall p, v :: p in e && VpnOk(v) ==> PageAt(a, p, v) == EagerPage(e[p], v)
  }

  lemma AgreesSame(a: View, b: View, e: map<Pid, Space>)
    requires Agrees(a, e) && Same(a, b)
    ensures Agrees(b, e)
  {
    hide PageAt, EagerPage;
  }

  lemma AgreesLost(a: View, b: View, e: map<Pid, Space>, key: Key)
    requires Agrees(a, e) && LostAtMost(a, b, key)
    ensures Agrees(b, e - {key.p})
  {
    hide PageAt, EagerPage;
  }

  lemma AgreesStore(a: View, b: View, e: map<Pid, Space>, key: Key, page: Page)
    requires Agrees(a, e) && Rewritten(a, b, key, page) && key.p in e && VpnOk(key.v)
    ensures Agrees(b, e[key.p := EagerWrite(e[key.p], key.v, page)])
  {
    hide PageAt;
  }

  lemma AgreesRolled(a: View, b: View, e: map<Pid, Space>, parent: Pid)
    requires Agrees(a, e) && Rolled(a, b, parent)
    ensures Agrees(b, e)
  {
    hide Restored;
  }

  ghost function Lost(a: View, p: Pid): set<Vpn> {
    set k | k in a.swap && p in a.roots && k.root == a.roots[p] :: k.v
  }

  lemma AgreesForked(a: View, b: View, e: map<Pid, Space>, parent: Pid, child: Pid)
    requires Sane(a) && Sane(b) && Agrees(a, e) && ForkView(a, b, parent, child) && parent in e
    ensures Agrees(b, e[child := e[parent] - Lost(a, parent)])
  {
    hide Sane, ForkView, PageAt;
    var e' := e[child := e[parent] - Lost(a, parent)];
    ForkRoots(a, b, parent, child);
    assert e'.Keys == e.Keys + {child};
    forall p, v | p in e' && VpnOk(v) ensures PageAt(b, p, v) == EagerPage(e'[p], v) {
      ForkReads(a, b, parent, child, p, v);
      LostIs(a, parent, v);
    }
  }

  lemma ForkRoots(a: View, b: View, parent: Pid, child: Pid)
    requires ForkView(a, b, parent, child)
    ensures child in b.roots && a.roots.Keys <= b.roots.Keys && |b.roots| == |a.roots| + 1
  {
    assert b.roots.Keys == a.roots.Keys + {child};
  }

  lemma LostIs(a: View, p: Pid, v: Vpn)
    requires Sane(a) && p in a.roots
    ensures v in Lost(a, p) <==> InSwap(a, p, v)
    ensures v in Lost(a, p) ==> Key(p, v) !in a.leaf
    ensures v !in Lost(a, p) && Key(p, v) !in a.leaf ==> PageAt(a, p, v) == Zero()
  {
    if InSwap(a, p, v) {
      assert SwapKey(a.roots[p], v).v in Lost(a, p);
    }
  }

  lemma AgreesEnded(a: View, b: View, e: map<Pid, Space>, p: Pid)
    requires Sane(a) && Agrees(a, e) && p in a.roots && Processes.Ended(a, b, p)
    ensures Agrees(b, e - {p}) && Sane(b)
  {
    hide PageAt, Sane;
    EndingInvisible(a, b, p);
  }

  // ---- one step ----

  ghost predicate Steady(m: Machine)
    reads m
  {
    m.Valid() && Sane(ViewOf(m)) && m.held == multiset{} && |m.roots| <= MAX_PROCESSES
  }

  predicate NoKill(ev: Event) {
    ev.Touched? ==> ev.outcome != Killed
  }

  /** The machine between two operations: what programs observe, the tables and free frames, and `live`, the
      processes that have not been killed. */
  datatype Moment = Moment(view: View, tbl: map<Node, nat>, free: seq<nat>, live: set<Pid>)

  ghost function Now(m: Machine, live: set<Pid>): Moment
    reads m
  {
    Moment(ViewOf(m), m.tbl, m.free, live)
  }

  /** A clone or fork that can be asked for. */
  ghost predicate Asked(now: Moment, op: Op) {
    (op.Clone? || op.Fork?) && op.parent in now.live && op.child !in now.view.roots
  }

  /** It makes a child: the process can be made and there is a frame for each of the parent's tables. */
  ghost predicate Spawns(now: Moment, op: Op) {
    Asked(now, op) && CanStart(now.view.roots, now.free, op.stack) && Fits(now.tbl, now.free, op.parent)
  }

  /** It is a fork that meets too few frames for the parent's tables. */
  ghost predicate Panics(now: Moment, op: Op) {
    Asked(now, op) && op.Fork? && CanStart(now.view.roots, now.free, op.stack) && !Fits(now.tbl, now.free, op.parent)
  }

  /** An access that can be made. */
  predicate Made(now: Moment, op: Op) {
    op.Touch? && op.p in now.live && op.va < VA_LIMIT
  }

  ghost predicate OutcomeIs(now: Moment, op: Op, r: Outcome)
    requires op.Touch?
  {
    && (r.Done? <==> Translated(now.view, op.p, op.va, op.access))
    && (r == Retry <==> !r.Done? && Servable(now.view, op.p, op.va, op.access, op.quota, now.free,
                                             Missing(now.tbl, Key(op.p, VpnOf(op.va)))))
  }

  /** The event is the one the moment calls for: which operations take effect, which accesses complete and which
      kill, and which pages a child goes without, which are exactly the parent's in the pool. */
  ghost predicate Tells(now: Moment, op: Op, ev: Event) {
    && ev != Halted
    && (ev.Touched? <==> Made(now, op)) && (ev.Touched? ==> OutcomeIs(now, op, ev.outcome))
    && (ev.Spawned? <==> Spawns(now, op)) && (ev.Spawned? ==> ev.lost == Lost(now.view, op.parent))
    && (ev.Ended? <==> op.End? && op.p in now.view.roots)
  }

  function Survivors(live: set<Pid>, op: Op, ev: Event): set<Pid> {
    match (op, ev)
    case (Touch(p, _, _, _), Touched(outcome)) => if outcome == Killed then live - {p} else live
    case (Clone(_, child, _), Spawned(_)) => live + {child}
    case (Fork(_, child, _), Spawned(_)) => live + {child}
    case (End(p), Ended) => live - {p}
    case _ => live
  }

  /** Some stopped process has a page; a list with a process that is not there is not asked for. */
  ghost predicate Evictable(a: View, stopped: seq<Pid>) {
    (forall p :: p in stopped ==> p in a.roots) && exists key: Key :: key in a.leaf && key.p in stopped
  }

  /** What an operation that reports nothing does: a clone or fork is rolled back, an eviction moves one page
      of a stopped process to the pool. */
  ghost predicate Idles(a: View, b: View, op: Op) {
    match op
    case Clone(parent, _, _) => Rolled(a, b, parent)
    case Fork(parent, _, _) => Rolled(a, b, parent)
    case Evict(stopped) =>
      if Evictable(a, stopped) then exists key: Key :: key.p in stopped && Evicted(a, b, key) else b == a
    case _ => b == a
  }

  /** What the operation does to what programs observe. */
  ghost predicate Moves(now: Moment, op: Op, ev: Event, next: Moment) {
    var a, b := now.view, next.view;
    && next.live == Survivors(now.live, op, ev) && (!op.Evict? ==> PoolShrinks(a, b))
    && match ev
       case Touched(r) => op.Touch? && Accessed(a, b, op.p, op.va, op.access, r)
       case Spawned(_) => (op.Clone? || op.Fork?) && ForkView(a, b, op.parent, op.child)
       case Ended => op.End? && Processes.Ended(a, b, op.p)
       case _ => Idles(a, b, op)
  }

  ghost predicate AllRights(a: View, b: View) {
    forall k: Key :: SameRights(FlagsAt(a, k), FlagsAt(b, k))
  }

  /** A child's page allows what the parent's does; a page the parent has only in the pool is absent. */
  ghost predicate ChildRights(a: View, b: View, parent: Pid, child: Pid) {
    forall k: Key ::
      if k.p != child then SameRights(FlagsAt(a, k), FlagsAt(b, k))
      else if Key(parent, k.v) in a.leaf then
        FlagsAt(b, k).Some? && Rights(FlagsAt(b, k).value) == Rights(a.leaf[Key(parent, k.v)].flags)
      else FlagsAt(b, k) == None
  }

  /** What the operation does to what pages allow: nothing, but for the page an access brings in or loses, and the
      pages of a process that begins or ends. */
  ghost predicate RightsMove(a: View, b: View, op: Op, ev: Event) {
    match ev
    case Touched(r) => op.Touch? && RightsTouched(a, b, Key(op.p, VpnOf(op.va)), op.access.Fetch?, r)
    case Spawned(_) => (op.Clone? || op.Fork?) && ChildRights(a, b, op.parent, op.child)
    case Ended => op.End? && forall k: Key :: k.p != op.p ==> SameRights(FlagsAt(a, k), FlagsAt(b, k))
    case _ => AllRights(a, b)
  }

  /** Before and after one operation. */
  ghost predicate Stepped(now: Moment, op: Op, ev: Event, next: Moment) {
    && Tells(now, op, ev) && Moves(now, op, ev, next) && RightsMove(now.view, next.view, op, ev)
    && Sane(now.view) && Sane(next.view) && next.live <= next.view.roots.Keys
    && (NoKill(ev) ==> CountersKept(now.view, next.view))
  }

  /** One operation of a run; what cannot be asked for in the current state does nothing. The run goes on unless a
      fork panics. */
  method Step(m: Machine, live: set<Pid>, op: Op) returns (live': set<Pid>, on: bool, ghost ev: Event)
    requires Steady(m) && live <= m.roots.Keys
    modifies m
    ensures on <==> !Panics(old(Now(m, live)), op)
    ensures on ==> Steady(m) && Stepped(old(Now(m, live)), op, ev, Now(m, live'))
  {
    hide Steady, Stepped, Panics;
    match op
    case Touch(_, _, _, _) =>
      live', ev := Touching(m, live, op);
      on := true;
    case Clone(_, _, _) =>
      live', on, ev := Spawning(m, live, op);
    case Fork(_, _, _) =>
      live', on, ev := Spawning(m, live, op);
    case Evict(_) =>
      ev := Evicting(m, live, op);
      live', on := live, true;
    case End(_) =>
      live', ev := Ending(m, live, op);
      on := true;
  }

  method Touching(m: Machine, live: set<Pid>, op: Op) returns (live': set<Pid>, ghost ev: Event)
    requires Steady(m) && live <= m.roots.Keys && op.Touch?
    modifies m
    ensures Steady(m) && Stepped(old(Now(m, live)), op, ev, Now(m, live')) && !Panics(old(Now(m, live)), op)
  {
    hide Machine.Valid, Machine.Pages, Sane, Accessed, VpnOf, CountersOk, Translated, Handled, Servable, Missing, Lost,
      RightsTouched, AllRights;
    ghost var a := ViewOf(m);
    RightsSame(a);
    ghost var free, missing := m.free, Missing(m.tbl, Key(op.p, VpnOf(op.va)));
    live', ev := live, Nothing;
    if op.p in live && op.va < VA_LIMIT {
      var r := Attempt(m, op.p, op.va, op.access, op.quota);
      ev := Touched(r);
      if !r.Done? {
        ServedExactly(a, ViewOf(m), op.access, op.p, op.va, op.quota, free, missing, r == Retry);
      }
      AccessedRoots(a, ViewOf(m), op.p, op.va, op.access, r);
      if r == Killed {
        live' := live - {op.p};
      }
    }
  }

  lemma AccessedRoots(a: View, b: View, p: Pid, va: nat, access: Access, r: Outcome)
    requires Accessed(a, b, p, va, access, r)
    ensures b.roots == a.roots
  {
  }

  /** `clone` or `fork`. */
  method MakeChild(m: Machine, op: Op) returns (r: ForkResult)
    requires Steady(m) && (op.Clone? || op.Fork?) && op.parent in m.roots && op.child !in m.roots
    modifies m
    ensures m.Valid() && Sane(ViewOf(m)) && m.held == multiset{}
    ensures r == Cloned <==> CanStart(old(m.roots), old(m.free), op.stack) && Fits(old(m.tbl), old(m.free), op.parent)
    ensures r == Panicked <==>
      op.Fork? && CanStart(old(m.roots), old(m.free), op.stack) && !Fits(old(m.tbl), old(m.free), op.parent)
    ensures r == Cloned ==> ForkView(old(ViewOf(m)), ViewOf(m), op.parent, op.child)
    ensures r == Refused ==> Rolled(old(ViewOf(m)), ViewOf(m), op.parent)
  {
    hide Machine.Valid, Machine.Pages, Sane, ForkView, Rolled, Fits, CanStart;
    if op.Clone? {
      var ok := SysClone(m, op.parent, op.child, op.stack);
      return if ok then Cloned else Refused;
    }
    r := SysFork(m, op.parent, op.child, op.stack);
  }

  method Spawning(m: Machine, live: set<Pid>, op: Op) returns (live': set<Pid>, on: bool, ghost ev: Event)
    requires Steady(m) && live <= m.roots.Keys && (op.Clone? || op.Fork?)
    modifies m
    ensures on <==> !Panics(old(Now(m, live)), op)
    ensures on ==> Steady(m) && Stepped(old(Now(m, live)), op, ev, Now(m, live'))
  {
    hide Machine.Valid, Machine.Pages, Sane, ForkView, Rolled, Lost, Fits, Stepped;
    ghost var now := Now(m, live);
    live', on, ev := live, true, Nothing;
    if op.parent in live && op.child !in m.roots {
      var r := MakeChild(m, op);
      if r == Panicked {
        on, ev := false, Halted;
      } else if r == Refused {
        NoChild(now, op, Now(m, live));
      } else {
        live', ev := live + {op.child}, Spawned(Lost(now.view, op.parent));
        OneChild(now, op, Now(m, live'));
      }
    } else {
      RolledNot(now.view, op.parent);
      NoChild(now, op, Now(m, live));
    }
  }

  lemma NoChild(now: Moment, op: Op, next: Moment)
    requires (op.Clone? || op.Fork?) && !Spawns(now, op) && Rolled(now.view, next.view, op.parent)
    requires next.live == now.live
    requires Sane(now.view) && Sane(next.view) && now.live <= now.view.roots.Keys
    ensures Stepped(now, op, Nothing, next) && next.view.roots == now.view.roots
  {
    hide Sane, Rolled, CountersOk, Spawns, Lost, AllRights;
    RolledRest(now.view, next.view, op.parent);
    RolledRights(now.view, next.view, op.parent);
  }

  lemma OneChild(now: Moment, op: Op, next: Moment)
    requires Spawns(now, op) && ForkView(now.view, next.view, op.parent, op.child) && next.live == now.live + {op.child}
    requires Sane(now.view) && Sane(next.view) && now.live <= now.view.roots.Keys
    ensures Stepped(now, op, Spawned(Lost(now.view, op.parent)), next) && |next.view.roots| == |now.view.roots| + 1
  {
    hide Sane, ForkView, CountersOk, Lost, CanStart, Fits, ChildRights;
    ForkRest(now.view, next.view, op.parent, op.child);
    ForkRights(now.view, next.view, op.parent, op.child);
  }

  method Evicting(m: Machine, live: set<Pid>, op: Op) returns (ghost ev: Event)
    requires Steady(m) && live <= m.roots.Keys && op.Evict?
    modifies m
    ensures Steady(m) && Stepped(old(Now(m, live)), op, ev, Now(m, live)) && !Panics(old(Now(m, live)), op)
  {
    hide Machine.Valid, Machine.Pages, Sane, PageAt, CountersOk, Evicted, Released, AllRights;
    ev := Nothing;
    RightsSame(ViewOf(m));
    if forall p :: p in op.stopped ==> p in m.roots {
      ghost var a := ViewOf(m);
      var evicted := TryEvictPage(m, op.stopped);
      if evicted.Some? {
        WasMapped(a, ViewOf(m), evicted.value);
        EvictedRights(a, ViewOf(m), evicted.value);
      }
    }
  }

  lemma WasMapped(a: View, b: View, key: Key)
    requires Evicted(a, b, key)
    ensures key in a.leaf
  {
  }

  method Ending(m: Machine, live: set<Pid>, op: Op) returns (live': set<Pid>, ghost ev: Event)
    requires Steady(m) && live <= m.roots.Keys && op.End?
    modifies m
    ensures Steady(m) && Stepped(old(Now(m, live)), op, ev, Now(m, live')) && !Panics(old(Now(m, live)), op)
  {
    hide Machine.Valid, Machine.Pages, Sane, CountersOk, Processes.Ended, Gone, AllRights, FlagsAt, SameRights;
    ghost var a := ViewOf(m);
    RightsSame(a);
    live', ev := live, Nothing;
    if op.p in m.roots {
      SaneFacts(a);
      Cleanup(m, op.p);
      EndedRest(a, ViewOf(m), op.p);
      EndedRights(a, ViewOf(m), op.p);
      live', ev := live - {op.p}, Ended;
    }
  }

  lemma EndedRest(a: View, b: View, p: Pid)
    requires Sane(a) && p in a.roots && Processes.Ended(a, b, p)
    ensures Sane(b) && PoolShrinks(a, b) && b.roots.Keys == a.roots.Keys - {p} && |b.roots| <= |a.roots|
  {
    hide Sane, PageAt;
    EndingInvisible(a, b, p);
    assert b.roots.Keys == a.roots.Keys - {p};
  }

  lemma ForkRest(a: View, b: View, parent: Pid, child: Pid)
    requires ForkView(a, b, parent, child)
    ensures CountersKept(a, b) && PoolShrinks(a, b) && b.roots.Keys == a.roots.Keys + {child}
    ensures |b.roots| == |a.roots| + 1
  {
    assert b.roots.Keys == a.roots.Keys + {child};
  }

  lemma RolledRest(a: View, b: View, parent: Pid)
    requires Rolled(a, b, parent)
    ensures CountersKept(a, b) && PoolShrinks(a, b) && b.roots == a.roots
  {
  }

  // ---- rights ----

  lemma RightsSame(a: View)
    ensures AllRights(a, a)
  {
  }

  lemma RolledRights(a: View, b: View, parent: Pid)
    requires Rolled(a, b, parent)
    ensures AllRights(a, b)
  {
    forall k: Key ensures SameRights(FlagsAt(a, k), FlagsAt(b, k)) {
      assert k in a.leaf <==> k in b.leaf;
      if k in a.leaf {
        SharedIs(a.leaf[k]);
      }
    }
  }

  lemma ForkRights(a: View, b: View, parent: Pid, child: Pid)
    requires Sane(a) && Sane(b) && ForkView(a, b, parent, child) && parent in a.roots
    ensures ChildRights(a, b, parent, child)
  {
    hide Restored, AllReadable, SwapOk;
    RootUnused(a, b, child);
    SaneFacts(a);
    SaneFacts(b);
    forall k: Key
      ensures if k.p != child then SameRights(FlagsAt(a, k), FlagsAt(b, k))
        else if Key(parent, k.v) in a.leaf then
          FlagsAt(b, k).Some? && Rights(FlagsAt(b, k).value) == Rights(a.leaf[Key(parent, k.v)].flags)
        else FlagsAt(b, k) == None
    {
      ForkRight(a, b, parent, child, k);
    }
  }

  lemma ForkRight(a: View, b: View, parent: Pid, child: Pid, k: Key)
    requires ForkView(a, b, parent, child) && parent in a.roots
    requires KeysLive(a.roots, a.leaf) && KeysLive(b.roots, b.leaf)
    requires forall s :: s in a.swap ==> s.root != b.roots[child]
    ensures if k.p != child then SameRights(FlagsAt(a, k), FlagsAt(b, k))
      else if Key(parent, k.v) in a.leaf then
        FlagsAt(b, k).Some? && Rights(FlagsAt(b, k).value) == Rights(a.leaf[Key(parent, k.v)].flags)
      else FlagsAt(b, k) == None
  {
    if VpnOk(k.v) {
      assert Lookup(b.leaf, k) == ForkedEntry(a.leaf, parent, child, k);
      if Key(parent, k.v) in a.leaf {
        SharedIs(a.leaf[Key(parent, k.v)]);
      }
    }
  }

  lemma EndedRights(a: View, b: View, p: Pid)
    requires Sane(a) && p in a.roots && Processes.Ended(a, b, p)
    ensures forall k: Key :: k.p != p ==> SameRights(FlagsAt(a, k), FlagsAt(b, k))
  {
    hide Restored;
    forall k: Key | k.p != p ensures SameRights(FlagsAt(a, k), FlagsAt(b, k)) {
      assert Lookup(b.leaf, k) == Lookup(a.leaf, k);
      if k.p in a.roots {
        assert a.roots[k.p] != a.roots[p];
      }
    }
  }

  lemma EvictedRights(a: View, b: View, key: Key)
    requires Sane(a) && Evicted(a, b, key)
    ensures AllRights(a, b)
  {
    hide Restored, Wrap;
    forall k: Key ensures SameRights(FlagsAt(a, k), FlagsAt(b, k)) {
      if k != key && k.p in a.roots && k.v == key.v {
        assert a.roots[k.p] != a.roots[key.p];
      }
    }
  }

  /** No page can be both executed and written, now or after a copy, nor could one in the pool. */
  ghost predicate NeverBoth(a: View) {
    && (forall key :: key in a.leaf ==> !(a.leaf[key].flags.x && (a.leaf[key].flags.w || a.leaf[key].flags.cow)))
    && (forall k :: k in a.swap ==> !(a.swap[k].flags.x && (a.swap[k].flags.w || a.swap[k].flags.cow)))
  }

  lemma NeverBothAt(a: View, key: Key)
    requires NeverBoth(a) && FlagsAt(a, key).Some?
    ensures !(Rights(FlagsAt(a, key).value).1 && Rights(FlagsAt(a, key).value).2)
  {
  }

  /** No step makes such a page. */
  lemma StaysNeverBoth(now: Moment, op: Op, ev: Event, next: Moment)
    requires Stepped(now, op, ev, next) && NeverBoth(now.view)
    ensures NeverBoth(next.view)
  {
    hide Tells, Moves, CountersOk, NeverBoth;
    var b := next.view;
    forall key: Key | FlagsAt(b, key).Some? && (op.End? && ev.Ended? ==> key.p != op.p)
      ensures !(Rights(FlagsAt(b, key).value).1 && Rights(FlagsAt(b, key).value).2)
    {
      RightAfter(now.view, b, op, ev, key);
    }
    EndedGone(now, op, ev, next);
    EveryFlag(b);
  }

  lemma RightAfter(a: View, b: View, op: Op, ev: Event, key: Key)
    requires RightsMove(a, b, op, ev) && NeverBoth(a)
    requires FlagsAt(b, key).Some? && (op.End? && ev.Ended? ==> key.p != op.p)
    ensures !(Rights(FlagsAt(b, key).value).1 && Rights(FlagsAt(b, key).value).2)
  {
    hide NeverBoth, FlagsAt, VpnOf;
    if FlagsAt(a, key).Some? {
      NeverBothAt(a, key);
    }
    if ev.Spawned? && key.p == op.child {
      var from := Key(op.parent, key.v);
      assert from in a.leaf ==> FlagsAt(a, from) == Some(a.leaf[from].flags) by { MappedFlags(a, from); }
      if from in a.leaf {
        NeverBothAt(a, from);
      }
    }
  }

  lemma MappedFlags(a: View, key: Key)
    requires key in a.leaf
    ensures FlagsAt(a, key) == Some(a.leaf[key].flags)
  {
  }

  /** A process that has ended has no pages left. */
  lemma EndedGone(now: Moment, op: Op, ev: Event, next: Moment)
    requires Stepped(now, op, ev, next)
    ensures op.End? && ev.Ended? ==> forall v :: FlagsAt(next.view, Key(op.p, v)) == None
  {
    hide Tells, RightsMove, CountersOk, Sane;
    if op.End? && ev.Ended? {
      forall v ensures FlagsAt(next.view, Key(op.p, v)) == None {
        assert Lookup(next.view.leaf, Key(op.p, v)) == None;
      }
    }
  }

  lemma EveryFlag(b: View)
    requires Sane(b)
    requires forall key: Key :: FlagsAt(b, key).Some? ==>
      !(Rights(FlagsAt(b, key).value).1 && Rights(FlagsAt(b, key).value).2)
    ensures NeverBoth(b)
  {
    forall key | key in b.leaf ensures !(b.leaf[key].flags.x && (b.leaf[key].flags.w || b.leaf[key].flags.cow)) {
      assert FlagsAt(b, key) == Some(b.leaf[key].flags);
    }
    forall k | k in b.swap ensures !(b.swap[k].flags.x && (b.swap[k].flags.w || b.swap[k].flags.cow)) {
      var p :| p in b.roots && b.roots[p] == k.root;
      assert SwapKey(b.roots[p], k.v) == k;
      assert Key(p, k.v) !in b.leaf;
      assert FlagsAt(b, Key(p, k.v)) == Some(b.swap[k].flags);
    }
  }

  // ---- one step agrees ----

  /** Every operation is the eager model's. */
  lemma StepAgrees(now: Moment, op: Op, ev: Event, next: Moment, e: map<Pid, Space>)
    requires Stepped(now, op, ev, next) && Agrees(now.view, e) && e.Keys == now.live
    ensures Agrees(next.view, EagerStep(e, op, ev)) && EagerStep(e, op, ev).Keys == next.live && Honest(e, op, ev)
  {
    hide Sane, Agrees, ForkView, Rolled, Processes.Ended, Accessed, VpnOf, ByteAt, WithByte, EagerPage, Lost,
      CountersOk, CanStart, Fits, Translated, Servable, Missing, Evicted, PoolShrinks;
    var a, b := now.view, next.view;
    match ev {
      case Touched(r) => TouchAgrees(a, b, e, op, r);
      case Spawned(lost) => AgreesForked(a, b, e, op.parent, op.child);
      case Ended => AgreesEnded(a, b, e, op.p);
      case _ => IdleAgrees(a, b, e, op);
    }
  }

  lemma IdleAgrees(a: View, b: View, e: map<Pid, Space>, op: Op)
    requires Sane(a) && Agrees(a, e) && Idles(a, b, op)
    ensures Agrees(b, e)
  {
    hide Sane, Agrees, Rolled, Evicted, Same, CountersOk;
    if op.Clone? || op.Fork? {
      AgreesRolled(a, b, e, op.parent);
    } else if op.Evict? && Evictable(a, op.stopped) {
      var key: Key :| key.p in op.stopped && Evicted(a, b, key);
      EvictionInvisible(a, b, key);
      AgreesSame(a, b, e);
    }
  }

  lemma TouchAgrees(a: View, b: View, e: map<Pid, Space>, op: Op, r: Outcome)
    requires Agrees(a, e) && op.Touch? && op.p in e && op.va < VA_LIMIT && Accessed(a, b, op.p, op.va, op.access, r)
    ensures Agrees(b, EagerStep(e, op, Touched(r))) && Honest(e, op, Touched(r))
  {
    hide PageAt, ByteAt, WithByte, VpnOf, Rewritten, Same, LostAtMost, Agrees, EagerPage;
    var v := VpnOf(op.va);
    match r
    case Done(value) =>
      VaSplit(op.va);
      AgreesAt(a, e, op.p, v);
      if op.access.Store? {
        AgreesStore(a, b, e, Key(op.p, v), WithByte(PageAt(a, op.p, v), op.va % 4096, op.access.b));
      }
    case Retry => AgreesSame(a, b, e);
    case Killed => AgreesLost(a, b, e, Key(op.p, v));
  }

  lemma AgreesAt(a: View, e: map<Pid, Space>, p: Pid, v: Vpn)
    requires Agrees(a, e) && p in e && VpnOk(v)
    ensures PageAt(a, p, v) == EagerPage(e[p], v)
  {
  }

  // ---- whole runs ----

  /** The moments of a run: one before each operation, and the last. */
  ghost predicate Trace(trace: seq<Moment>, ops: seq<Op>, evs: seq<Event>) {
    && |trace| == |ops| + 1 == |evs| + 1
    && forall i :: 0 <= i < |ops| ==> Stepped(trace[i], ops[i], evs[i], trace[i + 1])
  }

  ghost predicate AllHonest(e: map<Pid, Space>, ops: seq<Op>, evs: seq<Event>)
    requires |evs| == |ops|
  {
    forall i :: 0 <= i < |ops| ==> Honest(EagerRun(e, ops[..i], evs[..i]), ops[i], evs[i])
  }

  ghost predicate NoKills(evs: seq<Event>) {
    forall i :: 0 <= i < |evs| ==> NoKill(evs[i])
  }

  lemma OneMore(e: map<Pid, Space>, ops: seq<Op>, evs: seq<Event>, op: Op, ev: Event)
    requires |evs| == |ops| && AllHonest(e, ops, evs) && Honest(EagerRun(e, ops, evs), op, ev)
    ensures AllHonest(e, ops + [op], evs + [ev])
    ensures EagerRun(e, ops + [op], evs + [ev]) == EagerStep(EagerRun(e, ops, evs), op, ev)
    ensures NoKills(evs + [ev]) ==> NoKills(evs) && NoKill(ev)
  {
    hide EagerStep, Honest, NoKill;
    var ops', evs' := ops + [op], evs + [ev];
    assert ops'[..|ops|] == ops && evs'[..|ops|] == evs;
    forall i | 0 <= i < |ops'| ensures Honest(EagerRun(e, ops'[..i], evs'[..i]), ops'[i], evs'[i]) {
      if i < |ops| {
        assert ops'[..i] == ops[..i] && evs'[..i] == evs[..i];
      }
    }
    if NoKills(evs') {
      assert NoKill(evs'[|evs|]);
      assert forall i :: 0 <= i < |evs| ==> evs'[i] == evs[i];
    }
  }

  lemma TraceMore(trace: seq<Moment>, ops: seq<Op>, evs: seq<Event>, op: Op, ev: Event, next: Moment)
    requires Trace(trace, ops, evs) && Stepped(trace[|ops|], op, ev, next)
    ensures Trace(trace + [next], ops + [op], evs + [ev])
  {
    hide Stepped;
    var trace', ops', evs' := trace + [next], ops + [op], evs + [ev];
    forall i | 0 <= i < |ops'| ensures Stepped(trace'[i], ops'[i], evs'[i], trace'[i + 1]) {
      if i < |ops| {
        assert trace'[i] == trace[i] && trace'[i + 1] == trace[i + 1] && ops'[i] == ops[i] && evs'[i] == evs[i];
      }
    }
  }

  /** Any run, of any length, from any state: at the end every running process reads what the eager model
      says, and so did every access on the way. The events are those the machine's moments call for, so a child
      lacks exactly its parent's pages in the pool. A run ends early only at a fork that meets too few frames, and
      everything up to that fork was as the eager model says. */
  method Run(m: Machine, live: set<Pid>, ops: seq<Op>, ghost e: map<Pid, Space>)
    returns (on: bool, ghost evs: seq<Event>, ghost trace: seq<Moment>)
    requires Steady(m) && Agrees(ViewOf(m), e) && e.Keys == live
    modifies m
    ensures |evs| <= |ops| && Trace(trace, ops[..|evs|], evs) && trace[0] == old(Now(m, live))
    ensures AllHonest(e, ops[..|evs|], evs) && Agrees(trace[|evs|].view, EagerRun(e, ops[..|evs|], evs))
    ensures on ==> |evs| == |ops| && Steady(m) && trace[|evs|].view == ViewOf(m)
    ensures !on ==> |evs| < |ops| && Panics(trace[|evs|], ops[|evs|])
    ensures NoKills(evs) ==> CountersKept(trace[0].view, trace[|evs|].view)
  {
    hide Steady, Agrees, EagerStep, Honest, CountersOk, NoKills, AllHonest, NoKill, Machine.Pages, Stepped, Panics,
      Trace;
    evs, trace := [], [Now(m, live)];
    var n, now := 0, live;
    assert ops[..0] == [];
    NothingYet(e, trace[0]);
    AgreesRoots(ViewOf(m), e);
    while n < |ops|
      invariant 0 <= n <= |ops| && |evs| == n && |trace| == n + 1 && Steady(m) && trace[n] == Now(m, now)
      invariant Trace(trace, ops[..n], evs) && trace[0] == old(Now(m, live)) && now <= m.roots.Keys
      invariant Agrees(trace[n].view, EagerRun(e, ops[..n], evs)) && EagerRun(e, ops[..n], evs).Keys == now
      invariant AllHonest(e, ops[..n], evs)
      invariant NoKills(evs) ==> CountersKept(trace[0].view, trace[n].view)
    {
      ghost var before := EagerRun(e, ops[..n], evs);
      ghost var ev;
      now, on, ev := Step(m, now, ops[n]);
      if !on {
        return;
      }
      ghost var next := Now(m, now);
      StepAgrees(trace[n], ops[n], ev, next, before);
      SteppedRest(trace[n], ops[n], ev, next);
      OneMore(e, ops[..n], evs, ops[n], ev);
      TraceMore(trace, ops[..n], evs, ops[n], ev, next);
      assert ops[..n + 1] == ops[..n] + [ops[n]];
      evs, trace := evs + [ev], trace + [next];
      n := n + 1;
    }
    on := true;
  }

  lemma AgreesRoots(a: View, e: map<Pid, Space>)
    requires Agrees(a, e)
    ensures e.Keys <= a.roots.Keys
  {
  }

  lemma SteppedRest(now: Moment, op: Op, ev: Event, next: Moment)
    requires Stepped(now, op, ev, next)
    ensures next.live <= next.view.roots.Keys && (NoKill(ev) ==> CountersKept(now.view, next.view))
  {
  }

  lemma NothingYet(e: map<Pid, Space>, now: Moment)
    ensures AllHonest(e, [], []) && Trace([now], [], [])
  {
  }

  /** So in a run that begins without one there never is a page that can be both written and executed. */
  lemma {:induction false} NeverBothEver(trace: seq<Moment>, ops: seq<Op>, evs: seq<Event>, n: nat)
    requires Trace(trace, ops, evs) && n <= |ops| && NeverBoth(trace[0].view)
    ensures NeverBoth(trace[n].view)
  {
    hide Stepped, NeverBoth;
    if n > 0 {
      NeverBothEver(trace, ops, evs, n - 1);
      StaysNeverBoth(trace[n - 1], ops[n - 1], evs[n - 1], trace[n]);
    }
  }

  // ---- with nothing in the pool ----

  /** Fork copies every page. */
  ghost function PureStep(e: map<Pid, Space>, op: Op, ev: Event): map<Pid, Space> {
    match (op, ev)
    case (Clone(parent, child, _), Spawned(_)) => if parent in e then e[child := e[parent]] else e
    case (Fork(parent, child, _), Spawned(_)) => if parent in e then e[child := e[parent]] else e
    case _ => EagerStep(e, op, ev)
  }

  ghost function PureRun(e: map<Pid, Space>, ops: seq<Op>, evs: seq<Event>): map<Pid, Space>
    requires |evs| == |ops|
  {
    if ops == [] then e
    else PureStep(PureRun(e, ops[..|ops| - 1], evs[..|ops| - 1]), ops[|ops| - 1], evs[|ops| - 1])
  }

  /** No parent has a page in the pool when it forks. */
  ghost predicate NonePooled(trace: seq<Moment>, ops: seq<Op>)
    requires |trace| > |ops|
  {
    forall i :: 0 <= i < |ops| && Spawns(trace[i], ops[i]) ==> Lost(trace[i].view, ops[i].parent) == {}
  }

  /** Then the run is the one in which fork copies every page. */
  lemma {:induction false} PureEager(trace: seq<Moment>, ops: seq<Op>, evs: seq<Event>, e: map<Pid, Space>)
    requires Trace(trace, ops, evs) && NonePooled(trace, ops)
    ensures EagerRun(e, ops, evs) == PureRun(e, ops, evs)
    decreases |ops|
  {
    hide Lost, Spawns, Moves, RightsMove, Sane, CountersOk;
    if ops != [] {
      var n := |ops| - 1;
      assert forall i :: 0 <= i < n ==> ops[..n][i] == ops[i] && evs[..n][i] == evs[i];
      PureEager(trace[..n + 1], ops[..n], evs[..n], e);
      assert Stepped(trace[n], ops[n], evs[n], trace[n + 1]);
      NothingLost(EagerRun(e, ops[..n], evs[..n]), ops[n], evs[n]);
    }
  }

  lemma NothingLost(e: map<Pid, Space>, op: Op, ev: Event)
    requires ev.Spawned? ==> ev.lost == {}
    ensures EagerStep(e, op, ev) == PureStep(e, op, ev)
  {
    if ev.Spawned? && (op.Clone? || op.Fork?) && op.parent in e {
      assert e[op.parent] - ev.lost == e[op.parent];
    }
  }

  /** Without evictions an empty pool stays empty. */
  lemma {:induction false} PoolStaysEmpty(trace: seq<Moment>, ops: seq<Op>, evs: seq<Event>, n: nat)
    requires Trace(trace, ops, evs) && n <= |ops| && trace[0].view.swap == map[]
    requires forall op :: op in ops ==> !op.Evict?
    ensures trace[n].view.swap == map[]
  {
    hide Tells, RightsMove, Sane, CountersOk;
    if n > 0 {
      PoolStaysEmpty(trace, ops, evs, n - 1);
      assert Stepped(trace[n - 1], ops[n - 1], evs[n - 1], trace[n]) && !ops[n - 1].Evict?;
    }
  }

  /** From an empty pool and without evictions, copy-on-write is eager copying: every process reads what it would
      if fork copied every page and absent pages were zero. */
  method RunUnswapped(m: Machine, live: set<Pid>, ops: seq<Op>, ghost e: map<Pid, Space>)
    returns (on: bool, ghost evs: seq<Event>, ghost trace: seq<Moment>)
    requires Steady(m) && Agrees(ViewOf(m), e) && e.Keys == live
    requires m.swap == map[] && forall op :: op in ops ==> !op.Evict?
    modifies m
    ensures |evs| <= |ops| && Trace(trace, ops[..|evs|], evs) && trace[0] == old(Now(m, live))
    ensures PureHonest(e, ops[..|evs|], evs) && Agrees(trace[|evs|].view, PureRun(e, ops[..|evs|], evs))
    ensures on ==> |evs| == |ops| && trace[|evs|].view == ViewOf(m)
    ensures !on ==> |evs| < |ops| && Panics(trace[|evs|], ops[|evs|])
  {
    hide Steady, Agrees, CountersOk, AllHonest, PureHonest, NoKills, Trace, Panics, Lost;
    on, evs, trace := Run(m, live, ops, e);
    TraceStart(trace, ops[..|evs|], evs, old(Now(m, live)));
    UnswappedIsPure(trace, ops[..|evs|], evs, e);
  }

  lemma TraceStart(trace: seq<Moment>, ops: seq<Op>, evs: seq<Event>, now: Moment)
    requires Trace(trace, ops, evs) && trace[0] == now
    ensures trace[0].view.swap == now.view.swap
  {
  }

  ghost predicate PureHonest(e: map<Pid, Space>, ops: seq<Op>, evs: seq<Event>)
    requires |evs| == |ops|
  {
    forall i :: 0 <= i < |ops| ==> Honest(PureRun(e, ops[..i], evs[..i]), ops[i], evs[i])
  }

  lemma TracePrefix(trace: seq<Moment>, ops: seq<Op>, evs: seq<Event>, n: nat)
    requires Trace(trace, ops, evs) && n <= |ops| && NonePooled(trace, ops)
    ensures Trace(trace[..n + 1], ops[..n], evs[..n]) && NonePooled(trace[..n + 1], ops[..n])
  {
    hide Stepped, Spawns, Lost;
  }

  lemma HonestPure(trace: seq<Moment>, ops: seq<Op>, evs: seq<Event>, e: map<Pid, Space>)
    requires Trace(trace, ops, evs) && NonePooled(trace, ops) && AllHonest(e, ops, evs)
    ensures PureHonest(e, ops, evs)
  {
    hide Stepped, NonePooled, Honest, EagerRun, PureRun;
    forall i | 0 <= i < |ops| ensures Honest(PureRun(e, ops[..i], evs[..i]), ops[i], evs[i]) {
      TracePrefix(trace, ops, evs, i);
      PureEager(trace[..i + 1], ops[..i], evs[..i], e);
    }
  }

  lemma UnswappedIsPure(trace: seq<Moment>, ops: seq<Op>, evs: seq<Event>, e: map<Pid, Space>)
    requires Trace(trace, ops, evs) && trace[0].view.swap == map[] && forall op :: op in ops ==> !op.Evict?
    requires AllHonest(e, ops, evs)
    ensures NonePooled(trace, ops) && EagerRun(e, ops, evs) == PureRun(e, ops, evs) && PureHonest(e, ops, evs)
  {
    hide Stepped, CanStart, Fits, EagerRun, PureRun, AllHonest, PureHonest;
    forall i | 0 <= i < |ops| && Spawns(trace[i], ops[i]) ensures Lost(trace[i].view, ops[i].parent) == {} {
      PoolStaysEmpty(trace, ops, evs, i);
    }
    PureEager(trace, ops, evs, e);
    HonestPure(trace, ops, evs, e);
  }
}
