/** The frame allocator under many harts, src/mm/pmm.rs: `alloc_frame`, `incr_ref` and
    `decr_ref_and_maybe_free` as the single memory and lock steps they are made of, in any interleaving. */
module Harts {
  import opened Words

  type Hart = nat

  datatype Lock = Open | Held(h: Hart)

  /** Where a hart is. `alloc_frame` takes the list's lock, lets it go, and takes the counts' lock later;
      freeing takes the counts' lock first and the list's lock inside it. */
  datatype Pc =
    | Idle
    | AllocWait
    | AllocIn
    | AllocRead(f: nat)
    | AllocZero(f: nat)
    | AllocWaitCount(f: nat)
    | AllocCount(f: nat)
    | IncrWait(f: nat)
    | IncrIn(f: nat)
    | DecrWait(f: nat)
    | DecrIn(f: nat)
    | FreeWait(f: nat)
    | FreeIn(f: nat)
    | FreeLinked(f: nat)

  /** `head`, the links in the frames and `counts` are memory; `refs` are the references outside any call;
      `free` names the list the links spell out. */
  datatype State = State(head: nat, link: map<nat, nat>, counts: map<nat, nat>, free: seq<nat>, refs: multiset<nat>,
                         freeLock: Lock, countLock: Lock, pc: map<Hart, Pc>)

  datatype Request = Alloc | Incr(f: nat) | Decr(f: nat)

  predicate HoldsFree(p: Pc) {
    p.AllocIn? || p.AllocRead? || p.FreeIn? || p.FreeLinked?
  }

  predicate HoldsCount(p: Pc) {
    p.AllocCount? || p.IncrIn? || p.DecrIn? || p.FreeWait? || p.FreeIn? || p.FreeLinked?
  }

  /** The call holds a reference of its own to `f`, still counted. */
  predicate Pins(p: Pc, f: nat) {
    (p.IncrWait? || p.IncrIn? || p.DecrWait? || p.DecrIn?) && p.f == f
  }

  /** The frame is between the list and an owner, in this hart's hands. */
  predicate Mid(p: Pc, f: nat) {
    (p.AllocZero? || p.AllocWaitCount? || p.AllocCount? || p.FreeWait? || p.FreeIn? || p.FreeLinked?) && p.f == f
  }

  // ---- steps ----

  /** A hart can move: what it waits for is open, and it only passes on references there are. */
  predicate Enabled(s: State, h: Hart, r: Request) {
    h in s.pc &&
    match s.pc[h]
    case Idle => r.Alloc? || r.f in s.refs
    case AllocWait => s.freeLock == Open
    case AllocWaitCount(_) => s.countLock == Open
    case IncrWait(_) => s.countLock == Open
    case DecrWait(_) => s.countLock == Open
    case FreeWait(_) => s.freeLock == Open
    case _ => true
  }

  function Get(m: map<nat, nat>, f: nat): nat {
    if f in m then m[f] else 0
  }

  /** Where the hart goes next. */
  function NextPc(s: State, p: Pc, r: Request): Pc {
    match p
    case Idle => (match r case Alloc => AllocWait case Incr(f) => IncrWait(f) case Decr(f) => DecrWait(f))
    case AllocWait => AllocIn
    case AllocIn => if s.head == 0 then Idle else AllocRead(s.head)
    case AllocRead(f) => AllocZero(f)
    case AllocZero(f) => AllocWaitCount(f)
    case AllocWaitCount(f) => AllocCount(f)
    case AllocCount(f) => Idle
    case IncrWait(f) => IncrIn(f)
    case IncrIn(f) => Idle
    case DecrWait(f) => DecrIn(f)
    case DecrIn(f) => if Get(s.counts, f) > 1 then Idle else FreeWait(f)
    case FreeWait(f) => FreeIn(f)
    case FreeIn(f) => FreeLinked(f)
    case FreeLinked(f) => Idle
  }

  // What its step does to memory and to the references.

  function NextHead(s: State, p: Pc): nat {
    if p.AllocRead? then Get(s.link, p.f) else if p.FreeLinked? then p.f else s.head
  }

  function NextFree(s: State, p: Pc): seq<nat> {
    if p.AllocRead? && s.free != [] then s.free[1..] else if p.FreeLinked? then [p.f] + s.free else s.free
  }

  function NextLink(s: State, p: Pc): map<nat, nat> {
    if p.AllocZero? then s.link[p.f := 0] else if p.FreeIn? then s.link[p.f := s.head] else s.link
  }

  function NextCounts(s: State, p: Pc): map<nat, nat> {
    match p
    case AllocCount(f) => s.counts[f := 1]
    case IncrIn(f) => s.counts[f := SaturatingAdd(Get(s.counts, f))]
    case DecrIn(f) => s.counts[f := if Get(s.counts, f) > 1 then Get(s.counts, f) - 1 else 0]
    case _ => s.counts
  }

  function NextRefs(s: State, p: Pc, r: Request): multiset<nat> {
    match p
    case Idle => if r.Alloc? then s.refs else s.refs - multiset{r.f}
    case AllocCount(f) => s.refs + multiset{f}
    case IncrIn(f) => s.refs + multiset{f, f}
    case _ => s.refs
  }

  /** A lock is taken on the way into the part that holds it, and let go on the way out. */
  function LockAfter(lock: Lock, h: Hart, holds: bool): Lock {
    if holds then Held(h) else if lock == Held(h) then Open else lock
  }

  function Step(s: State, h: Hart, r: Request): State
    requires Enabled(s, h, r)
  {
    var p := s.pc[h];
    var p' := NextPc(s, p, r);
    State(NextHead(s, p), NextLink(s, p), NextCounts(s, p), NextFree(s, p), NextRefs(s, p, r),
          LockAfter(s.freeLock, h, HoldsFree(p')), LockAfter(s.countLock, h, HoldsCount(p')), s.pc[h := p'])
  }

  // ---- the invariant ----

  ghost predicate LocksOk(freeLock: Lock, countLock: Lock, pc: map<Hart, Pc>) {
    && (forall h :: h in pc ==> (HoldsFree(pc[h]) <==> freeLock == Held(h)))
    && (forall h :: h in pc ==> (HoldsCount(pc[h]) <==> countLock == Held(h)))
    && (freeLock.Held? ==> freeLock.h in pc) && (countLock.Held? ==> countLock.h in pc)
  }

  function First(q: seq<nat>): nat {
    if q == [] then 0 else q[0]
  }

  /** The head and the links spell out the list. */
  ghost predicate ListOk(head: nat, link: map<nat, nat>, free: seq<nat>) {
    && NoDup(free) && head == First(free)
    && (forall i :: 0 <= i < |free| ==> free[i] in link && free[i] > 0 && link[free[i]] == First(free[i + 1..]))
  }

  /** Calls that hold a reference to `f`. */
  function Pinning(pc: map<Hart, Pc>, f: nat): set<Hart> {
    set h | h in pc && Pins(pc[h], f)
  }

  /** All references to `f`: outside any call, and in one. */
  function Tokens(s: State, f: nat): nat {
    s.refs[f] + |Pinning(s.pc, f)|
  }

  ghost predicate InTransit(pc: map<Hart, Pc>, f: nat) {
    exists h :: h in pc && Mid(pc[h], f)
  }

  /** The count is the number of references; and a frame is free, in transit or owned, never two of these. */
  ghost predicate FrameOk(s: State, f: nat) {
    && f in s.counts && s.counts[f] == Tokens(s, f)
    && (f in s.free ==> s.counts[f] == 0 && !InTransit(s.pc, f))
    && (InTransit(s.pc, f) ==> s.counts[f] == 0)
    && (s.counts[f] == 0 ==> f in s.free || InTransit(s.pc, f))
  }

  ghost predicate OneHand(pc: map<Hart, Pc>) {
    forall a, b, f :: a in pc && b in pc && Mid(pc[a], f) && Mid(pc[b], f) ==> a == b
  }

  /** Frames named anywhere are the allocator's. */
  ghost predicate Named(s: State, frames: set<nat>) {
    && s.link.Keys == frames && 0 !in frames && s.counts.Keys == frames
    && (forall f :: f in s.free ==> f in frames) && (forall f :: f in s.refs ==> f in frames)
    && (forall h, f :: h in s.pc && (Mid(s.pc[h], f) || Pins(s.pc[h], f)) ==> f in frames)
  }

  ghost predicate HandsOk(head: nat, link: map<nat, nat>, free: seq<nat>, pc: map<Hart, Pc>) {
    && (forall h :: h in pc && pc[h].AllocRead? ==> free != [] && free[0] == pc[h].f)
    && (forall h :: h in pc && pc[h].FreeLinked? ==> pc[h].f in link && link[pc[h].f] == head)
  }

  ghost predicate Inv(s: State, frames: set<nat>) {
    && LocksOk(s.freeLock, s.countLock, s.pc) && ListOk(s.head, s.link, s.free) && HandsOk(s.head, s.link, s.free, s.pc)
    && OneHand(s.pc) && Named(s, frames) && (forall f :: f in frames ==> FrameOk(s, f))
  }

  // ---- every step keeps it ----

  /** A hart only enters a locked part when the lock is open or its own. */
  lemma Exclusive(s: State, h: Hart, r: Request)
    requires Enabled(s, h, r) && (HoldsFree(s.pc[h]) <==> s.freeLock == Held(h))
    requires (HoldsCount(s.pc[h]) <==> s.countLock == Held(h))
    ensures var p' := NextPc(s, s.pc[h], r);
      && (HoldsFree(p') ==> s.freeLock == Open || s.freeLock == Held(h))
      && (HoldsCount(p') ==> s.countLock == Open || s.countLock == Held(h))
  {
  }

  lemma LocksKept(s: State, h: Hart, r: Request)
    requires LocksOk(s.freeLock, s.countLock, s.pc) && Enabled(s, h, r)
    ensures var t := Step(s, h, r); LocksOk(t.freeLock, t.countLock, t.pc)
  {
    hide NextPc, HoldsFree, HoldsCount;
    Exclusive(s, h, r);
  }

  lemma InHand(s: State, frames: set<nat>, h: Hart)
    requires Inv(s, frames) && h in s.pc && !s.pc[h].Idle? && !s.pc[h].AllocWait? && !s.pc[h].AllocIn?
    ensures s.pc[h].f in frames && s.pc[h].f > 0 && s.pc[h].f in s.counts && s.pc[h].f in s.link
    ensures Mid(s.pc[h], s.pc[h].f) ==> s.pc[h].f !in s.free && s.counts[s.pc[h].f] == 0
    ensures Pins(s.pc[h], s.pc[h].f) ==> s.pc[h].f !in s.free && s.counts[s.pc[h].f] > 0 && !InTransit(s.pc, s.pc[h].f)
    ensures s.pc[h].AllocRead? ==>
      s.free != [] && s.free[0] == s.pc[h].f && s.pc[h].f in s.free && !InTransit(s.pc, s.pc[h].f)
  {
    hide LocksOk, OneHand;
    var f := s.pc[h].f;
    if s.pc[h].AllocRead? {
      assert s.free[0] in s.free;
    }
    assert f in frames && FrameOk(s, f);
    if Pins(s.pc[h], f) {
      assert h in Pinning(s.pc, f);
    }
  }

  lemma Unlinked(head: nat, link: map<nat, nat>, free: seq<nat>, f: nat, x: nat)
    requires ListOk(head, link, free) && f !in free
    ensures ListOk(head, link[f := x], free)
  {
  }

  lemma Popped(head: nat, link: map<nat, nat>, free: seq<nat>)
    requires ListOk(head, link, free) && free != []
    ensures free[0] in link && ListOk(link[free[0]], link, free[1..]) && free[0] !in free[1..]
  {
    assert free[0 + 1..] == free[1..];
    forall i | 0 <= i < |free[1..]|
      ensures free[1..][i] in link && free[1..][i] > 0 && link[free[1..][i]] == First(free[1..][i + 1..])
    {
      assert free[1..][i] == free[i + 1] && free[1..][i + 1..] == free[i + 1 + 1..];
    }
  }

  lemma Pushed(head: nat, link: map<nat, nat>, free: seq<nat>, f: nat)
    requires ListOk(head, link, free) && f in link && f > 0 && link[f] == head && f !in free
    ensures ListOk(f, link, [f] + free)
  {
    var free' := [f] + free;
    forall i | 0 <= i < |free'| ensures free'[i] in link && free'[i] > 0 && link[free'[i]] == First(free'[i + 1..]) {
      if i == 0 {
        assert free'[1..] == free;
      } else {
        assert free'[i] == free[i - 1] && free'[i + 1..] == free[i - 1 + 1..];
      }
    }
  }

  lemma ListKept(s: State, frames: set<nat>, h: Hart, r: Request)
    requires Inv(s, frames) && Enabled(s, h, r)
    ensures var t := Step(s, h, r); ListOk(t.head, t.link, t.free)
  {
    hide ListOk, LocksOk, OneHand, Named, FrameOk;
    var p := s.pc[h];
    if !p.Idle? && !p.AllocWait? && !p.AllocIn? {
      InHand(s, frames, h);
      match p
      case AllocRead(f) => Popped(s.head, s.link, s.free);
      case AllocZero(f) => Unlinked(s.head, s.link, s.free, f, 0);
      case FreeIn(f) => Unlinked(s.head, s.link, s.free, f, s.head);
      case FreeLinked(f) => Pushed(s.head, s.link, s.free, f);
      case _ =>
    }
  }

  lemma HandsGo(s: State, t: State, h: Hart, x: nat)
    requires HandsOk(s.head, s.link, s.free, s.pc) && LocksOk(s.freeLock, s.countLock, s.pc) && h in s.pc && h in t.pc
    requires t.pc == s.pc[h := t.pc[h]]
    requires t.pc[h].AllocRead? ==> t.free != [] && t.free[0] == t.pc[h].f
    requires t.pc[h].FreeLinked? ==> t.pc[h].f in t.link && t.link[t.pc[h].f] == t.head
    requires t.link == s.link
      || (t.link == s.link[x := Get(t.link, x)] && forall a :: a in s.pc && a != h ==> !Mid(s.pc[a], x))
    requires (t.head == s.head && t.free == s.free) || s.freeLock == Held(h)
    ensures HandsOk(t.head, t.link, t.free, t.pc)
  {
    forall a | a in t.pc && (t.pc[a].AllocRead? || t.pc[a].FreeLinked?)
      ensures t.pc[a].AllocRead? ==> t.free != [] && t.free[0] == t.pc[a].f
      ensures t.pc[a].FreeLinked? ==> t.pc[a].f in t.link && t.link[t.pc[a].f] == t.head
    {
      if a != h {
        assert s.freeLock == Held(a);
        assert t.pc[a].FreeLinked? ==> Mid(s.pc[a], s.pc[a].f);
      }
    }
  }

  lemma HandsKept(s: State, frames: set<nat>, h: Hart, r: Request)
    requires Inv(s, frames) && Enabled(s, h, r)
    ensures var t := Step(s, h, r); HandsOk(t.head, t.link, t.free, t.pc)
  {
    hide Named, FrameOk, ListOk, HandsOk;
    var p, t := s.pc[h], Step(s, h, r);
    if !p.Idle? && !p.AllocWait? && !p.AllocIn? {
      InHand(s, frames, h);
      if Mid(p, p.f) {
        OwnHand(s.pc, h, p.f);
      }
      HandsGo(s, t, h, p.f);
    } else {
      HeadIs(s);
      HandsGo(s, t, h, 0);
    }
  }

  lemma HeadIs(s: State)
    requires ListOk(s.head, s.link, s.free)
    ensures s.head == First(s.free) && (s.head != 0 ==> s.free != [] && s.free[0] == s.head)
  {
  }

  lemma OwnHand(pc: map<Hart, Pc>, h: Hart, f: nat)
    requires OneHand(pc) && h in pc && Mid(pc[h], f)
    ensures forall a :: a in pc && a != h ==> !Mid(pc[a], f)
  {
  }

  lemma OneHandGo(pc: map<Hart, Pc>, h: Hart, p: Pc)
    requires OneHand(pc) && h in pc && forall f :: Mid(p, f) ==> Mid(pc[h], f) || !InTransit(pc, f)
    ensures OneHand(pc[h := p])
  {
    var pc' := pc[h := p];
    forall a, b, f | a in pc' && b in pc' && Mid(pc'[a], f) && Mid(pc'[b], f) ensures a == b {
      assert Mid(p, f) ==> Mid(pc[h], f) || !InTransit(pc, f);
    }
  }

  lemma OneHandKept(s: State, frames: set<nat>, h: Hart, r: Request)
    requires Inv(s, frames) && Enabled(s, h, r)
    ensures OneHand(Step(s, h, r).pc)
  {
    hide ListOk, Named, FrameOk, HandsOk, OneHand, InTransit;
    var p, t := s.pc[h], Step(s, h, r);
    if !p.Idle? && !p.AllocWait? && !p.AllocIn? {
      InHand(s, frames, h);
    }
    OneHandGo(s.pc, h, t.pc[h]);
  }

  lemma NamedGo(s: State, t: State, frames: set<nat>, h: Hart)
    requires Named(s, frames) && h in s.pc && h in t.pc && t.pc == s.pc[h := t.pc[h]]
    requires t.link.Keys == s.link.Keys && t.counts.Keys == s.counts.Keys
    requires forall f :: f in t.free ==> f in s.free || f in frames
    requires forall f :: f in t.refs ==> f in s.refs || f in frames
    requires forall f :: Mid(t.pc[h], f) || Pins(t.pc[h], f) ==> f in frames
    ensures Named(t, frames)
  {
  }

  /** The frame a hart works on. */
  ghost predicate HandNamed(p: Pc, frames: set<nat>) {
    p.Idle? || p.AllocWait? || p.AllocIn? || p.f in frames
  }

  lemma MemoryNamed(s: State, p: Pc, r: Request, frames: set<nat>)
    requires HandNamed(p, frames) && s.link.Keys == frames && s.counts.Keys == frames
    ensures NextLink(s, p).Keys == frames && NextCounts(s, p).Keys == frames
    ensures forall f :: f in NextFree(s, p) ==> f in s.free || f in frames
  {
  }

  lemma RefsNamed(s: State, p: Pc, r: Request, frames: set<nat>)
    requires HandNamed(p, frames)
    ensures forall f :: f in NextRefs(s, p, r) ==> f in s.refs || f in frames
  {
  }

  lemma NextNamed(s: State, p: Pc, r: Request, frames: set<nat>)
    requires HandNamed(p, frames) && (p.AllocIn? && s.head != 0 ==> s.head in frames)
    requires (p.Idle? && !r.Alloc? ==> r.f in frames)
    ensures HandNamed(NextPc(s, p, r), frames)
  {
  }

  lemma NamedKept(s: State, frames: set<nat>, h: Hart, r: Request)
    requires Inv(s, frames) && Enabled(s, h, r)
    ensures Named(Step(s, h, r), frames)
  {
    hide OneHand, FrameOk, ListOk, HandsOk, LocksOk, NextPc, NextHead, NextLink, NextCounts, NextFree, NextRefs;
    var p, t := s.pc[h], Step(s, h, r);
    if !p.Idle? && !p.AllocWait? && !p.AllocIn? {
      InHand(s, frames, h);
    }
    HeadIs(s);
    assert s.head != 0 ==> s.free[0] in s.free;
    MemoryNamed(s, p, r, frames);
    RefsNamed(s, p, r, frames);
    NextNamed(s, p, r, frames);
    NamedGo(s, t, frames, h);
  }

  // ---- counts ----

  lemma PinningGo(pc: map<Hart, Pc>, h: Hart, p: Pc, f: nat)
    requires h in pc
    ensures |Pinning(pc[h := p], f)| == |Pinning(pc, f)|
      + (if Pins(p, f) then 1 else 0) - (if Pins(pc[h], f) then 1 else 0)
    ensures Pins(pc[h], f) ==> |Pinning(pc, f)| > 0
  {
    hide Pins;
    var rest := Pinning(pc, f) - {h};
    assert Pinning(pc, f) == if Pins(pc[h], f) then rest + {h} else rest;
    assert Pinning(pc[h := p], f) == if Pins(p, f) then rest + {h} else rest;
  }

  lemma TransitGo(pc: map<Hart, Pc>, h: Hart, p: Pc, f: nat)
    requires h in pc && OneHand(pc)
    ensures Mid(p, f) ==> InTransit(pc[h := p], f)
    ensures !Mid(p, f) && !Mid(pc[h], f) ==> (InTransit(pc[h := p], f) <==> InTransit(pc, f))
    ensures !Mid(p, f) && Mid(pc[h], f) ==> !InTransit(pc[h := p], f)
  {
    var pc' := pc[h := p];
    if Mid(p, f) {
      assert Mid(pc'[h], f);
    }
    if a :| a in pc && a != h && Mid(pc[a], f) {
      assert Mid(pc'[a], f);
    }
  }

  /** A frame the step does not name. */
  lemma FrameOther(s: State, h: Hart, r: Request, f: nat)
    requires Enabled(s, h, r) && FrameOk(s, f) && OneHand(s.pc)
    requires !Mid(s.pc[h], f) && !Pins(s.pc[h], f)
    requires (s.pc[h].AllocRead? ==> s.pc[h].f != f && (s.free != [] ==> s.free[0] == s.pc[h].f))
    requires s.pc[h].Idle? && !r.Alloc? ==> r.f != f
    ensures FrameOk(Step(s, h, r), f)
  {
    hide Pinning, InTransit, OneHand;
    var p := s.pc[h];
    var p' := NextPc(s, p, r);
    PinningGo(s.pc, h, p', f);
    TransitGo(s.pc, h, p', f);
  }

  lemma FrameStart(s: State, h: Hart, r: Request)
    requires Enabled(s, h, r) && s.pc[h].Idle? && !r.Alloc? && FrameOk(s, r.f) && OneHand(s.pc)
    ensures FrameOk(Step(s, h, r), r.f)
  {
    hide Pinning, InTransit, OneHand;
    PinningGo(s.pc, h, NextPc(s, s.pc[h], r), r.f);
    TransitGo(s.pc, h, NextPc(s, s.pc[h], r), r.f);
  }

  lemma FrameAlloc(s: State, h: Hart, r: Request, f: nat)
    requires Enabled(s, h, r) && FrameOk(s, f) && OneHand(s.pc) && NoDup(s.free)
    requires s.pc[h] == AllocRead(f) || s.pc[h] == AllocZero(f) || s.pc[h] == AllocWaitCount(f)
      || s.pc[h] == AllocCount(f)
    requires s.pc[h].AllocRead? ==> s.free != [] && s.free[0] == f
    requires Mid(s.pc[h], f) ==> InTransit(s.pc, f) && f !in s.free
    ensures FrameOk(Step(s, h, r), f)
  {
    hide Pinning, InTransit, OneHand;
    PinningGo(s.pc, h, NextPc(s, s.pc[h], r), f);
    TransitGo(s.pc, h, NextPc(s, s.pc[h], r), f);
    if s.pc[h].AllocRead? {
      assert s.free[0] in s.free && f !in s.free[1..];
    }
  }

  lemma FrameCount(s: State, h: Hart, r: Request, f: nat)
    requires Enabled(s, h, r) && FrameOk(s, f) && OneHand(s.pc) && Pins(s.pc[h], f)
    requires (s.pc[h].IncrIn? ==> Get(s.counts, f) < COUNT_MAX)
    ensures FrameOk(Step(s, h, r), f)
  {
    hide Pinning, InTransit, OneHand;
    PinningGo(s.pc, h, NextPc(s, s.pc[h], r), f);
    TransitGo(s.pc, h, NextPc(s, s.pc[h], r), f);
  }

  lemma FrameFree(s: State, h: Hart, r: Request, f: nat)
    requires Enabled(s, h, r) && FrameOk(s, f) && OneHand(s.pc) && InTransit(s.pc, f)
    requires s.pc[h] == FreeWait(f) || s.pc[h] == FreeIn(f) || s.pc[h] == FreeLinked(f)
    ensures FrameOk(Step(s, h, r), f)
  {
    hide Pinning, InTransit, OneHand;
    PinningGo(s.pc, h, NextPc(s, s.pc[h], r), f);
    TransitGo(s.pc, h, NextPc(s, s.pc[h], r), f);
  }

  lemma FrameKept(s: State, frames: set<nat>, h: Hart, r: Request, f: nat)
    requires Inv(s, frames) && Enabled(s, h, r) && f in frames && Room(s, h)
    ensures FrameOk(Step(s, h, r), f)
  {
    hide FrameOk, LocksOk, Named, OneHand, Step;
    var p := s.pc[h];
    if p.Idle? {
      if !r.Alloc? && r.f == f {
        FrameStart(s, h, r);
      } else {
        FrameOther(s, h, r, f);
      }
    } else if p.AllocWait? || p.AllocIn? {
      FrameOther(s, h, r, f);
    } else {
      InHand(s, frames, h);
      if p.f != f {
        FrameOther(s, h, r, f);
      } else if Pins(p, f) {
        FrameCount(s, h, r, f);
      } else if p.FreeWait? || p.FreeIn? || p.FreeLinked? {
        assert Mid(s.pc[h], f);
        FrameFree(s, h, r, f);
      } else {
        assert Mid(p, f) ==> InTransit(s.pc, f);
        FrameAlloc(s, h, r, f);
      }
    }
  }

  /** The count about to be raised has room; with one reference per process and 512 processes it has. */
  predicate Room(s: State, h: Hart) {
    h in s.pc && s.pc[h].IncrIn? ==> Get(s.counts, s.pc[h].f) < COUNT_MAX
  }

  lemma StepKeeps(s: State, frames: set<nat>, h: Hart, r: Request)
    requires Inv(s, frames) && Enabled(s, h, r) && Room(s, h)
    ensures Inv(Step(s, h, r), frames)
  {
    hide FrameOk, LocksOk, Named, OneHand, ListOk, HandsOk, Step, Room;
    LocksKept(s, h, r);
    ListKept(s, frames, h, r);
    HandsKept(s, frames, h, r);
    OneHandKept(s, frames, h, r);
    NamedKept(s, frames, h, r);
    forall f | f in frames ensures FrameOk(Step(s, h, r), f) {
      FrameKept(s, frames, h, r, f);
    }
  }

  // ---- boot ----

  function Links(free: seq<nat>): map<nat, nat> {
    if free == [] then map[] else Links(free[1..])[free[0] := First(free[1..])]
  }

  lemma {:induction false} LinkAt(free: seq<nat>, i: nat)
    requires NoDup(free) && i < |free|
    ensures free[i] in Links(free) && Links(free)[free[i]] == First(free[i + 1..])
    decreases i
  {
    hide First;
    if i > 0 {
      var rest := free[1..];
      assert rest[i - 1] == free[i] != free[0] && rest[i..] == free[i + 1..];
      LinkAt(rest, i - 1);
    }
  }

  lemma {:induction false} LinkedFrames(free: seq<nat>)
    ensures forall f :: f in Links(free) <==> f in free
  {
    if free != [] {
      LinkedFrames(free[1..]);
      assert free == [free[0]] + free[1..];
    }
  }

  lemma LinksSpell(free: seq<nat>)
    requires NoDup(free) && 0 !in free
    ensures ListOk(First(free), Links(free), free)
  {
    hide First, Links, NoDup;
    forall i | 0 <= i < |free|
      ensures free[i] in Links(free) && free[i] > 0 && Links(free)[free[i]] == First(free[i + 1..])
    {
      LinkAt(free, i);
      assert free[i] in free;
    }
  }

  /** As `init` leaves it: any list of frames, every hart outside, both locks open. */
  function AtBoot(free: seq<nat>, harts: set<Hart>): State {
    State(First(free), Links(free), map f | f in free :: 0, free, multiset{}, Open, Open, map h | h in harts :: Idle)
  }

  lemma BootInv(free: seq<nat>, harts: set<Hart>)
    requires NoDup(free) && 0 !in free
    ensures Inv(AtBoot(free, harts), set f | f in free)
  {
    hide ListOk, First, Links, NoDup, FrameOk;
    LinksSpell(free);
    LinkedFrames(free);
    forall f | f in free ensures FrameOk(AtBoot(free, harts), f) {
      BootFrame(free, harts, f);
    }
  }

  lemma BootFrame(free: seq<nat>, harts: set<Hart>, f: nat)
    requires f in free
    ensures FrameOk(AtBoot(free, harts), f)
  {
    hide First, Links;
    assert Pinning(AtBoot(free, harts).pc, f) == {};
  }

  // ---- runs ----

  datatype Act = Act(h: Hart, r: Request)

  /** An interleaving: at each point any hart that can move may. */
  ghost predicate Run(s: State, acts: seq<Act>, end: State)
    decreases |acts|
  {
    if acts == [] then end == s
    else Enabled(s, acts[0].h, acts[0].r) && Room(s, acts[0].h) && Run(Step(s, acts[0].h, acts[0].r), acts[1..], end)
  }

  lemma {:induction false} RunKeeps(s: State, frames: set<nat>, acts: seq<Act>, end: State)
    requires Inv(s, frames) && Run(s, acts, end)
    ensures Inv(end, frames)
    decreases |acts|
  {
    hide Inv, Step, Enabled, Room;
    if acts != [] {
      StepKeeps(s, frames, acts[0].h, acts[0].r);
      RunKeeps(Step(s, acts[0].h, acts[0].r), frames, acts[1..], end);
    }
  }

  /** Nobody has or handles the frame but `h`. */
  ghost predicate Unowned(s: State, h: Hart, f: nat) {
    && f !in s.refs && f !in s.free && Tokens(s, f) == 0
    && (forall a :: a in s.pc && a != h ==> !Mid(s.pc[a], f) && !Pins(s.pc[a], f))
  }

  /** No frame is handed out twice: when an allocation completes, nobody had the frame; then one reference exists. */
  lemma HandedOutOnce(s: State, frames: set<nat>, h: Hart, f: nat)
    requires Inv(s, frames) && h in s.pc && s.pc[h] == AllocCount(f) && Enabled(s, h, Alloc)
    ensures f in frames && Unowned(s, h, f) && Tokens(Step(s, h, Alloc), f) == 1
  {
    hide ListOk, LocksOk, HandsOk, Named;
    InHand(s, frames, h);
    assert FrameOk(s, f);
    forall a | a in s.pc && a != h ensures !Mid(s.pc[a], f) && !Pins(s.pc[a], f) {
      assert Pinning(s.pc, f) == {};
      assert Pins(s.pc[a], f) ==> a in Pinning(s.pc, f);
    }
    PinningGo(s.pc, h, Idle, f);
  }

  function Owned(s: State, frames: set<nat>): set<nat> {
    set f | f in frames && Tokens(s, f) > 0
  }

  ghost function Moving(s: State, frames: set<nat>): set<nat> {
    set f | f in frames && InTransit(s.pc, f)
  }

  /** Free, owned and moving frames always make up the same set, and no frame is two of these. */
  lemma Conservation(s: State, frames: set<nat>)
    requires Inv(s, frames)
    ensures (set f | f in s.free) + Owned(s, frames) + Moving(s, frames) == frames
    ensures forall f :: f in s.free ==> f !in Owned(s, frames) && f !in Moving(s, frames)
    ensures Owned(s, frames) !! Moving(s, frames)
  {
    hide ListOk, LocksOk, HandsOk, OneHand;
    forall f | f in frames ensures f in s.free || f in Owned(s, frames) || f in Moving(s, frames) {
      assert FrameOk(s, f);
    }
    forall f | f in s.free ensures f !in Owned(s, frames) && f !in Moving(s, frames) {
      assert f in frames && FrameOk(s, f);
    }
    forall f | f in Owned(s, frames) ensures f !in Moving(s, frames) {
      assert FrameOk(s, f);
    }
  }

  // ---- what calls come to ----

  /** An allocation finds nothing exactly when the list is empty; otherwise it leaves with the first frame. */
  lemma AllocFinds(s: State, frames: set<nat>, h: Hart, r: Request)
    requires Inv(s, frames) && h in s.pc && s.pc[h] == AllocIn && Enabled(s, h, r)
    ensures s.free == [] ==> Step(s, h, r).pc[h] == Idle
    ensures s.free != [] ==> Step(s, h, r).pc[h] == AllocRead(s.free[0])
  {
    hide LocksOk, HandsOk, OneHand, Named, FrameOk;
    assert s.free != [] ==> s.free[0] > 0;
  }

  /** The call still has to add a reference to `f`. */
  predicate WillAdd(p: Pc, f: nat) {
    match p
    case AllocRead(g) => g == f
    case AllocZero(g) => g == f
    case AllocWaitCount(g) => g == f
    case AllocCount(g) => g == f
    case IncrWait(g) => g == f
    case IncrIn(g) => g == f
    case _ => false
  }

  /** The call still has to take one away. */
  predicate WillDrop(p: Pc, f: nat) {
    match p
    case DecrWait(g) => g == f
    case DecrIn(g) => g == f
    case _ => false
  }

  function Adding(pc: map<Hart, Pc>, f: nat): set<Hart> {
    set h | h in pc && WillAdd(pc[h], f)
  }

  function Dropping(pc: map<Hart, Pc>, f: nat): set<Hart> {
    set h | h in pc && WillDrop(pc[h], f)
  }

  /** The references to `f` when the calls under way are done. */
  function Expected(s: State, f: nat): int {
    Tokens(s, f) + |Adding(s.pc, f)| - |Dropping(s.pc, f)|
  }

  lemma AddingGo(pc: map<Hart, Pc>, h: Hart, p: Pc, f: nat)
    requires h in pc
    ensures |Adding(pc[h := p], f)| ==
      |Adding(pc, f)| + (if WillAdd(p, f) then 1 else 0) - (if WillAdd(pc[h], f) then 1 else 0)
  {
    hide WillAdd;
    var rest := Adding(pc, f) - {h};
    assert Adding(pc, f) == if WillAdd(pc[h], f) then rest + {h} else rest;
    assert Adding(pc[h := p], f) == if WillAdd(p, f) then rest + {h} else rest;
  }

  lemma DroppingGo(pc: map<Hart, Pc>, h: Hart, p: Pc, f: nat)
    requires h in pc
    ensures |Dropping(pc[h := p], f)| ==
      |Dropping(pc, f)| + (if WillDrop(p, f) then 1 else 0) - (if WillDrop(pc[h], f) then 1 else 0)
  {
    hide WillDrop;
    var rest := Dropping(pc, f) - {h};
    assert Dropping(pc, f) == if WillDrop(pc[h], f) then rest + {h} else rest;
    assert Dropping(pc[h := p], f) == if WillDrop(p, f) then rest + {h} else rest;
  }

  /** What a step commits its hart to: a call to `incr_ref` or `decr_ref_and_maybe_free` begun, or a frame found
      on the list. */
  function Commits(s: State, h: Hart, r: Request, f: nat): int
    requires h in s.pc
  {
    if s.pc[h] == Idle then if r == Incr(f) then 1 else if r == Decr(f) then -1 else 0
    else if s.pc[h] == AllocIn && s.free != [] && s.free[0] == f then 1
    else 0
  }

  lemma RefsGo(s: State, h: Hart, r: Request, f: nat)
    requires Enabled(s, h, r)
    ensures NextRefs(s, s.pc[h], r)[f] ==
      s.refs[f] + (if Pins(s.pc[h], f) then 1 else 0) - (if Pins(NextPc(s, s.pc[h], r), f) then 1 else 0) +
      if s.pc[h] == AllocCount(f) || s.pc[h] == IncrIn(f) then 1 else if s.pc[h] == DecrIn(f) then -1 else 0
  {
  }

  lemma TokensGo(s: State, h: Hart, r: Request, f: nat)
    requires Enabled(s, h, r)
    ensures Tokens(Step(s, h, r), f) == Tokens(s, f) +
      if s.pc[h] == AllocCount(f) || s.pc[h] == IncrIn(f) then 1 else if s.pc[h] == DecrIn(f) then -1 else 0
  {
    hide Pinning, Pins, NextPc, NextRefs;
    PinningGo(s.pc, h, NextPc(s, s.pc[h], r), f);
    RefsGo(s, h, r, f);
  }

  lemma StepCommits(s: State, frames: set<nat>, h: Hart, r: Request, f: nat)
    requires Inv(s, frames) && Enabled(s, h, r)
    ensures Expected(Step(s, h, r), f) == Expected(s, f) + Commits(s, h, r, f)
  {
    hide Inv, Adding, Dropping, Tokens;
    TokensGo(s, h, r, f);
    AddingGo(s.pc, h, NextPc(s, s.pc[h], r), f);
    DroppingGo(s.pc, h, NextPc(s, s.pc[h], r), f);
    if s.pc[h] == AllocIn {
      AllocFinds(s, frames, h, r);
    }
  }

  function Committed(s: State, acts: seq<Act>, f: nat): int
    decreases |acts|
  {
    if acts == [] || !Enabled(s, acts[0].h, acts[0].r) then 0
    else Commits(s, acts[0].h, acts[0].r, f) + Committed(Step(s, acts[0].h, acts[0].r), acts[1..], f)
  }

  /** Every call comes to what it should, in any interleaving: an allocation adds one reference to the frame it
      found, `incr_ref` adds one and `decr_ref_and_maybe_free` takes one away. */
  lemma {:induction false} CallsComeTo(s: State, frames: set<nat>, acts: seq<Act>, end: State, f: nat)
    requires Inv(s, frames) && Run(s, acts, end)
    ensures Expected(end, f) == Expected(s, f) + Committed(s, acts, f)
    decreases |acts|
  {
    hide Inv, Step, Enabled, Room, Expected, Commits;
    if acts != [] {
      StepKeeps(s, frames, acts[0].h, acts[0].r);
      StepCommits(s, frames, acts[0].h, acts[0].r, f);
      CallsComeTo(Step(s, acts[0].h, acts[0].r), frames, acts[1..], end, f);
    }
  }

  /** So between two moments with no call under way, the count of `f` moves by just that. */
  lemma CountsMoveBy(s: State, frames: set<nat>, acts: seq<Act>, end: State, f: nat)
    requires Inv(s, frames) && Run(s, acts, end) && f in frames
    requires (forall h :: h in s.pc ==> s.pc[h] == Idle) && (forall h :: h in end.pc ==> end.pc[h] == Idle)
    ensures f in s.counts && f in end.counts && end.counts[f] == s.counts[f] + Committed(s, acts, f)
  {
    hide LocksOk, ListOk, HandsOk, OneHand, Named, Run, Committed;
    CallsComeTo(s, frames, acts, end, f);
    RunKeeps(s, frames, acts, end);
    assert FrameOk(s, f) && FrameOk(end, f);
    assert Adding(s.pc, f) == {} && Adding(end.pc, f) == {} && Dropping(s.pc, f) == {} && Dropping(end.pc, f) == {};
  }

  /** The locks never form a wait cycle: while any call is under way, some hart inside one can move. */
  lemma NoWaitCycle(s: State, frames: set<nat>, h: Hart, r: Request)
    requires Inv(s, frames) && h in s.pc && !s.pc[h].Idle?
    ensures exists a :: a in s.pc && !s.pc[a].Idle? && Enabled(s, a, r)
  {
    hide ListOk, HandsOk, OneHand, Named, FrameOk;
    if !Enabled(s, h, r) {
      var a := if s.pc[h].AllocWait? || s.pc[h].FreeWait? then s.freeLock.h else s.countLock.h;
      if !Enabled(s, a, r) {
        assert s.pc[a].FreeWait?;
        assert Enabled(s, s.freeLock.h, r);
      } else {
        assert Enabled(s, a, r);
      }
    } else {
      assert Enabled(s, h, r);
    }
  }
}
