/** `sys_datacopy`, src/syscall/ipc.rs: copying bytes from one process's address space to another's,
    page by page, whatever mix of shared, absent and swapped pages lies under the two ranges. */
module DataCopy {
  import opened Words
  import opened Sv39
  import opened Memory
  import opened MemorySteps
  import opened Machines
  import opened Vmm
  import opened Cow
  import opened SwapCodec
  import opened Views
  import opened Swap
  import opened Faults

  // ---- what is copied ----

  /** The byte `p` reads at `va` once `n` bytes of `src` at `srcVa` are copied to `dst` at `dstVa`. */
  ghost function CopiedByte(a: View, src: Pid, srcVa: nat, dst: Pid, dstVa: nat, n: nat, p: Pid, va: nat): Byte {
    if p == dst && dstVa <= va < dstVa + n then UserByte(a, src, srcVa + (va - dstVa)) else UserByte(a, p, va)
  }

  /** The destination range reads as the source range did; no other byte of anyone changes. */
  ghost predicate Copied(a: View, b: View, src: Pid, srcVa: nat, dst: Pid, dstVa: nat, n: nat) {
    && b.roots == a.roots
    && forall p, va: nat :: p in a.roots && UserVa(va) ==>
         UserByte(b, p, va) == CopiedByte(a, src, srcVa, dst, dstVa, n, p, va)
  }

  lemma CopiedNone(a: View, b: View, src: Pid, srcVa: nat, dst: Pid, dstVa: nat)
    requires Same(a, b)
    ensures Copied(a, b, src, srcVa, dst, dstVa, 0)
  {
    hide PageAt, ByteAt;
  }

  /** The ranges are in different processes, or do not overlap. */
  predicate Apart(src: Pid, srcVa: nat, dst: Pid, dstVa: nat, len: nat) {
    src != dst || srcVa + len <= dstVa || dstVa + len <= srcVa
  }

  /** One stretch after another. */
  lemma CopiedMore(a: View, b: View, c: View, src: Pid, srcVa: nat, dst: Pid, dstVa: nat, n: nat, k: nat)
    requires Copied(a, b, src, srcVa, dst, dstVa, n) && Copied(b, c, src, srcVa + n, dst, dstVa + n, k)
    requires Apart(src, srcVa, dst, dstVa, n + k) && src in a.roots
    requires k > 0 ==> UserVa(srcVa + n) && UserVa(srcVa + n + k - 1)
    ensures Copied(a, c, src, srcVa, dst, dstVa, n + k)
  {
    hide UserByte;
    forall p, va: nat | p in a.roots && UserVa(va)
      ensures UserByte(c, p, va) == CopiedByte(a, src, srcVa, dst, dstVa, n + k, p, va)
    {
      assert UserByte(b, p, va) == CopiedByte(a, src, srcVa, dst, dstVa, n, p, va);
      if p == dst && dstVa + n <= va < dstVa + n + k {
        var x := srcVa + (va - dstVa);
        assert srcVa + n + (va - (dstVa + n)) == x && UserVa(x);
        assert UserByte(b, src, x) == CopiedByte(a, src, srcVa, dst, dstVa, n, src, x);
      }
    }
  }

  /** `n` bytes of `from` at `so` laid over `onto` at `d`. */
  function Splice(from: Page, so: nat, onto: Page, d: nat, n: nat): Page
    requires so + n <= 4096 && d + n <= 4096
  {
    OfBytes(ToBytes(onto)[..d] + ToBytes(from)[so..so + n] + ToBytes(onto)[d + n..])
  }

  lemma SpliceBytes(from: Page, so: nat, onto: Page, d: nat, n: nat, o: nat)
    requires so + n <= 4096 && d + n <= 4096 && o < 4096
    ensures ByteAt(Splice(from, so, onto, d, n), o) ==
      if d <= o < d + n then ByteAt(from, so + (o - d)) else ByteAt(onto, o)
  {
    hide ToBytes, OfBytes;
    BytesRoundTrip(ToBytes(onto)[..d] + ToBytes(from)[so..so + n] + ToBytes(onto)[d + n..]);
  }

  /** One page of `dst` overwritten with bytes of one page of `src`. */
  lemma CopiedChunk(a: View, b: View, src: Pid, srcVa: nat, dst: Pid, dstVa: nat, n: nat)
    requires UserVa(srcVa) && UserVa(dstVa) && srcVa % 4096 + n <= 4096 && dstVa % 4096 + n <= 4096
    requires Rewritten(a, b, Key(dst, VpnOf(dstVa)),
      Splice(PageAt(a, src, VpnOf(srcVa)), srcVa % 4096, PageAt(a, dst, VpnOf(dstVa)), dstVa % 4096, n))
    ensures Copied(a, b, src, srcVa, dst, dstVa, n)
  {
    hide PageAt, Splice, ByteAt, VpnOf;
    forall p, va: nat | p in a.roots && UserVa(va)
      ensures UserByte(b, p, va) == CopiedByte(a, src, srcVa, dst, dstVa, n, p, va)
    {
      if p == dst && VpnOf(va) == VpnOf(dstVa) {
        SamePage(dstVa, va);
        SpliceBytes(PageAt(a, src, VpnOf(srcVa)), srcVa % 4096, PageAt(a, dst, VpnOf(dstVa)), dstVa % 4096, n,
          va % 4096);
        if dstVa <= va < dstVa + n {
          Offset(srcVa, va - dstVa);
          Offset(dstVa, va - dstVa);
        }
      } else if p == dst && dstVa <= va < dstVa + n {
        Offset(dstVa, va - dstVa);
      }
    }
  }

  /** Addresses of one page differ only in their offset. */
  lemma SamePage(x: nat, y: nat)
    requires UserVa(x) && UserVa(y) && VpnOf(x) == VpnOf(y)
    ensures y - y % 4096 == x - x % 4096
  {
    hide VpnOf, VaOf;
    VaSplit(x);
    VaSplit(y);
  }

  lemma Offset(va: nat, o: nat)
    requires UserVa(va) && va % 4096 + o < 4096
    ensures UserVa(va + o) && VpnOf(va + o) == VpnOf(va) && (va + o) % 4096 == va % 4096 + o
  {
    hide VpnOf, VaOf;
    VaSplit(va);
    VpnOfVa(VpnOf(va), va % 4096 + o);
  }

  // ---- what finding the pages keeps ----

  /** Entries other than `key`'s are as they were. */
  ghost predicate OnlyAt(a: View, b: View, key: Key) {
    forall k: Key :: k != key ==> Lookup(b.leaf, k) == Lookup(a.leaf, k)
  }

  predicate MarkedOnly(flags: Flags) {
    flags.cow && !flags.w
  }

  /** The page is marked copy-on-write and nobody else has its frame, so a store fault on it frees that frame. */
  ghost predicate Lone(a: View, key: Key) {
    if key in a.leaf then MarkedOnly(a.leaf[key].flags) && Refs(a.leaf, a.leaf[key].ppn) == {key}
    else InSwap(a, key.p, key.v) && MarkedOnly(a.swap[SwapKey(a.roots[key.p], key.v)].flags)
  }

  /** No page of `p` becomes lone. */
  ghost predicate NoneLonelier(a: View, b: View, p: Pid) {
    forall v :: Lone(b, Key(p, v)) ==> Lone(a, Key(p, v))
  }

  /** What could be read or written still can be. */
  ghost predicate StillAllowed(a: View, b: View) {
    forall key: Key ::
      && (Allowed(a, key, Load) ==> Allowed(b, key, Load))
      && (Allowed(a, key, Store(0)) ==> Allowed(b, key, Store(0)))
  }

  lemma NothingKept(a: View, p: Pid)
    ensures NoneLonelier(a, a, p) && StillAllowed(a, a)
  {
  }

  lemma AllowedTrans(a: View, b: View, c: View)
    requires StillAllowed(a, b) && StillAllowed(b, c)
    ensures StillAllowed(a, c)
  {
    hide Allowed;
  }

  lemma LonelierTrans(a: View, b: View, c: View, p: Pid)
    requires NoneLonelier(a, b, p) && NoneLonelier(b, c, p)
    ensures NoneLonelier(a, c, p)
  {
    hide Lone;
  }

  /** The pool's entry of another page is not this page's. */
  lemma OtherSlot(a: View, key: Key, k: Key)
    requires Sane(a) && k != key && key.p in a.roots && k.p in a.roots
    ensures SwapKey(a.roots[k.p], k.v) != SwapKey(a.roots[key.p], key.v)
  {
  }

  /** Another page is in the pool after a fault exactly when it was, with the same entry. */
  lemma OtherInPool(a: View, b: View, key: Key, quota: bool, free: seq<nat>, missing: nat, ok: bool, k: Key)
    requires Sane(a) && key.p in a.roots && Paged(a, b, key, false, quota, free, missing, ok) && k != key
    ensures b.roots == a.roots && (InSwap(b, k.p, k.v) <==> InSwap(a, k.p, k.v))
    ensures InSwap(a, k.p, k.v) ==> b.swap[SwapKey(a.roots[k.p], k.v)] == a.swap[SwapKey(a.roots[k.p], k.v)]
  {
    hide Sane, Restored, Wrap;
    if k.p in a.roots {
      OtherSlot(a, key, k);
    }
  }

  lemma PagedAllows(a: View, b: View, key: Key, quota: bool, free: seq<nat>, missing: nat, ok: bool)
    requires Sane(a) && key.p in a.roots && Paged(a, b, key, false, quota, free, missing, ok)
    ensures StillAllowed(a, b)
  {
    hide Sane, Restored, Wrap;
    forall k: Key
      ensures Allowed(a, k, Load) ==> Allowed(b, k, Load)
      ensures Allowed(a, k, Store(0)) ==> Allowed(b, k, Store(0))
    {
      if k != key {
        OtherInPool(a, b, key, quota, free, missing, ok, k);
      } else if InSwap(a, key.p, key.v) {
        InPool(a, key.p, key.v);
      }
    }
  }

  lemma PagedLone(s: State, a: View, b: View, key: Key, quota: bool, missing: nat, ok: bool)
    requires Inv(s) && a.leaf == s.leaf && Sane(a) && key.p in a.roots
    requires Paged(a, b, key, false, quota, s.free, missing, ok)
    ensures NoneLonelier(a, b, key.p)
  {
    hide Inv, Sane, Restored, Wrap, Refs;
    forall v | Lone(b, Key(key.p, v)) ensures Lone(a, Key(key.p, v)) {
      var k := Key(key.p, v);
      if k == key {
        if InSwap(a, key.p, key.v) {
          InPool(a, key.p, key.v);
        }
      } else {
        OtherInPool(a, b, key, quota, s.free, missing, ok, k);
        if InSwap(a, key.p, key.v) {
          InPool(a, key.p, key.v);
        }
        if b.leaf != a.leaf && k in a.leaf {
          FreshRef(s, key, b.leaf[key], k);
        }
      }
    }
  }

  lemma FreshRef(s: State, key: Key, e: Pte, k: Key)
    requires Inv(s) && s.free != [] && e.ppn == s.free[0] && key !in s.leaf && k in s.leaf
    ensures Refs(s.leaf[key := e], s.leaf[k].ppn) == Refs(s.leaf, s.leaf[k].ppn)
  {
    hide PoolOk, TreeOk, EntriesOk, ShareOk, CountOk;
    FreeHead(s.free, s.owner);
    NoRefs(s.tbl, s.owner, s.leaf, e.ppn);
    assert k !in Refs(s.leaf, e.ppn);
    assert Refs(s.leaf[key := e], s.leaf[k].ppn) == Refs(s.leaf, s.leaf[k].ppn);
  }

  /** A page given a frame of its own. */
  lemma CopiedLone(s: State, a: View, key: Key, f: nat)
    requires Inv(s) && a.leaf == s.leaf && key in s.leaf
    ensures var b := a.(leaf := a.leaf[key := Private(f, a.leaf[key].flags)]);
      NoneLonelier(a, b, key.p) && StillAllowed(a, b)
  {
    hide PoolOk, FreeOk, TreeOk, EntriesOk, LeafOk, CountOk;
    var b := a.(leaf := a.leaf[key := Private(f, a.leaf[key].flags)]);
    forall v | Lone(b, Key(key.p, v)) ensures Lone(a, Key(key.p, v)) {
      var k := Key(key.p, v);
      if k in a.leaf && k != key {
        var g := a.leaf[k].ppn;
        assert key !in Refs(a.leaf, g);
        assert forall r :: r in Refs(a.leaf, g) ==> r in Refs(b.leaf, g);
        assert k in Refs(a.leaf, g);
      }
    }
  }

  // ---- finding the pages ----

  /** A fault brings in at most the page asked for, in a frame of its own. */
  lemma PagedFacts(s: State, a: View, b: View, p: Pid, va: nat, quota: bool, missing: nat, ok: bool)
    requires Inv(s) && Sane(a) && a.leaf == s.leaf && p in a.roots && UserVa(va)
    requires Paged(a, b, Key(p, VpnOf(va)), false, quota, s.free, missing, ok)
    ensures var key := Key(p, VpnOf(va));
      && OnlyAt(a, b, key) && (ok ==> Same(a, b)) && (!ok ==> LostAtMost(a, b, key))
      && (ok && key !in a.leaf && key in b.leaf ==> Refs(b.leaf, b.leaf[key].ppn) == {key})
      && (ok && key !in a.leaf && key in b.leaf && Lone(a, key) ==> MarkedOnly(b.leaf[key].flags))
      && (quota && missing < |s.free| && key !in a.leaf ==> ok && key in b.leaf)
  {
    hide Restored, Wrap, VpnOf, Sane, Same, LostAtMost, Inv, Refs, PageAt;
    var key := Key(p, VpnOf(va));
    FaultInvisible(a, b, Load, p, va, quota, s.free, missing, ok);
    if ok && key !in a.leaf && key in b.leaf {
      assert s.free != [] && b.leaf == a.leaf[key := b.leaf[key]] && b.leaf[key].ppn == s.free[0];
      FreshSole(s, key, b.leaf[key]);
    }
  }

  lemma FreshSole(s: State, key: Key, e: Pte)
    requires Inv(s) && s.free != [] && e.ppn == s.free[0]
    ensures Refs(s.leaf[key := e], e.ppn) == {key}
  {
    hide PoolOk, TreeOk, EntriesOk, ShareOk, CountOk;
    FreeHead(s.free, s.owner);
    NoRefs(s.tbl, s.owner, s.leaf, e.ppn);
    assert forall k :: k in s.leaf ==> k !in Refs(s.leaf, e.ppn);
  }

  lemma FewMissing(tbl: map<Node, nat>, key: Key)
    ensures Missing(tbl, key) <= 2
  {
  }

  /** Walks, faulting the page in once if it is not there. */
  method FaultIn(m: Machine, p: Pid, va: nat, quota: bool) returns (r: Option<nat>)
    requires m.Valid() && Sane(ViewOf(m)) && p in m.roots && va < VA_LIMIT && Key(p, VpnOf(va)) !in m.leaf
    modifies m`ram, m`head, m`counts, m`free, m`owner, m`tbl, m`leaf, m`held, m`swap, m`swapPages, m`swapBytes
    ensures m.Valid() && Sane(ViewOf(m)) && m.held == old(m.held)
    ensures var a, b, key := old(ViewOf(m)), ViewOf(m), Key(p, VpnOf(va));
      && OnlyAt(a, b, key) && LostAtMost(a, b, key) && NoneLonelier(a, b, p) && StillAllowed(a, b)
      && (r.Some? ==> UserVa(va) && Same(a, b) && key in b.leaf && b.leaf[key].ppn == r.value)
      && (r.Some? ==> Refs(b.leaf, r.value) == {key} && (Lone(a, key) ==> Lone(b, key)))
      && (UserVa(va) && quota && |old(m.free)| >= 3 ==> r.Some?)
      && (r.Some? ==> |m.free| + 3 >= |old(m.free)|)
  {
    hide Inv, Linked, Machine.Valid, Machine.Pages, Sane, Same, Refs, PageAt, VpnOf, Missing, Paged, NoneLonelier,
      StillAllowed, LostAtMost;
    ghost var s, a, key := m.St(), ViewOf(m), Key(p, VpnOf(va));
    ValidInv(m);
    FewMissing(m.tbl, key);
    NothingKept(a, p);
    SameSelf(a);
    SameLosesNone(a, a, key);
    var ok := HandleUserPageFault(m, p, va, false, quota);
    if UserVa(va) {
      PagedFacts(s, a, ViewOf(m), p, va, quota, Missing(s.tbl, key), ok);
      PagedAllows(a, ViewOf(m), key, quota, s.free, Missing(s.tbl, key), ok);
      PagedLone(s, a, ViewOf(m), key, quota, Missing(s.tbl, key), ok);
      SameLosesNone(a, ViewOf(m), key);
    }
    if !ok {
      return None;
    }
    VaSplit(va);
    var w := WalkPageTable(m, p, va);
    return if w.None? then None else Some(w.value.0 / 4096);
  }

  lemma SameLosesNone(a: View, b: View, key: Key)
    ensures Same(a, b) ==> LostAtMost(a, b, key)
  {
    hide PageAt;
  }

  method ResolveSource(m: Machine, p: Pid, va: nat, quota: bool) returns (r: Option<nat>)
    requires m.Valid() && Sane(ViewOf(m)) && p in m.roots && va < VA_LIMIT
    modifies m`ram, m`head, m`counts, m`free, m`owner, m`tbl, m`leaf, m`held, m`swap, m`swapPages, m`swapBytes
    ensures m.Valid() && Sane(ViewOf(m)) && m.held == old(m.held)
    ensures var a, b, key := old(ViewOf(m)), ViewOf(m), Key(p, VpnOf(va));
      && LostAtMost(a, b, key) && NoneLonelier(a, b, p) && StillAllowed(a, b)
      && (r.Some? ==> UserVa(va) && Same(a, b) && key in b.leaf && b.leaf[key].ppn == r.value)
      && (r.Some? && Lone(a, key) ==> Lone(b, key))
      && (UserVa(va) && quota && Allowed(a, key, Load) && |old(m.free)| >= 3 ==> r.Some?)
      && (r.Some? ==> |m.free| + 3 >= |old(m.free)|)
  {
    hide Inv, Linked, Machine.Valid, Machine.Pages, Sane, PageAt, VpnOf, Refs, NoneLonelier, StillAllowed, Lone,
      LostAtMost;
    ghost var a := ViewOf(m);
    SameSelf(a);
    SameLosesNone(a, a, Key(p, VpnOf(va)));
    NothingKept(a, p);
    if UserVa(va) {
      VaSplit(va);
      var w := WalkPageTable(m, p, va);
      if w.Some? {
        if !w.value.1.r {
          return None;
        }
        return Some(w.value.0 / 4096);
      }
    }
    KernelUnmapped(a, p, va);
    r := FaultIn(m, p, va, quota);
  }

  lemma KernelUnmapped(a: View, p: Pid, va: nat)
    requires Sane(a) && va < VA_LIMIT
    ensures !UserVa(va) ==> Key(p, VpnOf(va)) !in a.leaf
  {
  }

  /** Freed, as far as a byte can tell: all but the link is poison. */
  predicate Poisoned(page: Page) {
    forall i :: 1 <= i < 512 ==> page[i] == POISON
  }

  /** What became of the frame a page had before a store: still the page's contents, unless it was lone; then
      it is on the free list. */
  ghost predicate FrameAfter(a: View, ram: map<nat, Page>, held: multiset<nat>, key: Key) {
    key in a.leaf ==>
      var f := a.leaf[key].ppn;
      && f in ram && (!Lone(a, key) ==> ram[f] == PageAt(a, key.p, key.v))
      && (Lone(a, key) && f !in held ==> Poisoned(ram[f]))
  }

  /** The frame to write to when the page is there but not writable: a private copy, if it is marked. */
  method CopyTarget(m: Machine, p: Pid, va: nat) returns (r: Option<nat>)
    requires m.Valid() && Sane(ViewOf(m)) && p in m.roots && UserVa(va)
    requires Key(p, VpnOf(va)) in m.leaf && !m.leaf[Key(p, VpnOf(va))].flags.w
    modifies m`ram, m`head, m`counts, m`free, m`owner, m`tbl, m`leaf, m`held
    ensures m.Valid() && Sane(ViewOf(m)) && m.held == old(m.held)
    ensures var a, b, key := old(ViewOf(m)), ViewOf(m), Key(p, VpnOf(va));
      && OnlyAt(a, b, key) && Same(a, b) && NoneLonelier(a, b, p) && StillAllowed(a, b)
      && (r.Some? ==> key in b.leaf && b.leaf[key].ppn == r.value && Refs(b.leaf, r.value) == {key})
      && (r.Some? ==> FrameAfter(a, m.ram, m.held, key) && |m.free| + 1 >= |old(m.free)|)
      && (a.leaf[key].flags.cow && old(m.free) != [] ==> r.Some?)
  {
    hide Inv, Linked, Machine.Valid, Machine.Pages, Sane, PageAt, VpnOf, Refs, NoneLonelier, StillAllowed, FrameAfter,
      Released, Private, Same;
    ghost var s, a, key := m.St(), ViewOf(m), Key(p, VpnOf(va));
    SameSelf(a);
    NothingKept(a, p);
    ValidInv(m);
    VaSplit(va);
    var ok := HandleStorePageFault(m, p, va);
    if !ok {
      return None;
    }
    IsPrivate(s.free[0], s.leaf[key].flags);
    SaneCow(a, ViewOf(m), key);
    SoleWritable(m, key);
    SameLeaf(a, m.leaf);
    CopiedLone(s, a, key, s.free[0]);
    FrameLeft(m, s, a, s.free[1..], key);
    ReleasedSize(s.leaf, s.held, s.free[1..], m.free, key);
    var w := WalkPageTable(m, p, va);
    assert w.Some?;
    return Some(w.value.0 / 4096);
  }

  /** The frame to write to: writable, or copied first, or brought in. */
  method ResolveTarget(m: Machine, p: Pid, va: nat, quota: bool) returns (r: Option<nat>)
    requires m.Valid() && Sane(ViewOf(m)) && p in m.roots && va < VA_LIMIT
    modifies m`ram, m`head, m`counts, m`free, m`owner, m`tbl, m`leaf, m`held, m`swap, m`swapPages, m`swapBytes
    ensures m.Valid() && Sane(ViewOf(m)) && m.held == old(m.held)
    ensures var a, b, key := old(ViewOf(m)), ViewOf(m), Key(p, VpnOf(va));
      && OnlyAt(a, b, key) && LostAtMost(a, b, key) && NoneLonelier(a, b, p) && StillAllowed(a, b)
      && (r.Some? ==>
           UserVa(va) && Same(a, b) && key in b.leaf && b.leaf[key].ppn == r.value && Refs(b.leaf, r.value) == {key})
      && (r.Some? ==> FrameAfter(a, m.ram, m.held, key))
      && (UserVa(va) && quota && Allowed(a, key, Store(0)) && |old(m.free)| >= 3 ==> r.Some?)
      && (r.Some? ==> |m.free| + 3 >= |old(m.free)|)
  {
    hide Inv, Linked, Machine.Valid, Machine.Pages, Sane, PageAt, VpnOf, Refs, NoneLonelier, StillAllowed, Lone,
      LostAtMost, FrameAfter, Released, Private;
    ghost var a, key := ViewOf(m), Key(p, VpnOf(va));
    SameSelf(a);
    SameLosesNone(a, a, key);
    NothingKept(a, p);
    if UserVa(va) {
      VaSplit(va);
      var w := WalkPageTable(m, p, va);
      if w.Some? {
        if w.value.1.w {
          SoleWritable(m, key);
          FrameStays(m, key);
          return Some(w.value.0 / 4096);
        }
        r := CopyTarget(m, p, va);
        SameLosesNone(a, ViewOf(m), key);
        return;
      }
    }
    KernelUnmapped(a, p, va);
    NoFrame(a, m.ram, m.held, key);
    r := FaultIn(m, p, va, quota);
    NoFrame(a, m.ram, m.held, key);
  }

  lemma IsPrivate(f: nat, flags: Flags)
    ensures Private(f, flags).ppn == f && Private(f, flags).flags == flags.(cow := false, w := true)
  {
  }

  lemma NoFrame(a: View, ram: map<nat, Page>, held: multiset<nat>, key: Key)
    ensures key !in a.leaf ==> FrameAfter(a, ram, held, key)
  {
  }

  lemma ReleasedSize(leaf: map<Key, Pte>, held: multiset<nat>, before: seq<nat>, after: seq<nat>, key: Key)
    requires Released(leaf, held, before, after, key)
    ensures |after| >= |before|
  {
  }

  lemma FrameStays(m: Machine, key: Key)
    requires m.Valid() && key in m.leaf && m.leaf[key].flags.w
    ensures FrameAfter(ViewOf(m), m.ram, m.held, key)
  {
    hide Inv, Linked, Machine.Valid, Machine.Pages, PageAt, Refs;
    MappedPage(m, key);
  }

  /** The old frame after a store fault gave the page a new one. */
  lemma FrameLeft(m: Machine, s: State, a: View, free: seq<nat>, key: Key)
    requires m.Valid() && Inv(s) && a.leaf == s.leaf && a.pages == Resident(s.ram, s.leaf) == m.Pages() && key in a.leaf
    requires MarkedOnly(a.leaf[key].flags) && OnlyAt(a, ViewOf(m), key) && Released(a.leaf, m.held, free, m.free, key)
    ensures FrameAfter(a, m.ram, m.held, key)
  {
    hide Inv, Linked, Machine.Valid, Machine.Pages, Resident;
    var f := a.leaf[key].ppn;
    if Refs(a.leaf, f) == {key} {
      LoneFrame(m, f, free);
    } else {
      assert key in Refs(a.leaf, f);
      var r :| r in Refs(a.leaf, f) && r != key;
      assert Lookup(m.leaf, r) == Lookup(a.leaf, r);
      LeafPage(m, r);
      OneFrame(s, key, r);
    }
  }

  lemma LoneFrame(m: Machine, f: nat, free: seq<nat>)
    requires m.Valid() && (m.free == [f] + free || f in m.held)
    ensures f in m.ram && (m.free == [f] + free ==> Poisoned(m.ram[f]))
  {
    hide Inv;
    if m.free == [f] + free {
      assert m.free[0] == f;
    } else {
      HeldIn(m.St(), f);
    }
  }

  lemma OneFrame(s: State, x: Key, y: Key)
    requires Inv(s) && x in s.leaf && y in s.leaf && s.leaf[x].ppn == s.leaf[y].ppn
    ensures var pages := Resident(s.ram, s.leaf); x in pages && y in pages && pages[x] == pages[y]
  {
    hide Inv;
    InvMapped(s);
  }

  lemma SameLeaf(a: View, leaf: map<Key, Pte>)
    ensures Same(a, a.(leaf := leaf))
  {
    hide Restored;
  }

  // ---- one stretch ----

  /** As much as is left and fits in both pages. */
  function Chunk(srcVa: nat, dstVa: nat, left: nat): nat {
    Min(left, Min(4096 - srcVa % 4096, 4096 - dstVa % 4096))
  }

  /** Source and target lie in one lone page: the store fault frees the frame the source was found in. */
  ghost predicate Stale(a: View, src: Pid, srcVa: nat, dst: Pid, dstVa: nat) {
    src == dst && VpnOf(srcVa) == VpnOf(dstVa) && Lone(a, Key(dst, VpnOf(dstVa)))
  }

  /** `n` bytes of a freed frame are written where the copy should be. */
  ghost predicate Garbled(a: View, b: View, srcVa: nat, dst: Pid, dstVa: nat, n: nat) {
    && srcVa % 4096 + n <= 4096 && dstVa % 4096 + n <= 4096
    && exists page: Page :: Poisoned(page) && Rewritten(a, b, Key(dst, VpnOf(dstVa)),
         Splice(page, srcVa % 4096, PageAt(a, dst, VpnOf(dstVa)), dstVa % 4096, n))
  }

  /** The bytes of frame `from` put in the frame of the target page. */
  method CopyChunk(m: Machine, so: nat, ghost key: Key, d: nat, from: nat, onto: nat, n: nat)
    requires m.Valid() && Sane(ViewOf(m)) && so + n <= 4096 && d + n <= 4096 && from in m.ram
    requires key in m.leaf && m.leaf[key].ppn == onto && Refs(m.leaf, onto) == {key}
    modifies m`ram, m`owner, m`tbl, m`leaf, m`held
    ensures m.Valid() && Sane(ViewOf(m)) && m.held == old(m.held) && m.leaf == old(m.leaf)
    ensures ViewOf(m) == old(ViewOf(m)).(pages := m.Pages())
    ensures Rewritten(old(ViewOf(m)), ViewOf(m), key,
      Splice(old(m.ram)[from], so, PageAt(old(ViewOf(m)), key.p, key.v), d, n))
  {
    hide Inv, Linked, Machine.Valid, Machine.Pages, Sane, PageAt, Refs, Splice, Rewritten;
    ghost var a := ViewOf(m);
    MappedPage(m, key);
    var page := Splice(m.ram[from], so, m.ram[onto], d, n);
    SaneWrite(a, key, page);
    WriteUser(m, key, onto, page);
  }

  lemma MappedPage(m: Machine, key: Key)
    requires m.Valid() && key in m.leaf
    ensures m.leaf[key].ppn in m.ram && PageAt(ViewOf(m), key.p, key.v) == m.ram[m.leaf[key].ppn]
  {
    hide Inv, Linked, Resident, Machine.Valid, Machine.Pages;
    LeafPage(m, key);
  }

  /** The frame found for the source, when the target has been found too. */
  lemma SourceStill(m: Machine, b: View, src: Key, dst: Key, from: nat)
    requires m.Valid() && src in b.leaf && b.leaf[src].ppn == from && OnlyAt(b, ViewOf(m), dst) && Same(b, ViewOf(m))
    requires src.p in b.roots
    requires FrameAfter(b, m.ram, m.held, dst)
    ensures from in m.ram
    ensures !(src == dst && Lone(b, dst)) ==> m.ram[from] == PageAt(b, src.p, src.v)
    ensures src == dst && Lone(b, dst) && m.held == multiset{} ==> Poisoned(m.ram[from])
  {
    hide Inv, Linked, Machine.Valid, Machine.Pages, PageAt, Lone;
    if src != dst {
      assert Lookup(m.leaf, src) == Lookup(b.leaf, src);
      MappedPage(m, src);
    }
  }

  /** One stretch: the source page found, then the target page, then the bytes copied from frame to frame. */
  method CopyStretch(m: Machine, src: Pid, srcVa: nat, dst: Pid, dstVa: nat, left: nat, quota: bool, quota': bool)
    returns (ok: bool, ghost lost: Key)
    requires m.Valid() && Sane(ViewOf(m)) && src in m.roots && dst in m.roots && left > 0
    requires srcVa + left <= VA_LIMIT && dstVa + left <= VA_LIMIT
    modifies m`ram, m`head, m`counts, m`free, m`owner, m`tbl, m`leaf, m`held, m`swap, m`swapPages, m`swapBytes
    ensures m.Valid() && Sane(ViewOf(m)) && m.held == old(m.held) && m.roots == old(m.roots)
    ensures lost == Key(src, VpnOf(srcVa)) || lost == Key(dst, VpnOf(dstVa))
    ensures var a, b, n := old(ViewOf(m)), ViewOf(m), Chunk(srcVa, dstVa, left);
      && (!ok ==> LostAtMost(a, b, lost)) && (ok ==> UserVa(srcVa) && UserVa(dstVa))
      && (ok && !Stale(a, src, srcVa, dst, dstVa) ==> Copied(a, b, src, srcVa, dst, dstVa, n))
      && (ok && Stale(a, src, srcVa, dst, dstVa) && m.held == multiset{} ==> Garbled(a, b, srcVa, dst, dstVa, n))
      && (ok ==> StillAllowed(a, b) && (src == dst ==> NoneLonelier(a, b, dst)) && |m.free| + 6 >= |old(m.free)|)
      && (PermittedAt(a, src, srcVa, dst, dstVa, 0) && quota && quota' && |old(m.free)| >= 6 ==> ok)
  {
    hide Inv, Linked, Machine.Valid, Machine.Pages, Sane, PageAt, VpnOf, Refs, Copied, LostAtMost, Same, UserVa, Lone,
      NoneLonelier, StillAllowed, Allowed, OnlyAt, FrameAfter, Rewritten, Garbled;
    ghost var a, key, key' := ViewOf(m), Key(src, VpnOf(srcVa)), Key(dst, VpnOf(dstVa));
    lost := key;
    var from := ResolveSource(m, src, srcVa, quota);
    SameRoots(a, ViewOf(m), key);
    if from.None? {
      return false, lost;
    }
    ghost var b := ViewOf(m);
    AllowedOne(a, b, key');
    lost := key';
    var onto := ResolveTarget(m, dst, dstVa, quota');
    ghost var c := ViewOf(m);
    SameRoots(b, c, key');
    if onto.None? {
      LostAfter(a, b, c, lost);
      return false, lost;
    }
    SourceStill(m, b, key, key', from.value);
    AllowedTrans(a, b, c);
    SameTrans(a, b, c);
    if src == dst {
      LonelierTrans(a, b, c, dst);
      LonelierOne(a, b, dst, VpnOf(dstVa));
    }
    ghost var page := m.ram[from.value];
    CopyChunk(m, srcVa % 4096, key', dstVa % 4096, from.value, onto.value, Chunk(srcVa, dstVa, left));
    Stretched(a, b, c, ViewOf(m), src, srcVa, dst, dstVa, Chunk(srcVa, dstVa, left), page);
    SameLeaves(c, ViewOf(m), dst);
    if src == dst {
      LonelierTrans(a, c, ViewOf(m), dst);
    }
    AllowedTrans(a, c, ViewOf(m));
    return true, lost;
  }

  lemma SameRoots(a: View, b: View, key: Key)
    requires LostAtMost(a, b, key)
    ensures b.roots == a.roots
  {
  }

  lemma SameTrans(a: View, b: View, c: View)
    requires Same(a, b) && Same(b, c)
    ensures Same(a, c)
  {
    hide PageAt;
  }

  lemma AllowedOne(a: View, b: View, key: Key)
    requires StillAllowed(a, b)
    ensures Allowed(a, key, Store(0)) ==> Allowed(b, key, Store(0))
    ensures Allowed(a, key, Load) ==> Allowed(b, key, Load)
  {
    hide Allowed;
  }

  lemma LonelierOne(a: View, b: View, p: Pid, v: Vpn)
    requires NoneLonelier(a, b, p)
    ensures Lone(b, Key(p, v)) ==> Lone(a, Key(p, v))
  {
    hide Lone;
  }

  lemma SameLeaves(a: View, b: View, p: Pid)
    requires b == a.(pages := b.pages)
    ensures NoneLonelier(a, b, p) && StillAllowed(a, b)
  {
  }

  lemma SameSelf(a: View)
    ensures Same(a, a)
  {
  }

  lemma LostAfter(a: View, b: View, c: View, key: Key)
    requires Same(a, b) && LostAtMost(b, c, key)
    ensures LostAtMost(a, c, key)
  {
    hide PageAt;
  }

  lemma RewrittenSame(a: View, c: View, d: View, key: Key, page: Page)
    requires Same(a, c) && Rewritten(c, d, key, page)
    ensures Rewritten(a, d, key, page)
  {
    hide PageAt;
  }

  lemma SamePageAt(a: View, b: View, p: Pid, v: Vpn)
    requires Same(a, b) && p in a.roots
    ensures PageAt(b, p, v) == PageAt(a, p, v)
  {
    hide PageAt;
  }

  /** What a stretch does, from what its steps did. */
  lemma Stretched(a: View, b: View, c: View, d: View, src: Pid, srcVa: nat, dst: Pid, dstVa: nat, n: nat, page: Page)
    requires Same(a, b) && Same(b, c) && src in a.roots && dst in a.roots && UserVa(srcVa) && UserVa(dstVa)
    requires srcVa % 4096 + n <= 4096 && dstVa % 4096 + n <= 4096
    requires var key := Key(dst, VpnOf(dstVa));
      && Rewritten(c, d, key, Splice(page, srcVa % 4096, PageAt(c, dst, key.v), dstVa % 4096, n))
      && (!(Key(src, VpnOf(srcVa)) == key && Lone(b, key)) ==> page == PageAt(b, src, VpnOf(srcVa)))
      && (src == dst && VpnOf(srcVa) == key.v ==> (Lone(a, key) <==> Lone(b, key)))
    ensures !Stale(a, src, srcVa, dst, dstVa) ==> Copied(a, d, src, srcVa, dst, dstVa, n)
    ensures Stale(a, src, srcVa, dst, dstVa) && Poisoned(page) ==> Garbled(a, d, srcVa, dst, dstVa, n)
  {
    hide Same, Rewritten, PageAt, Splice, Lone, VpnOf, Copied, Poisoned;
    SameTrans(a, b, c);
    if Stale(a, src, srcVa, dst, dstVa) {
      SamePageAt(a, c, dst, VpnOf(dstVa));
      RewrittenSame(a, c, d, Key(dst, VpnOf(dstVa)),
        Splice(page, srcVa % 4096, PageAt(c, dst, VpnOf(dstVa)), dstVa % 4096, n));
    } else {
      SameHasRoots(a, b);
      SamePageAt(b, c, src, VpnOf(srcVa));
      CopiedChunk(c, d, src, srcVa, dst, dstVa, n);
      CopiedSame(a, c, d, src, srcVa, dst, dstVa, n);
    }
  }

  lemma SameHasRoots(a: View, b: View)
    requires Same(a, b)
    ensures b.roots == a.roots
  {
  }

  lemma CopiedSame(a: View, c: View, d: View, src: Pid, srcVa: nat, dst: Pid, dstVa: nat, k: nat)
    requires Same(a, c) && Copied(c, d, src, srcVa, dst, dstVa, k) && src in a.roots
    ensures Copied(a, d, src, srcVa, dst, dstVa, k)
  {
    hide PageAt, ByteAt;
  }

  // ---- the copy ----

  /** At no point from `done` on are source and target in one lone page. */
  ghost predicate Safe(a: View, src: Pid, srcVa: nat, dst: Pid, dstVa: nat, done: nat, len: nat) {
    forall n: nat :: done <= n < len ==> !StaleAt(a, src, srcVa, dst, dstVa, n)
  }

  ghost predicate StaleAt(a: View, src: Pid, srcVa: nat, dst: Pid, dstVa: nat, n: nat) {
    Stale(a, src, srcVa + n, dst, dstVa + n)
  }

  /** Every page of the two ranges is a user page and allows the copy. */
  ghost predicate Permitted(a: View, src: Pid, srcVa: nat, dst: Pid, dstVa: nat, done: nat, len: nat) {
    forall n: nat :: done <= n < len ==> PermittedAt(a, src, srcVa, dst, dstVa, n)
  }

  ghost predicate PermittedAt(a: View, src: Pid, srcVa: nat, dst: Pid, dstVa: nat, n: nat) {
    && UserVa(srcVa + n) && UserVa(dstVa + n)
    && Allowed(a, Key(src, VpnOf(srcVa + n)), Load) && Allowed(a, Key(dst, VpnOf(dstVa + n)), Store(0))
  }

  /** At most this many stretches are left: one, and one more for every page boundary inside either range. */
  function Stretches(srcVa: nat, dstVa: nat, done: nat, len: nat): int
    requires done < len
  {
    (srcVa + len - 1) / 4096 - (srcVa + done) / 4096 + (dstVa + len - 1) / 4096 - (dstVa + done) / 4096 + 1
  }

  lemma StretchesLess(srcVa: nat, dstVa: nat, done: nat, len: nat)
    requires done < len
    ensures var next := done + Chunk(srcVa + done, dstVa + done, len - done);
      && done < next <= len && Stretches(srcVa, dstVa, done, len) >= 1
      && (next < len ==> Stretches(srcVa, dstVa, next, len) < Stretches(srcVa, dstVa, done, len))
  {
    var n := Chunk(srcVa + done, dstVa + done, len - done);
    Boundary(srcVa + done, n);
    Boundary(dstVa + done, n);
    Ordered(srcVa + done, srcVa + len - 1);
    Ordered(dstVa + done, dstVa + len - 1);
  }

  lemma Boundary(x: nat, n: nat)
    requires x % 4096 + n <= 4096
    ensures (x + n) / 4096 >= x / 4096
    ensures x % 4096 + n == 4096 ==> (x + n) / 4096 == x / 4096 + 1
  {
  }

  lemma Ordered(x: nat, y: nat)
    requires x <= y
    ensures x / 4096 <= y / 4096
  {
  }

  lemma SafeOn(a: View, b: View, src: Pid, srcVa: nat, dst: Pid, dstVa: nat, done: nat, next: nat, len: nat)
    requires Safe(a, src, srcVa, dst, dstVa, done, len) && done <= next && (src == dst ==> NoneLonelier(a, b, dst))
    ensures Safe(b, src, srcVa, dst, dstVa, next, len)
  {
    hide VpnOf, Lone;
    forall n: nat | next <= n < len ensures !StaleAt(b, src, srcVa, dst, dstVa, n) {
      assert !StaleAt(a, src, srcVa, dst, dstVa, n);
    }
  }

  lemma PermittedOn(a: View, b: View, src: Pid, srcVa: nat, dst: Pid, dstVa: nat, done: nat, next: nat, len: nat)
    requires Permitted(a, src, srcVa, dst, dstVa, done, len) && done <= next && StillAllowed(a, b)
    ensures Permitted(b, src, srcVa, dst, dstVa, next, len)
  {
    hide VpnOf, Allowed, UserVa, StillAllowed;
    forall n: nat | next <= n < len ensures PermittedAt(b, src, srcVa, dst, dstVa, n) {
      assert PermittedAt(a, src, srcVa, dst, dstVa, n);
      AllowedOne(a, b, Key(src, VpnOf(srcVa + n)));
      AllowedOne(a, b, Key(dst, VpnOf(dstVa + n)));
    }
  }

  /** A copy: complete, or stopped at a page that could not be brought in, which is the only one that can be
      lost. `quota` answers the memory-limit check at each fault. Inside one process the bytes are right unless
      source and target meet in a page that is marked copy-on-write and that nobody else has; then a freed frame
      is read. With room for six frames a stretch, a permitted copy succeeds. */
  method SysDataCopy(m: Machine, src: Pid, srcVa: nat, dst: Pid, dstVa: nat, len: nat, quota: nat -> bool)
    returns (ok: bool, ghost copied: nat, ghost at: View, ghost lost: Key)
    requires m.Valid() && Sane(ViewOf(m)) && src in m.roots && dst in m.roots && Apart(src, srcVa, dst, dstVa, len)
    requires srcVa + len <= VA_LIMIT && dstVa + len <= VA_LIMIT
    modifies m`ram, m`head, m`counts, m`free, m`owner, m`tbl, m`leaf, m`held, m`swap, m`swapPages, m`swapBytes
    ensures m.Valid() && Sane(ViewOf(m)) && m.held == old(m.held)
    ensures var a := old(ViewOf(m));
      && (ok && Safe(a, src, srcVa, dst, dstVa, 0, len) ==> Copied(a, ViewOf(m), src, srcVa, dst, dstVa, len))
      && (!ok && Safe(a, src, srcVa, dst, dstVa, 0, len) ==> Copied(a, at, src, srcVa, dst, dstVa, copied))
      && (ok && 0 < len == Chunk(srcVa, dstVa, len) && Stale(a, src, srcVa, dst, dstVa) && m.held == multiset{} ==>
            Garbled(a, ViewOf(m), srcVa, dst, dstVa, len))
      && (Granted(a, src, srcVa, dst, dstVa, len, quota, old(m.free)) ==> ok)
    ensures !ok ==> copied < len && LostAtMost(at, ViewOf(m), lost)
    ensures !ok ==> lost == Key(src, VpnOf(srcVa + copied)) || lost == Key(dst, VpnOf(dstVa + copied))
  {
    hide Inv, Linked, Machine.Valid, Machine.Pages, Sane, PageAt, VpnOf, Copied, LostAtMost, Same, UserVa, Stale,
      Garbled, Permitted, PermittedAt, Safe, StillAllowed, NoneLonelier, Stretches, Chunk;
    ghost var start := ViewOf(m);
    var done: nat := 0;
    copied, at, lost := 0, start, Key(src, VpnOf(srcVa));
    SameSelf(start);
    CopiedNone(start, start, src, srcVa, dst, dstVa);
    ghost var safe := Safe(start, src, srcVa, dst, dstVa, 0, len);
    ghost var stale := Stale(start, src, srcVa, dst, dstVa) && m.held == multiset{};
    ghost var garbles := stale && len == Chunk(srcVa, dstVa, len);
    ghost var may := Granted(start, src, srcVa, dst, dstVa, len, quota, m.free);
    while done < len
      invariant done <= len && m.Valid() && Sane(ViewOf(m)) && m.held == old(m.held) && m.roots == start.roots
      invariant safe ==>
        Safe(ViewOf(m), src, srcVa, dst, dstVa, done, len) && Copied(start, ViewOf(m), src, srcVa, dst, dstVa, done)
      invariant may && done < len ==>
        Permitted(ViewOf(m), src, srcVa, dst, dstVa, done, len) && 6 * Stretches(srcVa, dstVa, done, len) <= |m.free|
      invariant done == 0 ==> ViewOf(m) == start
      invariant garbles && 0 < done ==> done == len && Garbled(start, ViewOf(m), srcVa, dst, dstVa, len)
    {
      ghost var a, free := ViewOf(m), m.free;
      copied, at := done, a;
      StretchesLess(srcVa, dstVa, done, len);
      PermittedHere(a, src, srcVa, dst, dstVa, done);
      FirstOf(a, src, srcVa, dst, dstVa, done, len);
      var q, q' := quota(2 * done), quota(2 * done + 1);
      ok, lost := CopyStretch(m, src, srcVa + done, dst, dstVa + done, len - done, q, q');
      if !ok {
        return false, copied, at, lost;
      }
      var chunk := Chunk(srcVa + done, dstVa + done, len - done);
      if safe {
        SafeOn(a, ViewOf(m), src, srcVa, dst, dstVa, done, done + chunk, len);
        StretchEnds(srcVa, dstVa, done, len);
        CopiedMore(start, a, ViewOf(m), src, srcVa, dst, dstVa, done, chunk);
      }
      if may {
        PermittedOn(a, ViewOf(m), src, srcVa, dst, dstVa, done, done + chunk, len);
      }
      done := done + chunk;
    }
    return true, copied, at, lost;
  }

  ghost predicate Granted(a: View, src: Pid, srcVa: nat, dst: Pid, dstVa: nat, len: nat, quota: nat -> bool,
                          free: seq<nat>) {
    && Permitted(a, src, srcVa, dst, dstVa, 0, len) && (forall k :: quota(k))
    && (len > 0 ==> 6 * Stretches(srcVa, dstVa, 0, len) <= |free|)
  }

  lemma FirstOf(a: View, src: Pid, srcVa: nat, dst: Pid, dstVa: nat, done: nat, len: nat)
    requires done < len
    ensures Safe(a, src, srcVa, dst, dstVa, done, len) ==> !Stale(a, src, srcVa + done, dst, dstVa + done)
    ensures Permitted(a, src, srcVa, dst, dstVa, done, len) ==> PermittedAt(a, src, srcVa, dst, dstVa, done)
  {
    hide Stale, PermittedAt;
    assert !StaleAt(a, src, srcVa, dst, dstVa, done) || !Safe(a, src, srcVa, dst, dstVa, done, len);
  }

  lemma PermittedHere(a: View, src: Pid, srcVa: nat, dst: Pid, dstVa: nat, n: nat)
    ensures PermittedAt(a, src, srcVa, dst, dstVa, n) <==> PermittedAt(a, src, srcVa + n, dst, dstVa + n, 0)
  {
  }

  lemma StretchEnds(srcVa: nat, dstVa: nat, done: nat, len: nat)
    requires done < len && srcVa + len <= VA_LIMIT && UserVa(srcVa + done)
    ensures var n := Chunk(srcVa + done, dstVa + done, len - done); n > 0 && UserVa(srcVa + done + n - 1)
  {
  }
}
