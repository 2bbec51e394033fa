/** Page faults and the accesses that raise them: src/trap/page_fault.rs over src/mm/vmm.rs. Whatever
    sharing, copying and swapping goes on underneath, an access that completes reads and writes the
    process's own bytes. */
module Faults {
  import opened Words
  import opened Sv39
  import opened Memory
  import opened MemorySteps
  import opened Machines
  import opened Pmm
  import opened Vmm
  import opened Cow
  import opened SwapCodec
  import opened Views
  import opened Swap

  // ---- demand paging ----

  /** Readable, and writable or executable but never both. */
  function DemandFlags(exec: bool): Flags {
    NO_FLAGS.(r := true, u := true, w := !exec, x := exec)
  }

  /** The permissions of a page mapped on demand: to read, and to execute if it was fetched from and to write if
      not, never both; a user page, with no other flag. */
  ghost predicate DemandPage(f: Flags, exec: bool) {
    && f.v && f.r && f.u && (f.x <==> exec) && (f.w <==> !exec)
    && !f.g && !f.a && !f.d && !f.cow && !f.rsw
  }

  /** A zero page appears at `key`, or nothing changes. */
  ghost predicate Demanded(a: View, b: View, key: Key, f: nat, flags: Flags, mapped: bool) {
    b == if mapped then a.(leaf := a.leaf[key := Pte(f, flags.(v := true))], pages := a.pages[key := Zero()]) else a
  }

  /** What a demand fault does: `missing` tables are absent, `free` frames there. */
  ghost predicate Paged(a: View, b: View, key: Key, exec: bool, quota: bool, free: seq<nat>, missing: nat, ok: bool) {
    if InSwap(a, key.p, key.v) then SwappedIn(a, b, key, Head(free), ok) && (ok <==> missing < |free|)
    else
      && (ok <==> quota && free != [])
      && Demanded(a, b, key, Head(free), DemandFlags(exec), ok && key !in a.leaf && missing < |free|)
  }

  /** A page in the pool is swapped in; otherwise a zero page is mapped. When the page turns out to be
      mapped already, or there is no room for its tables, the new frame goes back and the fault still
      counts as handled. */
  method HandleUserPageFault(m: Machine, p: Pid, va: nat, exec: bool, quota: bool) returns (ok: bool)
    requires m.Valid() && Sane(ViewOf(m)) && p in m.roots && (va < VA_LIMIT || va >= 0x8000_0000_0000)
    modifies m`ram, m`head, m`counts, m`free, m`owner, m`tbl, m`leaf, m`held, m`swap, m`swapPages, m`swapBytes
    ensures m.Valid() && Sane(ViewOf(m)) && m.held == old(m.held)
    ensures var a, b, key := old(ViewOf(m)), ViewOf(m), Key(p, VpnOf(va));
      && (!UserVa(va) ==> !ok && b == a)
      && (UserVa(va) ==> Paged(a, b, key, exec, quota, old(m.free), Missing(old(m.tbl), key), ok))
      && (key !in a.leaf && key in b.leaf ==> |m.free| == |old(m.free)| - 1 - Missing(old(m.tbl), key))
      && (key in a.leaf && b == a ==> |m.free| == |old(m.free)|)
      && (key !in a.leaf && key in b.leaf && !InSwap(a, p, key.v) ==> DemandPage(b.leaf[key].flags, exec))
  {
    hide Inv, Linked, Resident, Restored, Wrap, Machine.Valid, Machine.Pages, Missing, GrewFor, VpnOf, Sane;
    if va >= 0x8000_0000_0000 {
      return false;
    }
    if va < USER_BASE {
      return false;
    }
    var v := VpnOf(va);
    if SwapKey(m.roots[p], v) in m.swap {
      ok := SwapIn(m, p, v);
      return;
    }
    if !quota {
      return false;
    }
    VaSplit(va);
    ghost var before, free := ViewOf(m), m.free;
    var oom, mapped := MapFresh(m, p, va, Zero(), DemandFlags(exec));
    if oom {
      return false;
    }
    SaneDemand(before, ViewOf(m), Key(p, v), Head(free), DemandFlags(exec), mapped);
    return true;
  }

  lemma SaneDemand(a: View, b: View, key: Key, f: nat, flags: Flags, mapped: bool)
    requires Sane(a) && Demanded(a, b, key, f, flags, mapped) && !InSwap(a, key.p, key.v)
    requires key.p in a.roots && VpnOk(key.v) && flags.u && flags.r
    ensures Sane(b)
  {
  }

  /** Mapping a zero page where there was none shows nothing new. */
  lemma DemandSame(a: View, key: Key)
    requires Sane(a) && !InSwap(a, key.p, key.v) && key !in a.leaf
    ensures PageAt(a, key.p, key.v) == Zero()
  {
  }

  // ---- the trap ----

  datatype Access = Fetch | Load | Store(b: Byte)

  /** What the trap handler does about a fault at `va`. */
  ghost predicate Handled(a: View, b: View, access: Access, p: Pid, va: nat, quota: bool, free: seq<nat>, missing: nat,
                          ok: bool) {
    var key := Key(p, VpnOf(va));
    if !UserVa(va) then !ok && b == a
    else if access.Store? && key in a.leaf && a.leaf[key].flags.cow && free != [] then
      ok && b == a.(leaf := a.leaf[key := Private(free[0], a.leaf[key].flags)])
    else
      Paged(a, b, key, access.Fetch?, quota, free, missing, ok)
  }

  /** The page-fault entry of the trap handler, for causes 12, 13 and 15; `ok` is false when the process
      is killed. Copy-on-write is tried first, then swap-in, then demand paging. */
  method HandlePageFault(m: Machine, p: Pid, access: Access, va: nat, quota: bool) returns (ok: bool)
    requires m.Valid() && Sane(ViewOf(m)) && p in m.roots && va < VA_LIMIT
    modifies m`ram, m`head, m`counts, m`free, m`owner, m`tbl, m`leaf, m`held, m`swap, m`swapPages, m`swapBytes
    ensures m.Valid() && Sane(ViewOf(m)) && m.held == old(m.held)
    ensures var a, b, key := old(ViewOf(m)), ViewOf(m), Key(p, VpnOf(va));
      && Handled(a, b, access, p, va, quota, old(m.free), Missing(old(m.tbl), key), ok)
      && (key !in a.leaf && key in b.leaf ==> |m.free| == |old(m.free)| - 1 - Missing(old(m.tbl), key))
      && (key in a.leaf && b == a ==> |m.free| == |old(m.free)|)
      && (key !in a.leaf && key in b.leaf && !InSwap(a, p, key.v) ==> DemandPage(b.leaf[key].flags, access.Fetch?))
  {
    hide Inv, Linked, Resident, Restored, Wrap, Machine.Valid, Machine.Pages, Missing, VpnOf, Sane, Paged;
    if access.Store? && UserVa(va) {
      ghost var before := ViewOf(m);
      VaSplit(va);
      ok := HandleStorePageFault(m, p, va);
      if ok {
        SaneCow(before, ViewOf(m), Key(p, VpnOf(va)));
        return;
      }
    }
    ok := HandleUserPageFault(m, p, va, access.Fetch?, quota);
  }

  lemma SaneCow(a: View, b: View, key: Key)
    requires Sane(a) && key in a.leaf && b.leaf.Keys == a.leaf.Keys
    requires b == a.(leaf := b.leaf) && b.leaf[key].flags == a.leaf[key].flags.(cow := false, w := true)
    requires forall k :: k in a.leaf && k != key ==> b.leaf[k] == a.leaf[k]
    ensures Sane(b)
  {
  }

  /** All pages read as before, but `key` may read as zero. */
  ghost predicate LostAtMost(a: View, b: View, key: Key) {
    && b.roots == a.roots
    && forall p, v :: p in a.roots && Key(p, v) != key ==> PageAt(b, p, v) == PageAt(a, p, v)
  }

  ghost predicate CountersKept(a: View, b: View) {
    CountersOk(a.swap, a.count, a.bytes) ==> CountersOk(b.swap, b.count, b.bytes)
  }

  /** No process can notice a fault that is handled; one that kills the process costs nobody else. */
  lemma FaultInvisible(a: View, b: View, access: Access, p: Pid, va: nat, quota: bool, free: seq<nat>, missing: nat,
                       ok: bool)
    requires Sane(a) && p in a.roots && Handled(a, b, access, p, va, quota, free, missing, ok)
    ensures ok ==> Same(a, b) && CountersKept(a, b)
    ensures !ok ==> LostAtMost(a, b, Key(p, VpnOf(va)))
  {
    hide Restored, Wrap, VpnOf, Sane, CountersOk;
    var key := Key(p, VpnOf(va));
    if InSwap(a, p, key.v) {
      InPool(a, p, key.v);
      if UserVa(va) && ok {
        SwapInInvisible(a, b, key, Head(free));
      } else if UserVa(va) {
        SwapInLoses(a, b, key, Head(free));
      }
    } else if ok && key !in a.leaf {
      DemandSame(a, key);
    }
  }

  // ---- accesses ----

  function ByteAt(page: Page, off: nat): Byte
    requires off < 4096
  {
    ToBytes(page)[off]
  }

  function WithByte(page: Page, off: nat, b: Byte): Page
    requires off < 4096
  {
    OfBytes(ToBytes(page)[off := b])
  }

  /** A byte written reads back, and no other byte of the page changes. */
  lemma ByteWritten(page: Page, off: nat, b: Byte, o: nat)
    requires off < 4096 && o < 4096
    ensures ByteAt(WithByte(page, off, b), o) == if o == off then b else ByteAt(page, o)
  {
    BytesRoundTrip(ToBytes(page)[off := b]);
  }

  /** The byte process `p` reads at `va`. */
  ghost function UserByte(a: View, p: Pid, va: nat): Byte {
    ByteAt(PageAt(a, p, VpnOf(va)), va % 4096)
  }

  /** Only the page at `key` changes, and it becomes `page`. */
  ghost predicate Rewritten(a: View, b: View, key: Key, page: Page) {
    && b.roots == a.roots
    && forall p, v :: p in a.roots ==> PageAt(b, p, v) == if Key(p, v) == key then page else PageAt(a, p, v)
  }

  /** Byte by byte: a completed store changes the byte stored to and no other byte of any process. */
  lemma StoreBytes(a: View, b: View, p: Pid, va: nat, byte: Byte, q: Pid, other: nat)
    requires UserVa(va) && UserVa(other) && q in a.roots
    requires Rewritten(a, b, Key(p, VpnOf(va)), WithByte(PageAt(a, p, VpnOf(va)), va % 4096, byte))
    ensures UserByte(b, q, other) == if q == p && other == va then byte else UserByte(a, q, other)
  {
    hide VpnOf, VaOf, PageAt, ByteAt, WithByte;
    VaSplit(va);
    VaSplit(other);
    if q == p && VpnOf(other) == VpnOf(va) {
      ByteWritten(PageAt(a, p, VpnOf(va)), va % 4096, byte, other % 4096);
    }
  }

  /** A frame mapped once gets new contents. */
  method WriteUser(m: Machine, ghost key: Key, f: nat, page: Page)
    requires m.Valid() && Sane(ViewOf(m)) && key in m.leaf && m.leaf[key].ppn == f && Refs(m.leaf, f) == {key}
    modifies m`ram, m`owner, m`tbl, m`leaf, m`held
    ensures m.Valid() && m.tbl == old(m.tbl) && m.held == old(m.held) && Sane(ViewOf(m))
    ensures ViewOf(m) == old(ViewOf(m)).(pages := old(m.Pages())[key := page])
  {
    hide Inv, Linked, Resident, Refs, Sane;
    ghost var before := ViewOf(m);
    FillSole(m.St(), key, page);
    LinkedFrame(m.ram, m.free, f, page);
    m.ram := m.ram[f := page];
    SaneWrite(before, key, page);
  }

  lemma FillSole(s: State, key: Key, page: Page)
    requires Inv(s) && key in s.leaf && Refs(s.leaf, s.leaf[key].ppn) == {key}
    ensures var f := s.leaf[key].ppn; f in s.ram && f !in s.free && Inv(Fill(s, f, page))
    ensures Resident(s.ram[s.leaf[key].ppn := page], s.leaf) == Resident(s.ram, s.leaf)[key := page]
  {
    hide PoolOk, FreeOk, TreeOk, EntriesOk, LeafOk, ShareOk, CountOk, Refs, Resident;
    var f := s.leaf[key].ppn;
    LeafIn(s, key);
    OffList(s, f);
    FillKeeps(s, f, page);
    ResidentSole(s.ram, s.leaf, key, page);
  }

  lemma ResidentSole(ram: map<nat, Page>, leaf: map<Key, Pte>, key: Key, page: Page)
    requires key in leaf && Refs(leaf, leaf[key].ppn) == {key} && leaf[key].ppn in ram
    ensures Resident(ram[leaf[key].ppn := page], leaf) == Resident(ram, leaf)[key := page]
  {
    assert forall k :: k in leaf && leaf[k].ppn == leaf[key].ppn ==> k in Refs(leaf, leaf[key].ppn);
  }

  lemma SaneWrite(a: View, key: Key, page: Page)
    requires Sane(a) && key in a.leaf
    ensures Sane(a.(pages := a.pages[key := page])) && Rewritten(a, a.(pages := a.pages[key := page]), key, page)
  {
  }

  /** A writable page is mapped nowhere else. */
  lemma WritableSole(s: State, key: Key)
    requires Inv(s) && key in s.leaf && s.leaf[key].flags.w
    ensures Refs(s.leaf, s.leaf[key].ppn) == {key}
  {
  }

  predicate Permits(e: Pte, access: Access) {
    match access
    case Fetch => e.flags.x
    case Load => e.flags.r
    case Store(_) => e.flags.w
  }

  ghost predicate Translated(a: View, p: Pid, va: nat, access: Access) {
    UserVa(va) && va < 0x40_0000_0000 && Key(p, VpnOf(va)) in a.leaf && Permits(a.leaf[Key(p, VpnOf(va))], access)
  }

  datatype Outcome = Done(value: Byte) | Retry | Killed

  /** What a try at an access shows: completed, it returned the process's own byte and a store changed that byte
      alone; to be tried again, nothing changed; killed, at most the page asked for is lost. */
  ghost predicate Accessed(a: View, b: View, p: Pid, va: nat, access: Access, r: Outcome) {
    var key := Key(p, VpnOf(va));
    match r
    case Done(value) =>
      && UserVa(va) && value == UserByte(a, p, va)
      && if access.Store? then Rewritten(a, b, key, WithByte(PageAt(a, p, VpnOf(va)), va % 4096, access.b)) else b == a
    case Retry => Same(a, b)
    case Killed => LostAtMost(a, b, key)
  }

  /** The kernel can serve a fault at `va`: by a copy, from the pool, or with a zero page. */
  ghost predicate Servable(a: View, p: Pid, va: nat, access: Access, quota: bool, free: seq<nat>, missing: nat) {
    var key := Key(p, VpnOf(va));
    && UserVa(va)
    && if access.Store? && key in a.leaf && a.leaf[key].flags.cow && free != [] then true
       else if InSwap(a, p, key.v) then missing < |free|
       else quota && free != []
  }

  lemma ServedExactly(a: View, b: View, access: Access, p: Pid, va: nat, quota: bool, free: seq<nat>, missing: nat,
                      ok: bool)
    requires Handled(a, b, access, p, va, quota, free, missing, ok)
    ensures ok <==> Servable(a, p, va, access, quota, free, missing)
    ensures PoolShrinks(a, b)
  {
    hide VpnOf, Restored, Wrap;
  }

  // ---- rights ----

  /** What a page allows, now or after a copy: to read, to execute, to write. */
  function Rights(f: Flags): (bool, bool, bool) {
    (f.r, f.x, f.w || f.cow)
  }

  /** The flags of a page, mapped or in the pool. */
  ghost function FlagsAt(a: View, key: Key): Option<Flags> {
    if key in a.leaf then Some(a.leaf[key].flags)
    else if InSwap(a, key.p, key.v) then Some(a.swap[SwapKey(a.roots[key.p], key.v)].flags)
    else None
  }

  ghost predicate SameRights(f: Option<Flags>, g: Option<Flags>) {
    (f.Some? <==> g.Some?) && (f.Some? ==> Rights(f.value) == Rights(g.value))
  }

  /** After an access every page has the rights it had. The page asked for may have appeared, as a demand page, or,
      when the process was killed, be lost. */
  ghost predicate RightsTouched(a: View, b: View, key: Key, exec: bool, r: Outcome) {
    forall k: Key ::
      || SameRights(FlagsAt(a, k), FlagsAt(b, k))
      || (k == key && r == Retry && FlagsAt(a, k) == None
          && FlagsAt(b, k).Some? && DemandPage(FlagsAt(b, k).value, exec))
      || (k == key && r == Killed && FlagsAt(b, k) == None)
  }

  lemma OtherInPoolStill(a: View, key: Key, k: Key)
    requires Sane(a) && InSwap(a, key.p, key.v) && k != key
    ensures var b := a.(swap := a.swap - {SwapKey(a.roots[key.p], key.v)});
      && (InSwap(b, k.p, k.v) <==> InSwap(a, k.p, k.v))
      && (InSwap(a, k.p, k.v) ==> b.swap[SwapKey(a.roots[k.p], k.v)] == a.swap[SwapKey(a.roots[k.p], k.v)])
  {
  }

  /** A fault keeps every right. */
  lemma FaultRights(a: View, b: View, access: Access, p: Pid, va: nat,
                    quota: bool, free: seq<nat>, missing: nat, ok: bool)
    requires Sane(a) && p in a.roots && Handled(a, b, access, p, va, quota, free, missing, ok)
    ensures RightsTouched(a, b, Key(p, VpnOf(va)), access.Fetch?, if ok then Retry else Killed)
  {
    hide VpnOf, Restored, Wrap, Sane;
    var key, r := Key(p, VpnOf(va)), if ok then Retry else Killed;
    forall k: Key
      ensures || SameRights(FlagsAt(a, k), FlagsAt(b, k))
        || (k == key && r == Retry && FlagsAt(a, k) == None && FlagsAt(b, k).Some?
            && DemandPage(FlagsAt(b, k).value, access.Fetch?))
        || (k == key && r == Killed && FlagsAt(b, k) == None)
    {
      if InSwap(a, p, key.v) {
        InPool(a, p, key.v);
        if k != key {
          OtherInPoolStill(a, key, k);
        }
      }
    }
  }

  /** One try at an access by a running process: the hardware translates the address (section 4.3.2 of
      the Privileged Architecture manual; Sv39 addresses at or above 2^38 are not canonical and always fault), and
      on a fault the kernel handles it, to be tried again, or kills the process. */
  method Attempt(m: Machine, p: Pid, va: nat, access: Access, quota: bool) returns (r: Outcome)
    requires m.Valid() && Sane(ViewOf(m)) && p in m.roots && va < VA_LIMIT
    modifies m`ram, m`head, m`counts, m`free, m`owner, m`tbl, m`leaf, m`held, m`swap, m`swapPages, m`swapBytes
    ensures m.Valid() && Sane(ViewOf(m)) && m.held == old(m.held)
    ensures Accessed(old(ViewOf(m)), ViewOf(m), p, va, access, r) && PoolShrinks(old(ViewOf(m)), ViewOf(m))
    ensures var a, b, key := old(ViewOf(m)), ViewOf(m), Key(p, VpnOf(va));
      && (r.Done? <==> Translated(a, p, va, access)) && (r != Killed ==> CountersKept(a, b))
      && (!r.Done? ==> Handled(a, b, access, p, va, quota, old(m.free), Missing(old(m.tbl), key), r == Retry))
      && (key !in a.leaf && key in b.leaf ==> |m.free| == |old(m.free)| - 1 - Missing(old(m.tbl), key))
      && (key in a.leaf && b == a ==> |m.free| == |old(m.free)|)
      && (r.Done? ==> b == a.(pages := b.pages)) && RightsTouched(a, b, key, access.Fetch?, r)
    ensures var key := Key(p, VpnOf(va));
      r.Done? ==> key in old(m.leaf) && var f := old(m.leaf)[key].flags;
        && (access.Fetch? ==> f.x) && (access.Load? ==> f.r) && (access.Store? ==> f.w)
  {
    hide Inv, Linked, Resident, Restored, Refs, Wrap, Machine.Valid, Machine.Pages, Missing, VpnOf, Sane, Same,
      LostAtMost, Handled, Rewritten, PageAt, ByteAt, WithByte, Walk, CountersOk;
    ghost var before := ViewOf(m);
    if UserVa(va) && va < 0x40_0000_0000 {
      var v := VpnOf(va);
      VaSplit(va);
      Translates(m, p, v);
      var e := Walk(m.ram, m.roots[p], v);
      if e.Some? && e.value.flags.u && Permits(e.value, access) {
        assert Translated(before, p, va, access);
        var page := m.ram[e.value.ppn];
        if access.Store? {
          SoleWritable(m, Key(p, v));
          SaneWrite(before, Key(p, v), WithByte(page, va % 4096, access.b));
          WriteUser(m, Key(p, v), e.value.ppn, WithByte(page, va % 4096, access.b));
        }
        return Done(ByteAt(page, va % 4096));
      }
    }
    ghost var free, missing := m.free, Missing(m.tbl, Key(p, VpnOf(va)));
    var ok := HandlePageFault(m, p, access, va, quota);
    FaultInvisible(before, ViewOf(m), access, p, va, quota, free, missing, ok);
    ServedExactly(before, ViewOf(m), access, p, va, quota, free, missing, ok);
    FaultRights(before, ViewOf(m), access, p, va, quota, free, missing, ok);
    return if ok then Retry else Killed;
  }

  lemma Translates(m: Machine, p: Pid, v: Vpn)
    requires m.Valid() && p in m.roots && VpnOk(v)
    ensures Walk(m.ram, m.roots[p], v) == Lookup(m.leaf, Key(p, v))
    ensures Key(p, v) in m.leaf ==> m.leaf[Key(p, v)].flags.u
    ensures Key(p, v) in m.leaf ==>
      m.leaf[Key(p, v)].ppn in m.ram && PageAt(ViewOf(m), p, v) == m.ram[m.leaf[Key(p, v)].ppn]
  {
    hide Inv, Linked, Resident, Walk, Restored;
    WalkIsLookup(m.St(), p, v);
    Known(m);
    if Key(p, v) in m.leaf {
      LeafPage(m, Key(p, v));
    }
  }

  lemma SoleWritable(m: Machine, key: Key)
    requires m.Valid() && key in m.leaf && m.leaf[key].flags.w
    ensures Refs(m.leaf, m.leaf[key].ppn) == {key}
  {
    hide Inv, Linked, Refs;
    WritableSole(m.St(), key);
  }

  // ---- progress ----

  predicate Grants(flags: Flags, access: Access) {
    Permits(Pte(0, flags), access) || (access.Store? && flags.cow)
  }

  /** The page, wherever it is, allows the access; an absent page allows any. */
  ghost predicate Allowed(a: View, key: Key, access: Access) {
    if key in a.leaf then Grants(a.leaf[key].flags, access)
    else InSwap(a, key.p, key.v) ==> Grants(a.swap[SwapKey(a.roots[key.p], key.v)].flags, access)
  }

  /** A fault on an allowed access brings the page in, or copies it. */
  lemma FaultHelps(a: View, b: View, access: Access, p: Pid, va: nat, quota: bool, free: seq<nat>, missing: nat,
                   ok: bool)
    requires Sane(a) && UserVa(va) && Handled(a, b, access, p, va, quota, free, missing, ok) && quota
    requires var key := Key(p, VpnOf(va));
      Allowed(a, key, access) && if key in a.leaf then !Permits(a.leaf[key], access) && free != [] else missing < |free|
    ensures ok && Key(p, VpnOf(va)) in b.leaf && Grants(b.leaf[Key(p, VpnOf(va))].flags, access)
    ensures Key(p, VpnOf(va)) in a.leaf ==> Permits(b.leaf[Key(p, VpnOf(va))], access)
  {
    hide VpnOf, Restored, Wrap;
  }

  /** With memory for the missing tables and two pages, an allowed access completes by the third try:
      a page swapped out while shared is first swapped in, then copied, then written. */
  method Complete(m: Machine, p: Pid, va: nat, access: Access) returns (r: Outcome)
    requires m.Valid() && Sane(ViewOf(m)) && p in m.roots && UserVa(va) && va < 0x40_0000_0000
    requires Allowed(ViewOf(m), Key(p, VpnOf(va)), access) && Missing(m.tbl, Key(p, VpnOf(va))) + 2 <= |m.free|
    modifies m`ram, m`head, m`counts, m`free, m`owner, m`tbl, m`leaf, m`held, m`swap, m`swapPages, m`swapBytes
    ensures m.Valid() && Sane(ViewOf(m)) && m.held == old(m.held)
    ensures r == Done(UserByte(old(ViewOf(m)), p, va))
    ensures var a, b := old(ViewOf(m)), ViewOf(m);
      if access.Store? then Rewritten(a, b, Key(p, VpnOf(va)), WithByte(PageAt(a, p, VpnOf(va)), va % 4096, access.b))
      else Same(a, b)
  {
    hide Inv, Linked, Resident, Restored, Refs, Wrap, Machine.Valid, Machine.Pages, Missing, VpnOf, Sane, Handled,
      Allowed, PageAt, ByteAt, WithByte, Grants;
    ghost var key := Key(p, VpnOf(va));
    ghost var a, free, missing := ViewOf(m), m.free, Missing(m.tbl, key);
    r := Attempt(m, p, va, access, true);
    if r.Done? {
      return;
    }
    ghost var b := ViewOf(m);
    FaultHelps(a, b, access, p, va, true, free, missing, r == Retry);
    ghost var free', missing' := m.free, Missing(m.tbl, key);
    r := Attempt(m, p, va, access, true);
    if r.Done? {
      return;
    }
    AllowedStill(b, key, access);
    FaultHelps(b, ViewOf(m), access, p, va, true, free', missing', r == Retry);
    r := Attempt(m, p, va, access, true);
  }

  // ---- accesses the page refuses ----

  /** A fault on a mapped page that refuses the access changes nothing a process can see: it is treated as
      a demand fault, which kills the process when its quota or memory is out and otherwise reports success. */
  lemma RefusedFault(a: View, b: View, access: Access, p: Pid, va: nat, quota: bool, free: seq<nat>, missing: nat,
                     ok: bool)
    requires Sane(a) && p in a.roots && UserVa(va) && Handled(a, b, access, p, va, quota, free, missing, ok)
    requires Key(p, VpnOf(va)) in a.leaf && !Grants(a.leaf[Key(p, VpnOf(va))].flags, access)
    ensures b == a && (ok <==> quota && free != [])
  {
    hide VpnOf, Restored, Wrap;
  }

  /** An access the page refuses, tried over and over: it never completes and nothing changes. The process is
      killed by the first try that its quota or an empty free list refuses; until then every fault is handled
      and the access tried again. */
  method TryRefused(m: Machine, p: Pid, va: nat, access: Access, quotas: seq<bool>) returns (r: Outcome, tries: nat)
    requires m.Valid() && Sane(ViewOf(m)) && p in m.roots && UserVa(va)
    requires Key(p, VpnOf(va)) in m.leaf && !Grants(m.leaf[Key(p, VpnOf(va))].flags, access)
    modifies m`ram, m`head, m`counts, m`free, m`owner, m`tbl, m`leaf, m`held, m`swap, m`swapPages, m`swapBytes
    ensures m.Valid() && ViewOf(m) == old(ViewOf(m)) && !r.Done?
    ensures r == Killed <==> quotas != [] && (old(m.free) == [] || false in quotas)
    ensures r == Killed ==> 0 < tries <= |quotas| && (forall n :: 0 <= n < tries - 1 ==> quotas[n])
    ensures r == Killed ==> if old(m.free) == [] then tries == 1 else !quotas[tries - 1]
    ensures r == Retry ==> tries == |quotas|
  {
    hide Inv, Linked, Resident, Machine.Valid, Machine.Pages, Missing, VpnOf, Sane, Handled, PageAt, ByteAt, WithByte,
      Same, LostAtMost, CountersOk;
    ghost var a := ViewOf(m);
    r, tries := Retry, 0;
    while tries < |quotas|
      invariant 0 <= tries <= |quotas| && m.Valid() && ViewOf(m) == a && |m.free| == |old(m.free)|
      invariant tries > 0 ==> m.free != []
      invariant forall n :: 0 <= n < tries ==> quotas[n]
      invariant r == Retry
    {
      ghost var free, missing := m.free, Missing(m.tbl, Key(p, VpnOf(va)));
      r := Attempt(m, p, va, access, quotas[tries]);
      RefusedFault(a, ViewOf(m), access, p, va, quotas[tries], free, missing, r == Retry);
      tries := tries + 1;
      if r == Killed {
        return;
      }
    }
  }

  /** Wherever the page is, an access it does not allow never completes, however often it is tried; so
      `Complete` needs `Allowed`. */
  method TryForbidden(m: Machine, p: Pid, va: nat, access: Access, quotas: seq<bool>) returns (r: Outcome)
    requires m.Valid() && Sane(ViewOf(m)) && p in m.roots && UserVa(va)
    requires !Allowed(ViewOf(m), Key(p, VpnOf(va)), access)
    modifies m`ram, m`head, m`counts, m`free, m`owner, m`tbl, m`leaf, m`held, m`swap, m`swapPages, m`swapBytes
    ensures m.Valid() && !r.Done?
    ensures if r == Retry then Same(old(ViewOf(m)), ViewOf(m))
      else LostAtMost(old(ViewOf(m)), ViewOf(m), Key(p, VpnOf(va)))
  {
    hide Inv, Linked, Resident, Machine.Valid, Machine.Pages, Missing, VpnOf, Sane, Handled, PageAt, ByteAt, WithByte,
      CountersOk, Allowed, Grants;
    ghost var a, key := ViewOf(m), Key(p, VpnOf(va));
    var rest := quotas;
    if SwapKey(m.roots[p], VpnOf(va)) in m.swap {
      if quotas == [] {
        return Retry;
      }
      ghost var free, missing := m.free, Missing(m.tbl, key);
      NotPermitted(a, p, va, access);
      r := Attempt(m, p, va, access, quotas[0]);
      if r == Killed {
        return;
      }
      StillForbidden(a, ViewOf(m), access, p, va, quotas[0], free, missing);
      rest := quotas[1..];
    } else {
      MappedForbidden(a, key, access);
    }
    var n;
    r, n := TryRefused(m, p, va, access, rest);
  }

  lemma NotPermitted(a: View, p: Pid, va: nat, access: Access)
    requires Sane(a) && p in a.roots && InSwap(a, p, VpnOf(va))
    ensures !Translated(a, p, va, access)
  {
    hide VpnOf;
  }

  lemma MappedForbidden(a: View, key: Key, access: Access)
    requires !Allowed(a, key, access) && !InSwap(a, key.p, key.v)
    ensures key in a.leaf && !Grants(a.leaf[key].flags, access)
  {
  }

  lemma StillForbidden(a: View, b: View, access: Access, p: Pid, va: nat, quota: bool, free: seq<nat>, missing: nat)
    requires Sane(a) && UserVa(va) && Handled(a, b, access, p, va, quota, free, missing, true)
    requires InSwap(a, p, VpnOf(va)) && !Allowed(a, Key(p, VpnOf(va)), access)
    ensures Key(p, VpnOf(va)) in b.leaf && !Grants(b.leaf[Key(p, VpnOf(va))].flags, access)
  {
    hide VpnOf, Restored, Wrap;
  }

  lemma AllowedStill(a: View, key: Key, access: Access)
    requires key in a.leaf && Grants(a.leaf[key].flags, access)
    ensures Allowed(a, key, access)
  {
  }
}
