/** Small machines on which the code does what its documentation rules out: each is booted, given a process
    with one page, and run to the point in question. */
module Instances {
  import opened Words
  import opened Sv39
  import opened Memory
  import opened Machines
  import opened Pmm
  import opened Vmm
  import opened SwapCodec
  import opened Views
  import opened Swap
  import opened Faults
  import opened Unmap
  import opened Processes
  import opened DataCopy

  const READ_ONLY := NO_FLAGS.(v := true, r := true, u := true)

  /** A page whose first word is one. */
  function One(): Page {
    Zero()[0 := 1]
  }

  lemma {:induction false} AllUsable(b: Boot, n: nat)
    requires b.fdtEnd == 0 && b.initrdStart == 0
    ensures |Usables(b, 1, n + 1)| == n
  {
    if n > 0 {
      AllUsable(b, n - 1);
    }
  }

  /** Frames 1 to `n`. */
  function Frames(n: nat): (ram: map<nat, Page>)
    ensures forall f :: f in ram <==> 1 <= f <= n
  {
    if n == 0 then map[] else Frames(n - 1)[n := Zero()]
  }

  /** A machine with `n` frames, all free. */
  method Booted(n: nat) returns (m: Machine)
    requires n < MAX_PPN - 1
    ensures fresh(m) && m.Valid() && m.roots == map[] && m.swap == map[] && m.leaf == map[] && m.tbl == map[]
    ensures m.held == multiset{} && m.swapPages == m.swapBytes == 0 && |m.free| == n
  {
    hide Inv, Linked, Machine.Valid;
    m := new Machine(Frames(n), [0, 0, 0, 0]);
    var boot := Boot(4096, (n + 1) * 4096, 0, 0, 0, 0);
    AllUsable(boot, n);
    Init(m, boot);
  }

  lemma SaneNow(m: Machine)
    requires m.Valid() && SwapOk(m.roots, m.leaf, m.swap) && AllReadable(m.leaf)
    ensures Sane(ViewOf(m))
  {
    hide Machine.Valid, Machine.Pages;
    Known(m);
  }

  /** The page's two tables are all the process has. */
  lemma TwoTables(s: State, f: nat, key: Key)
    requires Inv(s) && key in s.leaf && GrewFor(key, map[Root(key.p) := f], s.tbl)
    ensures TablesOf(s.tbl, key.p) == {Mid(key.p, key.v.i), LowOf(key)} && |TablesOf(s.tbl, key.p)| == 2
  {
    hide PoolOk, FreeOk, EntriesOk, ShareOk, CountOk;
    assert Parent(LowOf(key)) == Mid(key.p, key.v.i);
  }

  /** Process 1 with `page` at `v` and nothing else, on a machine of `n` frames. */
  method OnePage(n: nat, v: Vpn, page: Page, flags: Flags) returns (m: Machine)
    requires 4 <= n < MAX_PPN - 1 && VpnOk(v) && flags.v && flags.u && (flags.r || flags.x)
    ensures fresh(m) && m.Valid() && Sane(ViewOf(m)) && m.held == multiset{} && m.roots.Keys == {1} && m.swap == map[]
    ensures m.leaf.Keys == {Key(1, v)} && m.leaf[Key(1, v)].flags == flags && m.Pages() == map[Key(1, v) := page]
    ensures |m.free| == n - 4 && TablesOf(m.tbl, 1) == {Mid(1, v.i), Low(1, v.i, v.j)} && |TablesOf(m.tbl, 1)| == 2
  {
    hide Inv, Linked, Machine.Valid, Machine.Pages, VpnOf, GrewFor, TablesOf, Sane;
    m := Booted(n);
    NoPages(m);
    var rooted := NewProcessTable(m, 1);
    ghost var f := m.roots[1];
    VpnOfVa(v, 0);
    var oom, ok := MapFresh(m, 1, VaOf(v), page, flags);
    ValidInv(m);
    TwoTables(m.St(), f, Key(1, v));
    SaneNow(m);
  }

  lemma NoPages(m: Machine)
    requires m.leaf == map[]
    ensures m.Pages() == map[]
  {
  }

  /** A store to a read-only page, tried any number of times, never completes and never fails. */
  method ReadOnlyStore(tries: nat) returns (r: Outcome)
    ensures r == Retry
  {
    hide Machine.Valid, Machine.Pages, Sane, VpnOf;
    var m := OnePage(5, Vpn(4, 0, 0), One(), READ_ONLY);
    VpnOfVa(Vpn(4, 0, 0), 0);
    var quotas := seq(tries, _ => true);
    var n;
    r, n := TryRefused(m, 1, VaOf(Vpn(4, 0, 0)), Store(7), quotas);
  }

  /** With one frame left there is a root for the child but nothing for its tables. */
  method ForkShortOfMemory() returns (r: ForkResult)
    ensures r == Panicked
  {
    hide Machine.Valid, Machine.Pages, Sane, TablesOf;
    var m := OnePage(5, Vpn(4, 0, 0), One(), READ_ONLY);
    r := SysFork(m, 1, 2, true);
  }

  /** One page into the gigabyte before the mapped page, `unmap_range` leaves it mapped. */
  method UnmapLeavesPage() returns (m: Machine)
    ensures m.Valid() && Key(1, Vpn(5, 0, 0)) in m.leaf
  {
    hide Inv, Linked, Machine.Valid, Machine.Pages, Sane, VpnOf, Visits;
    m := OnePage(4, Vpn(5, 0, 0), One(), READ_ONLY);
    NoGigabyte(m);
    ValidInv(m);
    StepsOver(m.St(), 1);
    UnmapRange(m, 1, VaOf(Vpn(4, 0, 1)), 2 * GB);
  }

  lemma NoGigabyte(m: Machine)
    requires TablesOf(m.tbl, 1) == {Mid(1, 5), Low(1, 5, 0)}
    ensures Mid(1, 4) !in m.tbl
  {
    assert Mid(1, 4) !in TablesOf(m.tbl, 1);
  }

  /** The one page evicted, and its frame free again. */
  method OneSwapped(n: nat) returns (m: Machine)
    requires 4 <= n < MAX_PPN - 1
    ensures fresh(m) && m.Valid() && Sane(ViewOf(m)) && m.held == multiset{} && m.roots.Keys == {1} && m.leaf == map[]
    ensures InSwap(ViewOf(m), 1, Vpn(4, 0, 0)) && PageAt(ViewOf(m), 1, Vpn(4, 0, 0)) == One()
    ensures |m.free| == n - 3 && |TablesOf(m.tbl, 1)| == 2
  {
    hide Machine.Valid, Machine.Pages, Sane, TablesOf, Restored, Wrap, PageAt, Refs;
    m := OnePage(n, Vpn(4, 0, 0), One(), READ_ONLY);
    ghost var a := ViewOf(m);
    var evicted := TryEvictPage(m, [1]);
    OnlyPage(a, Vpn(4, 0, 0));
  }

  lemma OnlyPage(a: View, v: Vpn)
    requires a.leaf.Keys == {Key(1, v)} && a.pages == map[Key(1, v) := One()]
    ensures PageAt(a, 1, v) == One() && Refs(a.leaf, a.leaf[Key(1, v)].ppn) == {Key(1, v)}
  {
  }

  lemma NotZero()
    ensures One() != Zero()
  {
    assert One()[0] == 1;
  }

  /** The page is in the pool when the process forks: the child reads zero there. */
  method SwappedNotForked() returns (m: Machine)
    ensures m.Valid() && m.roots.Keys == {1, 2}
    ensures PageAt(ViewOf(m), 1, Vpn(4, 0, 0)) == One() != PageAt(ViewOf(m), 2, Vpn(4, 0, 0)) == Zero()
  {
    hide Machine.Valid, Machine.Pages, Sane, TablesOf, PageAt;
    m := OneSwapped(6);
    ghost var a := ViewOf(m);
    var r := SysFork(m, 1, 2, true);
    assert r == Cloned && m.roots.Keys == a.roots.Keys + {2};
    ForkReads(a, ViewOf(m), 1, 2, 1, Vpn(4, 0, 0));
    ForkReads(a, ViewOf(m), 1, 2, 2, Vpn(4, 0, 0));
    NotZero();
  }

  /** The page is in the pool and its process faults with no frame left: the page is gone. */
  method SwapInLosesPage() returns (m: Machine, ok: bool, ghost before: View)
    ensures m.Valid() && !ok && m.roots == before.roots && 1 in m.roots
    ensures PageAt(before, 1, Vpn(4, 0, 0)) == One() != PageAt(ViewOf(m), 1, Vpn(4, 0, 0)) == Zero()
  {
    hide Machine.Valid, Machine.Pages, Sane, TablesOf, Restored, Fits, Fresh, BootKept, Rolled;
    m := OneSwapped(4);
    var rooted := NewProcess(m, 1, 2, true);
    SaneNow(m);
    before := ViewOf(m);
    ok := SwapIn(m, 1, Vpn(4, 0, 0));
    SwapInLoses(before, ViewOf(m), Key(1, Vpn(4, 0, 0)), 0);
    NotZero();
  }

  /** Byte 8 of a page is the lowest byte of its second word. */
  lemma SecondWord(page: Page)
    ensures ByteAt(page, 8) == page[1] % 256
  {
    assert ToBytes(page)[8] == WordBytes(page[1])[0];
  }

  lemma GarbledByte(a: View, b: View, v: Vpn)
    requires VpnOk(v) && 1 in a.roots && Garbled(a, b, VaOf(v) + 8, 1, VaOf(v), 8)
    ensures UserByte(b, 1, VaOf(v)) == 0xCD
  {
    hide VpnOf, VaOf, PageAt, Splice, ByteAt, ToBytes, OfBytes;
    VpnOfVa(v, 0);
    VpnOfVa(v, 8);
    var page: Page :| Poisoned(page) && Rewritten(a, b, Key(1, v), Splice(page, 8, PageAt(a, 1, v), 0, 8));
    SpliceBytes(page, 8, PageAt(a, 1, v), 0, 8, 0);
    SecondWord(page);
  }

  lemma ZeroByte(a: View, v: Vpn)
    requires VpnOk(v) && PageAt(a, 1, v) == One()
    ensures UserByte(a, 1, VaOf(v) + 8) == 0
  {
    hide VpnOf, VaOf, PageAt, ByteAt;
    VpnOfVa(v, 8);
    SecondWord(One());
  }

  /** The one page is marked copy-on-write and lone, as it is when the other side of a fork has gone. Eight zero
      bytes of it copied within it arrive as poison. */
  method CopyReadsFreedFrame() returns (m: Machine, ok: bool, ghost before: View)
    ensures m.Valid() && ok && UserByte(before, 1, USER_BASE + 8) == 0 && UserByte(ViewOf(m), 1, USER_BASE) == 0xCD
  {
    hide Machine.Valid, Machine.Pages, Sane, VpnOf, PageAt, ByteAt, Garbled, UserByte, Safe, Copied, LostAtMost, Same,
      Refs;
    var v := Vpn(4, 0, 0);
    m := OnePage(10, v, One(), READ_ONLY.(cow := true));
    before := ViewOf(m);
    VpnOfVa(v, 0);
    VpnOfVa(v, 8);
    OnlyPage(before, v);
    ZeroByte(before, v);
    ghost var copied, at, lost;
    CopyGranted(before, v, m.free);
    ok, copied, at, lost := SysDataCopy(m, 1, VaOf(v) + 8, 1, VaOf(v), 8, _ => true);
    GarbledByte(before, ViewOf(m), v);
  }

  lemma CopyGranted(a: View, v: Vpn, free: seq<nat>)
    requires v == Vpn(4, 0, 0) && Key(1, v) in a.leaf && a.leaf[Key(1, v)].flags == READ_ONLY.(cow := true)
    requires |free| >= 6
    ensures Granted(a, 1, VaOf(v) + 8, 1, VaOf(v), 8, _ => true, free)
  {
    hide VpnOf;
    var from, onto := VaOf(v) + 8, VaOf(v);
    forall n: nat | 0 <= n < 8 ensures PermittedAt(a, 1, from, 1, onto, n) {
      VpnOfVa(v, n);
      VpnOfVa(v, 8 + n);
    }
  }
}
