/** `load_elf`, src/posix/elf.rs: every loadable segment of a program appears in its address space. */
module Elf {
  import opened Words
  import opened Sv39
  import opened Memory
  import opened MemorySteps
  import opened Machines
  import opened Vmm
  import opened Views
  import opened Swap
  import opened Faults

  // ---- the file ----

  const HEADER_SIZE: nat := 64
  const PHDR_SIZE: nat := 56

  function Field(data: seq<Byte>, at: nat, n: nat): nat
    requires at + n <= |data|
  {
    FromLE(data[at..at + n])
  }

  datatype Phdr = Phdr(kind: nat, flags: nat, offset: nat, vaddr: nat, filesz: nat, memsz: nat)

  function PhdrAt(data: seq<Byte>, at: nat): Phdr
    requires at + PHDR_SIZE <= |data|
  {
    Phdr(Field(data, at, 4), Field(data, at + 4, 4), Field(data, at + 8, 8), Field(data, at + 16, 8),
         Field(data, at + 32, 8), Field(data, at + 40, 8))
  }

  // The same fields, byte by byte.

  function Le16(data: seq<Byte>, at: nat): nat
    requires at + 2 <= |data|
  {
    var low: nat, high: nat := data[at], data[at + 1];
    low + 0x100 * high
  }

  function Le32(data: seq<Byte>, at: nat): nat
    requires at + 4 <= |data|
  {
    Le16(data, at) + 0x1_0000 * Le16(data, at + 2)
  }

  function Le64(data: seq<Byte>, at: nat): nat
    requires at + 8 <= |data|
  {
    Le32(data, at) + 0x1_0000_0000 * Le32(data, at + 4)
  }

  lemma Two(data: seq<Byte>, at: nat)
    requires at + 2 <= |data|
    ensures Field(data, at, 2) == Le16(data, at)
  {
    var s := data[at..at + 2];
    assert s[1..] == [s[1]];
    assert FromLE([s[1]]) == s[1];
  }

  lemma {:induction false} Joined(s: seq<Byte>, n: nat)
    requires n <= |s|
    ensures FromLE(s) == FromLE(s[..n]) + Pow256(n) * FromLE(s[n..])
    decreases n
  {
    if n > 0 {
      Joined(s[1..], n - 1);
      assert s[1..][..n - 1] == s[..n][1..] && s[1..][n - 1..] == s[n..];
      Carried(Pow256(n - 1), FromLE(s[n..]));
    } else {
      assert s[..0] == [] && s[0..] == s;
    }
  }

  lemma Carried(p: nat, x: nat)
    ensures 256 * (p * x) == (256 * p) * x
  {
  }

  lemma Four(data: seq<Byte>, at: nat)
    requires at + 4 <= |data|
    ensures Field(data, at, 4) == Le32(data, at)
  {
    hide FromLE, Pow256;
    var s := data[at..at + 4];
    Joined(s, 2);
    assert s[..2] == data[at..at + 2] && s[2..] == data[at + 2..at + 4];
    assert Pow256(2) == 0x1_0000 by { Pow256Eight(); }
    Two(data, at);
    Two(data, at + 2);
  }

  lemma Eight(data: seq<Byte>, at: nat)
    requires at + 8 <= |data|
    ensures Field(data, at, 8) == Le64(data, at)
  {
    hide FromLE, Pow256, Le32;
    var s := data[at..at + 8];
    Joined(s, 4);
    assert s[..4] == data[at..at + 4] && s[4..] == data[at + 4..at + 8];
    assert Pow256(4) == 0x1_0000_0000 by { Pow256Eight(); }
    Four(data, at);
    Four(data, at + 4);
  }

  /** A program header's fields by their offsets. */
  lemma PhdrBytes(data: seq<Byte>, at: nat)
    requires at + 56 <= |data|
    ensures var ph := PhdrAt(data, at);
      && ph.kind == Le32(data, at) && ph.flags == Le32(data, at + 4) && ph.offset == Le64(data, at + 8)
      && ph.vaddr == Le64(data, at + 16) && ph.filesz == Le64(data, at + 32) && ph.memsz == Le64(data, at + 40)
  {
    hide Field, Le32, Le64;
    Four(data, at);
    Four(data, at + 4);
    Eight(data, at + 8);
    Eight(data, at + 16);
    Eight(data, at + 32);
    Eight(data, at + 40);
  }

  predicate HeaderOk(data: seq<Byte>) {
    && |data| >= HEADER_SIZE && data[..4] == [0x7f, 0x45, 0x4c, 0x46]
    && Field(data, 54, 2) >= PHDR_SIZE
    && Field(data, 32, 8) + Field(data, 56, 2) * Field(data, 54, 2) <= |data|
  }

  function Phnum(data: seq<Byte>): nat
    requires HeaderOk(data)
  {
    Field(data, 56, 2)
  }

  /** Program header `i`. */
  function Nth(data: seq<Byte>, i: nat): Phdr
    requires HeaderOk(data) && i < Phnum(data)
  {
    NthFits(data, i);
    PhdrAt(data, Field(data, 32, 8) + i * Field(data, 54, 2))
  }

  lemma NthFits(data: seq<Byte>, i: nat)
    requires HeaderOk(data) && i < Phnum(data)
    ensures Field(data, 32, 8) + i * Field(data, 54, 2) + PHDR_SIZE <= |data|
  {
    hide Field;
    RowFits(i, Phnum(data), Field(data, 54, 2));
  }

  lemma {:induction false} RowFits(i: nat, n: nat, size: nat)
    requires i < n
    ensures i * size + size <= n * size
  {
    if i < n - 1 {
      RowFits(i, n - 1, size);
    }
    assert n * size == (n - 1) * size + size;
  }

  /** What makes a header: its length, the four magic bytes, and a table of headers inside the file. */
  lemma HeaderBytes(data: seq<Byte>)
    ensures HeaderOk(data) <==>
      && |data| >= 64 && data[0] == 0x7f && data[1] == 0x45 && data[2] == 0x4c && data[3] == 0x46
      && Le16(data, 54) >= 56 && Le64(data, 32) + Le16(data, 56) * Le16(data, 54) <= |data|
    ensures HeaderOk(data) ==> Phnum(data) == Le16(data, 56)
  {
    hide Field, Le16, Le64;
    if |data| >= 64 {
      Two(data, 54);
      Two(data, 56);
      Eight(data, 32);
      assert data[..4] == [data[0], data[1], data[2], data[3]];
    }
  }

  function Row(table: nat, i: nat, size: nat): nat {
    table + i * size
  }

  function Offset(data: seq<Byte>, i: nat): nat
    requires |data| >= 64
  {
    Row(Le64(data, 32), i, Le16(data, 54))
  }

  /** Where program header `i` is, and what it says. */
  lemma NthBytes(data: seq<Byte>, i: nat)
    requires HeaderOk(data) && i < Phnum(data)
    ensures Offset(data, i) + 56 <= |data|
    ensures var ph, at := Nth(data, i), Offset(data, i);
      && ph.kind == Le32(data, at) && ph.flags == Le32(data, at + 4) && ph.offset == Le64(data, at + 8)
      && ph.vaddr == Le64(data, at + 16) && ph.filesz == Le64(data, at + 32) && ph.memsz == Le64(data, at + 40)
      && (IsLoad(ph) <==> Le32(data, at) == 1)
  {
    hide Field, Le16, Le32, Le64, PhdrAt;
    Two(data, 54);
    Eight(data, 32);
    NthFits(data, i);
    PhdrBytes(data, Offset(data, i));
  }

  predicate IsLoad(ph: Phdr) {
    ph.kind == 1
  }

  predicate HasBit(x: nat, bit: nat)
    requires bit > 0
  {
    x / bit % 2 == 1
  }

  /** `PF_R` is 4, `PF_W` 2, `PF_X` 1. */
  function SegmentFlags(ph: Phdr): Flags {
    NO_FLAGS.(u := true, r := HasBit(ph.flags, 4), w := HasBit(ph.flags, 2), x := HasBit(ph.flags, 1))
  }

  /** The permissions are the three low bits of a byte: 4 to read, 2 to write, 1 to execute. User pages, and
      nothing else but valid. */
  ghost predicate PermissionsAre(f: Flags, b: Byte) {
    && (f.r <==> b / 4 % 2 == 1) && (f.w <==> b / 2 % 2 == 1) && (f.x <==> b % 2 == 1)
    && f.u && !f.g && !f.a && !f.d && !f.cow && !f.rsw
  }

  lemma FlagsFromByte(data: seq<Byte>, at: nat, ph: Phdr)
    requires at + 56 <= |data| && ph.flags == Le32(data, at + 4)
    ensures PermissionsAre(SegmentFlags(ph), data[at + 4])
  {
    var b: nat, c: nat := data[at + 4], data[at + 5];
    var high := c + 0x100 * Le16(data, at + 6);
    assert ph.flags == b + 0x100 * high;
    LowBits(b, high);
  }

  lemma LowBits(b: nat, high: nat)
    ensures var x := b + 0x100 * high; x / 4 % 2 == b / 4 % 2 && x / 2 % 2 == b / 2 % 2 && x % 2 == b % 2
  {
    var x := b + 0x100 * high;
    LowHalf(b / 4, 32 * high);
    LowHalf(b / 2, 64 * high);
    LowHalf(b, 128 * high);
    assert x / 4 == b / 4 + 64 * high;
    assert x / 2 == b / 2 + 128 * high;
  }

  /** The segment lies in the user half and can be read or executed. */
  predicate InUserSpace(ph: Phdr) {
    IsLoad(ph) && ph.memsz > 0 ==>
      UserVa(ph.vaddr) && ph.vaddr + ph.memsz <= VA_LIMIT && (SegmentFlags(ph).r || SegmentFlags(ph).x)
  }

  /** The byte the segment puts at address `x`. */
  function SegmentByte(data: seq<Byte>, ph: Phdr, x: nat): Byte {
    if ph.vaddr <= x && x - ph.vaddr < ph.filesz && ph.offset + (x - ph.vaddr) < |data|
    then data[ph.offset + (x - ph.vaddr)]
    else 0
  }

  // ---- one page ----

  function Stretch(data: seq<Byte>, ph: Phdr, va: nat, n: nat): (bytes: seq<Byte>)
    ensures |bytes| == n && forall o :: 0 <= o < n ==> bytes[o] == SegmentByte(data, ph, va + o)
  {
    if n == 0 then [] else Stretch(data, ph, va, n - 1) + [SegmentByte(data, ph, va + n - 1)]
  }

  function PageBytes(data: seq<Byte>, ph: Phdr, va: nat): Bytes {
    Stretch(data, ph, va, 4096)
  }

  /** Zeroes, then the part of the file that falls in the page. */
  method FillPage(data: seq<Byte>, ph: Phdr, va: nat) returns (bytes: Bytes)
    requires va % 4096 == 0 && va + 4096 > ph.vaddr && FileFits(data, ph)
    ensures bytes == PageBytes(data, ph, va)
  {
    bytes := seq(4096, _ => 0);
    var vaOffset := if va > ph.vaddr then va - ph.vaddr else 0;
    var pageOffset := if ph.vaddr > va then ph.vaddr - va else 0;
    if vaOffset < ph.filesz {
      var n := Min(4096 - pageOffset, ph.filesz - vaOffset);
      var start := ph.offset + vaOffset;
      if start + n <= |data| {
        bytes := bytes[..pageOffset] + data[start..start + n] + bytes[pageOffset + n..];
      }
    }
    assert forall o :: 0 <= o < 4096 ==> bytes[o] == SegmentByte(data, ph, va + o);
  }

  /** Nothing that was mapped changed; only pages of `p` were added. */
  ghost predicate Grown(a: View, b: View, p: Pid) {
    && b == a.(leaf := b.leaf, pages := b.pages)
    && (forall key :: key in a.leaf ==> key in b.leaf && b.leaf[key] == a.leaf[key])
    && (forall key :: key in a.pages ==> key in b.pages && b.pages[key] == a.pages[key])
    && (forall key :: key in b.leaf && key !in a.leaf ==> key.p == p)
  }

  lemma GrownTrans(a: View, b: View, c: View, p: Pid)
    requires Grown(a, b, p) && Grown(b, c, p)
    ensures Grown(a, c, p)
  {
  }

  /** Address `x` is mapped with the segment's permissions and holds its byte. */
  ghost predicate LoadedAt(a: View, p: Pid, data: seq<Byte>, ph: Phdr, x: nat) {
    var key := Key(p, VpnOf(x));
    && key in a.leaf && a.leaf[key].flags == SegmentFlags(ph).(v := true)
    && key in a.pages && ByteAt(a.pages[key], x % 4096) == SegmentByte(data, ph, x)
  }

  /** The segment is there below address `upto`. */
  ghost predicate Loaded(a: View, p: Pid, data: seq<Byte>, ph: Phdr, upto: int) {
    forall x: nat :: ph.vaddr <= x < ph.vaddr + ph.memsz && x < upto ==> LoadedAt(a, p, data, ph, x)
  }

  /** The file holds all the bytes the segment takes from it. */
  predicate FileFits(data: seq<Byte>, ph: Phdr) {
    ph.filesz > 0 ==> ph.offset + ph.filesz <= |data|
  }

  lemma LoadedStays(a: View, b: View, p: Pid, data: seq<Byte>, ph: Phdr, upto: int)
    requires Loaded(a, p, data, ph, upto) && Grown(a, b, p)
    ensures Loaded(b, p, data, ph, upto)
  {
    hide VpnOf, ByteAt, SegmentByte, SegmentFlags;
    forall x: nat | ph.vaddr <= x < ph.vaddr + ph.memsz && x < upto ensures LoadedAt(b, p, data, ph, x) {
      assert LoadedAt(a, p, data, ph, x);
    }
  }

  /** One more page of the segment. */
  lemma LoadedMore(a: View, b: View, p: Pid, data: seq<Byte>, ph: Phdr, va: nat, f: nat)
    requires Loaded(a, p, data, ph, va) && UserVa(va) && va % 4096 == 0
    requires Grown(a, b, p) && Key(p, VpnOf(va)) in b.leaf
    requires b.leaf[Key(p, VpnOf(va))] == Pte(f, SegmentFlags(ph).(v := true))
    requires Key(p, VpnOf(va)) in b.pages && b.pages[Key(p, VpnOf(va))] == OfBytes(PageBytes(data, ph, va))
    ensures Loaded(b, p, data, ph, va + 4096)
  {
    hide VpnOf, SegmentByte, SegmentFlags, PageBytes, ToBytes, OfBytes, ByteAt;
    LoadedStays(a, b, p, data, ph, va);
    forall x: nat | ph.vaddr <= x < ph.vaddr + ph.memsz && x < va + 4096 ensures LoadedAt(b, p, data, ph, x) {
      if x >= va {
        PageHolds(data, ph, va, x);
      }
    }
  }

  lemma PageHolds(data: seq<Byte>, ph: Phdr, va: nat, x: nat)
    requires UserVa(va) && va % 4096 == 0 && va <= x < va + 4096
    ensures VpnOf(x) == VpnOf(va) && ByteAt(OfBytes(PageBytes(data, ph, va)), x % 4096) == SegmentByte(data, ph, x)
  {
    hide VpnOf, VaOf, SegmentByte;
    VaSplit(va);
    VpnOfVa(VpnOf(va), x - va);
    BytesRoundTrip(PageBytes(data, ph, va));
  }

  // ---- room for a program ----

  /** The pages from `va` up to `end`. */
  function PagesFrom(va: nat, end: nat): seq<Vpn>
    decreases end - va
  {
    if va >= end then [] else [VpnOf(va)] + PagesFrom(va + 4096, end)
  }

  function SegmentPages(ph: Phdr): seq<Vpn> {
    if ph.memsz == 0 then [] else PagesFrom(ph.vaddr / 4096 * 4096, ph.vaddr + ph.memsz)
  }

  /** The pages of the loadable segments among the first `n`, in the order they are mapped. */
  function Plan(data: seq<Byte>, n: nat): seq<Vpn>
    requires HeaderOk(data) && n <= Phnum(data)
  {
    if n == 0 then []
    else Plan(data, n - 1) + if IsLoad(Nth(data, n - 1)) then SegmentPages(Nth(data, n - 1)) else []
  }

  /** The segment has a byte in page `v`. */
  ghost predicate Touches(ph: Phdr, v: Vpn) {
    exists x: nat :: ph.vaddr <= x < ph.vaddr + ph.memsz && VpnOf(x) == v
  }

  /** A loadable segment of the first `n` has a byte in page `v`. */
  ghost predicate SomeTouches(data: seq<Byte>, n: nat, v: Vpn)
    requires HeaderOk(data) && n <= Phnum(data)
  {
    exists i: nat :: i < n && IsLoad(Nth(data, i)) && Touches(Nth(data, i), v)
  }

  lemma SamePage(x: nat, y: nat)
    requires x / 4096 == y / 4096
    ensures VpnOf(x) == VpnOf(y)
  {
    DivTwice(x, 4096, 512);
    DivTwice(y, 4096, 512);
    DivTwice(x, 4096, 262144);
    DivTwice(y, 4096, 262144);
  }

  lemma {:induction false} InPagesFrom(va: nat, end: nat, x: nat)
    requires va % 4096 == 0 && va <= x < end
    ensures VpnOf(x) in PagesFrom(va, end)
    decreases end - va
  {
    hide VpnOf;
    if x < va + 4096 {
      SamePage(x, va);
    } else {
      InPagesFrom(va + 4096, end, x);
    }
  }

  lemma {:induction false} FromPages(va: nat, end: nat, v: Vpn) returns (x: nat)
    requires va % 4096 == 0 && v in PagesFrom(va, end)
    ensures va <= x < end && x % 4096 == 0 && VpnOf(x) == v
    decreases end - va
  {
    hide VpnOf;
    if v == VpnOf(va) {
      return va;
    }
    x := FromPages(va + 4096, end, v);
  }

  /** The pages mapped for a segment are those it has a byte in. */
  lemma SegmentPagesAre(ph: Phdr, v: Vpn)
    ensures v in SegmentPages(ph) <==> Touches(ph, v)
  {
    hide VpnOf, PagesFrom;
    var va := ph.vaddr / 4096 * 4096;
    if v in SegmentPages(ph) {
      var x := FromPages(va, ph.vaddr + ph.memsz, v);
      var y := if x < ph.vaddr then ph.vaddr else x;
      SamePage(x, y);
      assert VpnOf(y) == v;
    } else if Touches(ph, v) {
      var x: nat :| ph.vaddr <= x < ph.vaddr + ph.memsz && VpnOf(x) == v;
      InPagesFrom(va, ph.vaddr + ph.memsz, x);
    }
  }

  /** The pages planned are those a loadable segment has a byte in. */
  lemma {:induction false} PlanIs(data: seq<Byte>, n: nat, v: Vpn)
    requires HeaderOk(data) && n <= Phnum(data)
    ensures v in Plan(data, n) <==> SomeTouches(data, n, v)
  {
    hide HeaderOk, Phnum, Nth, SegmentPages, Touches, IsLoad;
    if n > 0 {
      PlanIs(data, n - 1, v);
      SegmentPagesAre(Nth(data, n - 1), v);
    }
  }

  lemma OnlyPlanned(data: seq<Byte>, was: Before, p: Pid, tbl: map<Node, nat>, leaf: map<Key, Pte>, free: seq<nat>)
    requires HeaderOk(data) && MappedSince(was, p, Plan(data, Phnum(data)), tbl, leaf, free)
    ensures forall key :: key in leaf <==> key in was.leaf || (key.p == p && SomeTouches(data, Phnum(data), key.v))
  {
    hide HeaderOk, Phnum, Plan, SomeTouches;
    var vs := Plan(data, Phnum(data));
    forall key ensures key in leaf <==> key in was.leaf || (key.p == p && SomeTouches(data, Phnum(data), key.v)) {
      PlanIs(data, Phnum(data), key.v);
      assert key in PageKeys(p, vs) <==> key.p == p && key.v in vs;
    }
  }

  /** The tables, mapped pages and free frames before the load. */
  datatype Before = Before(tbl: set<Node>, leaf: set<Key>, free: nat)

  /** The tables on the way to the pages. */
  function Ways(p: Pid, vs: seq<Vpn>): set<Node> {
    (set v | v in vs :: Mid(p, v.i)) + (set v | v in vs :: Low(p, v.i, v.j))
  }

  function PageKeys(p: Pid, vs: seq<Vpn>): set<Key> {
    set v | v in vs :: Key(p, v)
  }

  predicate OnceEach(vs: seq<Vpn>) {
    forall i, j :: 0 <= i < j < |vs| ==> vs[i] != vs[j]
  }

  /** No page twice, none mapped already, and a frame for each page and each missing table. */
  ghost predicate HasRoom(was: Before, p: Pid, vs: seq<Vpn>) {
    && OnceEach(vs) && PageKeys(p, vs) !! was.leaf
    && |vs| + |Ways(p, vs) - was.tbl| <= was.free
  }

  /** Exactly the pages `vs` have been mapped since. */
  ghost predicate MappedSince(was: Before, p: Pid, vs: seq<Vpn>, tbl: map<Node, nat>, leaf: map<Key, Pte>,
                              free: seq<nat>) {
    && OnceEach(vs) && PageKeys(p, vs) !! was.leaf && leaf.Keys == was.leaf + PageKeys(p, vs)
    && tbl.Keys == was.tbl + Ways(p, vs) && |free| + |vs| + |Ways(p, vs) - was.tbl| == was.free
  }

  lemma WaysMore(p: Pid, vs: seq<Vpn>, v: Vpn)
    ensures Ways(p, vs + [v]) == Ways(p, vs) + {Mid(p, v.i), Low(p, v.i, v.j)}
    ensures PageKeys(p, vs + [v]) == PageKeys(p, vs) + {Key(p, v)}
  {
    var vs' := vs + [v];
    assert vs'[|vs|] == v;
    assert forall x :: x in vs' <==> x in vs || x == v;
  }

  lemma WaysGrow(p: Pid, vs: seq<Vpn>, rest: seq<Vpn>)
    ensures Ways(p, vs) <= Ways(p, vs + rest) && PageKeys(p, vs) <= PageKeys(p, vs + rest)
  {
    assert forall x :: x in vs ==> x in vs + rest;
  }

  lemma {:induction false} Smaller<T>(a: set<T>, b: set<T>)
    requires a <= b
    ensures |a| <= |b|
  {
    assert b == a + (b - a);
  }

  /** What has room has room for its first part. */
  lemma RoomForFirst(was: Before, p: Pid, vs: seq<Vpn>, rest: seq<Vpn>)
    requires HasRoom(was, p, vs + rest)
    ensures HasRoom(was, p, vs)
  {
    hide Ways, PageKeys;
    WaysGrow(p, vs, rest);
    Smaller(Ways(p, vs) - was.tbl, Ways(p, vs + rest) - was.tbl);
    assert forall i :: 0 <= i < |vs| ==> (vs + rest)[i] == vs[i];
  }

  lemma MappedIsRoom(was: Before, p: Pid, vs: seq<Vpn>, tbl: map<Node, nat>, leaf: map<Key, Pte>, free: seq<nat>)
    requires MappedSince(was, p, vs, tbl, leaf, free)
    ensures HasRoom(was, p, vs)
  {
  }

  lemma NewOnes(ways: set<Node>, more: set<Node>, was: set<Node>)
    ensures |ways + more - was| == |ways - was| + |more - (was + ways)|
  {
    assert ways + more - was == (ways - was) + (more - (was + ways));
  }

  lemma MissingTables(tbl: set<Node>, mid: Node, low: Node)
    requires mid != low
    ensures |{mid, low} - tbl| == (if mid in tbl then 0 else 1) + (if low in tbl then 0 else 1)
  {
    var a, b := if mid in tbl then {} else {mid}, if low in tbl then {} else {low};
    assert {mid, low} - tbl == a + b;
  }

  /** The tables missing now are the ones the next page adds. */
  lemma MissingMore(was: Before, p: Pid, vs: seq<Vpn>, v: Vpn, tbl: map<Node, nat>)
    requires tbl.Keys == was.tbl + Ways(p, vs)
    ensures |Ways(p, vs + [v]) - was.tbl| == |Ways(p, vs) - was.tbl| + Missing(tbl, Key(p, v))
  {
    hide Ways, PageKeys;
    WaysMore(p, vs, v);
    NewOnes(Ways(p, vs), {Mid(p, v.i), Low(p, v.i, v.j)}, was.tbl);
    MissingTables(tbl.Keys, Mid(p, v.i), Low(p, v.i, v.j));
  }

  /** One page more, or no room for it. */
  lemma OnePageMore(was: Before, p: Pid, vs: seq<Vpn>, v: Vpn, tbl: map<Node, nat>, leaf: map<Key, Pte>, free: seq<nat>)
    requires MappedSince(was, p, vs, tbl, leaf, free)
    ensures HasRoom(was, p, vs + [v]) <==> Key(p, v) !in leaf && Missing(tbl, Key(p, v)) < |free|
  {
    hide Ways, Missing;
    WaysMore(p, vs, v);
    MissingMore(was, p, vs, v, tbl);
    OnceMore(p, vs, v);
  }

  lemma OnceMore(p: Pid, vs: seq<Vpn>, v: Vpn)
    requires OnceEach(vs)
    ensures OnceEach(vs + [v]) <==> Key(p, v) !in PageKeys(p, vs)
  {
    var vs' := vs + [v];
    assert forall i :: 0 <= i < |vs| ==> vs'[i] == vs[i];
    assert vs'[|vs|] == v;
    if Key(p, v) in PageKeys(p, vs) {
      var i :| 0 <= i < |vs| && vs[i] == v;
      assert vs'[i] == vs'[|vs|];
    } else {
      assert forall i :: 0 <= i < |vs| && vs[i] == v ==> Key(p, vs[i]) in PageKeys(p, vs);
    }
  }

  lemma UnionMore<T>(a: set<T>, b: set<T>, c: set<T>)
    ensures a + b + c == a + (b + c)
  {
  }

  lemma MappedMore(was: Before, p: Pid, vs: seq<Vpn>, v: Vpn, t0: map<Node, nat>, l0: map<Key, Pte>, f0: seq<nat>,
                   t1: map<Node, nat>, l1: map<Key, Pte>, f1: seq<nat>)
    requires MappedSince(was, p, vs, t0, l0, f0) && Key(p, v) !in l0 && l1.Keys == l0.Keys + {Key(p, v)}
    requires t1.Keys == t0.Keys + {Mid(p, v.i), Low(p, v.i, v.j)} && |f1| == |f0| - 1 - Missing(t0, Key(p, v))
    ensures MappedSince(was, p, vs + [v], t1, l1, f1)
  {
    hide Ways, PageKeys, OnceEach, Missing;
    WaysMore(p, vs, v);
    MissingMore(was, p, vs, v, t0);
    OnceMore(p, vs, v);
    UnionMore(was.tbl, Ways(p, vs), {Mid(p, v.i), Low(p, v.i, v.j)});
    UnionMore(was.leaf, PageKeys(p, vs), {Key(p, v)});
  }

  // ---- a segment, a program ----

  ghost predicate NoSwap(a: View, p: Pid) {
    forall v :: !InSwap(a, p, v)
  }

  /** One page of a segment mapped. */
  method LoadPage(m: Machine, p: Pid, data: seq<Byte>, ph: Phdr, va: nat) returns (ok: bool)
    requires m.Valid() && Sane(ViewOf(m)) && p in m.roots && NoSwap(ViewOf(m), p)
    requires UserVa(va) && va % 4096 == 0 && va + 4096 > ph.vaddr && FileFits(data, ph)
    requires SegmentFlags(ph).r || SegmentFlags(ph).x
    modifies m`ram, m`head, m`counts, m`free, m`owner, m`tbl, m`leaf, m`held
    ensures m.Valid() && Sane(ViewOf(m)) && m.held == old(m.held) && Grown(old(ViewOf(m)), ViewOf(m), p)
    ensures ok && Loaded(old(ViewOf(m)), p, data, ph, va) ==> Loaded(ViewOf(m), p, data, ph, va + 4096)
    ensures ok <==> Key(p, VpnOf(va)) !in old(m.leaf) && Missing(old(m.tbl), Key(p, VpnOf(va))) < |old(m.free)|
    ensures ok ==> m.leaf.Keys == old(m.leaf).Keys + {Key(p, VpnOf(va))}
    ensures ok ==> m.tbl.Keys == old(m.tbl).Keys + {Mid(p, VpnOf(va).i), Low(p, VpnOf(va).i, VpnOf(va).j)}
    ensures ok ==> |m.free| == |old(m.free)| - 1 - Missing(old(m.tbl), Key(p, VpnOf(va)))
  {
    hide Inv, Linked, Machine.Valid, Machine.Pages, Sane, VpnOf, SegmentFlags, PageBytes, OfBytes, Missing, GrewFor,
      Loaded, NoSwap;
    ghost var a, f := ViewOf(m), Head(m.free);
    var bytes := FillPage(data, ph, va);
    assert SegmentFlags(ph).u by { UserSegment(ph); }
    VaSplit(va);
    var oom;
    ghost var tbl := m.tbl;
    oom, ok := MapFresh(m, p, va, OfBytes(bytes), SegmentFlags(ph));
    SaneFacts(a);
    if ok {
      OnTheWay(m, tbl, Key(p, VpnOf(va)));
      VaSplit(va);
      NotSwapped(a, p, VpnOf(va));
      SaneLoad(a, ViewOf(m), Key(p, VpnOf(va)), Pte(f, SegmentFlags(ph).(v := true)));
      if Loaded(a, p, data, ph, va) {
        LoadedMore(a, ViewOf(m), p, data, ph, va, f);
      }
    }
  }

  lemma NotSwapped(a: View, p: Pid, v: Vpn)
    requires NoSwap(a, p)
    ensures !InSwap(a, p, v)
  {
  }

  lemma UserSegment(ph: Phdr)
    ensures SegmentFlags(ph).u
  {
  }

  /** A mapped page has its tables. */
  lemma OnTheWay(m: Machine, tbl: map<Node, nat>, key: Key)
    requires m.Valid() && key in m.leaf && GrewFor(key, tbl, m.tbl)
    ensures m.tbl.Keys == tbl.Keys + {Mid(key.p, key.v.i), LowOf(key)}
  {
    hide Inv, Linked;
    NoneMissing(m.St(), key);
  }

  lemma SaneLoad(a: View, b: View, key: Key, e: Pte)
    requires Sane(a) && !InSwap(a, key.p, key.v) && key.p in a.roots && VpnOk(key.v)
    requires e.flags.v && e.flags.u && (e.flags.r || e.flags.x)
    requires b == a.(leaf := a.leaf[key := e], pages := b.pages) && b.pages.Keys == a.pages.Keys + {key}
    ensures Sane(b)
  {
    hide OneRootEach, IsRoot;
    assert b.leaf.Keys == a.leaf.Keys + {key};
    assert forall k :: k in b.leaf && k != key ==> k in a.leaf && b.leaf[k] == a.leaf[k];
  }

  /** A segment after those whose pages are `vs`. It succeeds exactly when the file has it all and there is room. */
  method LoadSegment(m: Machine, p: Pid, data: seq<Byte>, ph: Phdr, ghost was: Before,
                     ghost vs: seq<Vpn>) returns (ok: bool)
    requires m.Valid() && Sane(ViewOf(m)) && p in m.roots && NoSwap(ViewOf(m), p)
    requires IsLoad(ph) && InUserSpace(ph) && MappedSince(was, p, vs, m.tbl, m.leaf, m.free)
    modifies m`ram, m`head, m`counts, m`free, m`owner, m`tbl, m`leaf, m`held
    ensures m.Valid() && Sane(ViewOf(m)) && m.held == old(m.held) && Grown(old(ViewOf(m)), ViewOf(m), p)
    ensures ok ==> Loaded(ViewOf(m), p, data, ph, ph.vaddr + ph.memsz)
    ensures ok <==> FileFits(data, ph) && HasRoom(was, p, vs + SegmentPages(ph))
    ensures ok ==> MappedSince(was, p, vs + SegmentPages(ph), m.tbl, m.leaf, m.free)
  {
    hide Inv, Linked, Machine.Valid, Machine.Pages, Sane, VpnOf, SegmentFlags, Loaded, NoSwap, HasRoom, MappedSince,
      Missing, Grown, PagesFrom, SegmentPages;
    ghost var start := ViewOf(m);
    GrownNone(start, p);
    if ph.filesz > 0 && ph.offset + ph.filesz > |data| {
      return false;
    }
    MappedIsRoom(was, p, vs, m.tbl, m.leaf, m.free);
    if ph.memsz == 0 {
      NoPages(vs, ph);
      NothingToLoad(start, p, data, ph);
      return true;
    }
    var va := ph.vaddr / 4096 * 4096;
    NothingBelow(start, p, data, ph, va);
    PageOfUser(ph.vaddr);
    FirstPages(ph);
    ghost var done := vs;
    while va < ph.vaddr + ph.memsz
      invariant va % 4096 == 0 && USER_BASE <= va && va + 4096 > ph.vaddr
      invariant m.Valid() && Sane(ViewOf(m)) && m.held == old(m.held) && Grown(start, ViewOf(m), p)
      invariant Loaded(ViewOf(m), p, data, ph, va)
      invariant MappedSince(was, p, done, m.tbl, m.leaf, m.free)
      invariant done + PagesFrom(va, ph.vaddr + ph.memsz) == vs + SegmentPages(ph)
      decreases ph.vaddr + ph.memsz - va
    {
      ghost var a, tbl, free := ViewOf(m), m.tbl, m.free;
      NoSwapStill(start, a, p);
      OnePageMore(was, p, done, VpnOf(va), m.tbl, m.leaf, m.free);
      PagesNext(was, p, done, va, ph.vaddr + ph.memsz, vs + SegmentPages(ph));
      ok := LoadPage(m, p, data, ph, va);
      GrownTrans(start, a, ViewOf(m), p);
      if !ok {
        return false;
      }
      MappedMore(was, p, done, VpnOf(va), tbl, a.leaf, free, m.tbl, m.leaf, m.free);
      done := done + [VpnOf(va)];
      va := va + 4096;
    }
    NoMorePages(done, va, ph.vaddr + ph.memsz);
    MappedIsRoom(was, p, done, m.tbl, m.leaf, m.free);
    AllLoaded(ViewOf(m), p, data, ph, va);
    return true;
  }

  lemma NoPages(vs: seq<Vpn>, ph: Phdr)
    requires ph.memsz == 0
    ensures vs + SegmentPages(ph) == vs
  {
  }

  lemma FirstPages(ph: Phdr)
    requires ph.memsz > 0
    ensures SegmentPages(ph) == PagesFrom(ph.vaddr / 4096 * 4096, ph.vaddr + ph.memsz)
  {
  }

  /** The next page of the plan; if there is no room for it, there is none for the plan. */
  lemma PagesNext(was: Before, p: Pid, done: seq<Vpn>, va: nat, end: nat, all: seq<Vpn>)
    requires va < end && done + PagesFrom(va, end) == all
    ensures done + [VpnOf(va)] + PagesFrom(va + 4096, end) == all
    ensures HasRoom(was, p, all) ==> HasRoom(was, p, done + [VpnOf(va)])
  {
    hide HasRoom, VpnOf;
    assert done + [VpnOf(va)] + PagesFrom(va + 4096, end) == done + PagesFrom(va, end);
    if HasRoom(was, p, all) {
      RoomForFirst(was, p, done + [VpnOf(va)], PagesFrom(va + 4096, end));
    }
  }

  lemma NoMorePages(done: seq<Vpn>, va: nat, end: nat)
    requires va >= end
    ensures done + PagesFrom(va, end) == done
  {
  }

  lemma NothingToLoad(a: View, p: Pid, data: seq<Byte>, ph: Phdr)
    requires ph.memsz == 0
    ensures Loaded(a, p, data, ph, ph.vaddr + ph.memsz) && Grown(a, a, p)
  {
  }

  lemma NothingBelow(a: View, p: Pid, data: seq<Byte>, ph: Phdr, va: nat)
    requires va <= ph.vaddr
    ensures Loaded(a, p, data, ph, va)
  {
  }

  lemma PageOfUser(va: nat)
    requires UserVa(va)
    ensures va / 4096 * 4096 % 4096 == 0 && USER_BASE <= va / 4096 * 4096 <= va < va / 4096 * 4096 + 4096
  {
  }

  lemma NoSwapStill(a: View, b: View, p: Pid)
    requires NoSwap(a, p) && Grown(a, b, p)
    ensures NoSwap(b, p)
  {
    assert forall v :: InSwap(b, p, v) ==> InSwap(a, p, v);
  }

  lemma AllLoaded(a: View, p: Pid, data: seq<Byte>, ph: Phdr, va: nat)
    requires Loaded(a, p, data, ph, va) && va >= ph.vaddr + ph.memsz
    ensures Loaded(a, p, data, ph, ph.vaddr + ph.memsz)
  {
  }

  datatype LoadInfo = LoadInfo(entry: nat, phdrVa: Word, phnum: nat, phentsize: nat)

  /** Segments `0..n` are all in place. */
  ghost predicate AllSegments(a: View, p: Pid, data: seq<Byte>, n: nat) {
    HeaderOk(data) && forall i: nat :: i < n && i < Phnum(data) && IsLoad(Nth(data, i)) ==>
      Loaded(a, p, data, Nth(data, i), Nth(data, i).vaddr + Nth(data, i).memsz) && FileFits(data, Nth(data, i))
  }

  lemma SegmentsStay(a: View, b: View, p: Pid, data: seq<Byte>, n: nat)
    requires AllSegments(a, p, data, n) && Grown(a, b, p)
    ensures AllSegments(b, p, data, n)
  {
    hide Loaded, Nth, HeaderOk, Grown;
    forall i: nat | i < n && i < Phnum(data) && IsLoad(Nth(data, i))
      ensures Loaded(b, p, data, Nth(data, i), Nth(data, i).vaddr + Nth(data, i).memsz) && FileFits(data, Nth(data, i))
    {
      LoadedStays(a, b, p, data, Nth(data, i), Nth(data, i).vaddr + Nth(data, i).memsz);
    }
  }

  /** Header `i` is the loadable one with the lowest address among the first `n`, the first of them on a tie. */
  ghost predicate FirstLoad(data: seq<Byte>, i: nat, n: nat) {
    && HeaderOk(data) && i < n <= Phnum(data) && IsLoad(Nth(data, i))
    && forall j: nat :: j < n && IsLoad(Nth(data, j)) ==>
      Nth(data, i).vaddr < Nth(data, j).vaddr || (Nth(data, i).vaddr == Nth(data, j).vaddr && i <= j)
  }

  ghost predicate NoLoads(data: seq<Byte>, n: nat) {
    HeaderOk(data) && n <= Phnum(data) && forall j: nat :: j < n ==> !IsLoad(Nth(data, j))
  }

  /** The file is a program whose segments it holds, and there is room for them. */
  ghost predicate Loadable(data: seq<Byte>, was: Before, p: Pid) {
    && HeaderOk(data) && (exists i: nat :: i < Phnum(data) && IsLoad(Nth(data, i)))
    && (forall i: nat :: i < Phnum(data) && IsLoad(Nth(data, i)) ==> FileFits(data, Nth(data, i)))
    && HasRoom(was, p, Plan(data, Phnum(data)))
  }

  /** The plan for the first headers comes first. */
  lemma {:induction false} PlanGrows(data: seq<Byte>, i: nat, n: nat) returns (rest: seq<Vpn>)
    requires HeaderOk(data) && i <= n <= Phnum(data)
    ensures Plan(data, n) == Plan(data, i) + rest
    decreases n - i
  {
    hide HeaderOk, Nth, SegmentPages;
    if i == n {
      rest := [];
    } else {
      var first := PlanGrows(data, i, n - 1);
      rest := first + if IsLoad(Nth(data, n - 1)) then SegmentPages(Nth(data, n - 1)) else [];
      assert Plan(data, n) == Plan(data, i) + rest;
    }
  }

  lemma PlanNext(data: seq<Byte>, i: nat)
    requires HeaderOk(data) && i < Phnum(data)
    ensures Plan(data, i + 1) ==
      if IsLoad(Nth(data, i)) then Plan(data, i) + SegmentPages(Nth(data, i)) else Plan(data, i)
  {
    hide HeaderOk, Nth, SegmentPages;
  }

  /** A segment that could not be loaded. */
  lemma NotLoadable(data: seq<Byte>, was: Before, p: Pid, i: nat)
    requires HeaderOk(data) && i < Phnum(data) && IsLoad(Nth(data, i))
    requires !(FileFits(data, Nth(data, i)) && HasRoom(was, p, Plan(data, i) + SegmentPages(Nth(data, i))))
    ensures !Loadable(data, was, p)
  {
    hide HeaderOk, Nth, SegmentPages, HasRoom, FileFits;
    if Loadable(data, was, p) {
      var rest := PlanGrows(data, i + 1, Phnum(data));
      RoomForFirst(was, p, Plan(data, i + 1), rest);
    }
  }

  lemma LoadableNow(data: seq<Byte>, was: Before, p: Pid, first: nat)
    requires HeaderOk(data) && FirstLoad(data, first, Phnum(data)) && HasRoom(was, p, Plan(data, Phnum(data)))
    requires forall i: nat :: i < Phnum(data) && IsLoad(Nth(data, i)) ==> FileFits(data, Nth(data, i))
    ensures Loadable(data, was, p)
  {
    hide HeaderOk, Nth, HasRoom, FileFits;
  }

  lemma NothingMapped(was: Before, p: Pid, data: seq<Byte>, tbl: map<Node, nat>, leaf: map<Key, Pte>, free: seq<nat>)
    requires HeaderOk(data) && was == Before(tbl.Keys, leaf.Keys, |free|)
    ensures MappedSince(was, p, Plan(data, 0), tbl, leaf, free)
  {
    hide HeaderOk, Nth;
    assert Ways(p, []) == {} && PageKeys(p, []) == {};
  }

  /** Loads a program, exactly when the file is loadable. On success every byte of every loadable segment is in
      place with the segment's permissions; in any case nothing that was mapped changes. */
  method LoadElf(m: Machine, p: Pid, data: seq<Byte>) returns (r: Option<LoadInfo>, ghost first: nat)
    requires m.Valid() && Sane(ViewOf(m)) && p in m.roots && NoSwap(ViewOf(m), p)
    requires HeaderOk(data) ==> forall i: nat :: i < Phnum(data) ==> InUserSpace(Nth(data, i))
    modifies m`ram, m`head, m`counts, m`free, m`owner, m`tbl, m`leaf, m`held
    ensures m.Valid() && Sane(ViewOf(m)) && m.held == old(m.held) && Grown(old(ViewOf(m)), ViewOf(m), p)
    ensures r.Some? <==> Loadable(data, Before(old(m.tbl).Keys, old(m.leaf).Keys, |old(m.free)|), p)
    ensures r.Some? ==>
      HeaderOk(data) && AllSegments(ViewOf(m), p, data, Phnum(data)) && FirstLoad(data, first, Phnum(data))
    ensures r.Some? ==> forall key :: key in m.leaf <==>
      key in old(m.leaf) || (key.p == p && SomeTouches(data, Phnum(data), key.v))
    ensures r.Some? ==> r.value.entry == Le64(data, 24) && r.value.phnum == Le16(data, 56)
    ensures r.Some? ==> r.value == LoadInfo(Field(data, 24, 8),
      Wrap(Nth(data, first).vaddr + Field(data, 32, 8) - Nth(data, first).offset), Phnum(data), Field(data, 54, 2))
  {
    hide Inv, Linked, Machine.Valid, Machine.Pages, Sane, Field, NoSwap, Loaded, PhdrAt, InUserSpace, Wrap, AllSegments,
      Grown, HasRoom, MappedSince, SegmentPages, Plan, SomeTouches, Le16, Le64, PageKeys, FileFits;
    ghost var start, was := ViewOf(m), Before(m.tbl.Keys, m.leaf.Keys, |m.free|);
    first := 0;
    GrownNone(start, p);
    if |data| < HEADER_SIZE {
      return None, first;
    }
    if data[..4] != [0x7f, 0x45, 0x4c, 0x46] {
      return None, first;
    }
    var phoff, phentsize, phnum := Field(data, 32, 8), Field(data, 54, 2), Field(data, 56, 2);
    if phentsize < PHDR_SIZE {
      return None, first;
    }
    if phoff + phnum * phentsize > |data| {
      return None, first;
    }
    var firstLoad: Option<(nat, nat)> := None;
    var i: nat := 0;
    NoSegments(start, p, data);
    NothingMapped(was, p, data, m.tbl, m.leaf, m.free);
    while i < phnum
      invariant i <= phnum
      invariant m.Valid() && Sane(ViewOf(m)) && m.held == old(m.held) && Grown(start, ViewOf(m), p)
      invariant AllSegments(ViewOf(m), p, data, i) && MappedSince(was, p, Plan(data, i), m.tbl, m.leaf, m.free)
      invariant if firstLoad.None? then NoLoads(data, i)
                else FirstLoad(data, first, i) && firstLoad.value == (Nth(data, first).vaddr, Nth(data, first).offset)
    {
      NthFits(data, i);
      var ph := PhdrAt(data, phoff + i * phentsize);
      assert ph == Nth(data, i);
      PlanNext(data, i);
      if IsLoad(ph) {
        if firstLoad.None? || ph.vaddr < firstLoad.value.0 {
          firstLoad, first := Some((ph.vaddr, ph.offset)), i;
        }
        ghost var a := ViewOf(m);
        NoSwapStill(start, a, p);
        var ok := LoadSegment(m, p, data, ph, was, Plan(data, i));
        GrownTrans(start, a, ViewOf(m), p);
        if !ok {
          NotLoadable(data, was, p, i);
          return None, first;
        }
        SegmentsStay(a, ViewOf(m), p, data, i);
        OneMoreSegment(ViewOf(m), p, data, i);
      } else {
        OneMoreSegment(ViewOf(m), p, data, i);
      }
      i := i + 1;
    }
    if firstLoad.None? {
      return None, first;
    }
    AllFit(ViewOf(m), p, data);
    Eight(data, 24);
    HeaderBytes(data);
    MappedIsRoom(was, p, Plan(data, phnum), m.tbl, m.leaf, m.free);
    OnlyPlanned(data, was, p, m.tbl, m.leaf, m.free);
    LoadableNow(data, was, p, first);
    var phdrVa := Wrap(firstLoad.value.0 + phoff - firstLoad.value.1);
    return Some(LoadInfo(Field(data, 24, 8), phdrVa, phnum, phentsize)), first;
  }

  lemma AllFit(a: View, p: Pid, data: seq<Byte>)
    requires HeaderOk(data) && AllSegments(a, p, data, Phnum(data))
    ensures forall i: nat :: i < Phnum(data) && IsLoad(Nth(data, i)) ==> FileFits(data, Nth(data, i))
  {
    hide HeaderOk, Nth, Loaded, FileFits;
  }

  lemma GrownNone(a: View, p: Pid)
    ensures Grown(a, a, p)
  {
  }

  lemma NoSegments(a: View, p: Pid, data: seq<Byte>)
    requires HeaderOk(data)
    ensures AllSegments(a, p, data, 0)
  {
  }

  lemma OneMoreSegment(a: View, p: Pid, data: seq<Byte>, i: nat)
    requires AllSegments(a, p, data, i) && i < Phnum(data)
    requires IsLoad(Nth(data, i)) ==>
      Loaded(a, p, data, Nth(data, i), Nth(data, i).vaddr + Nth(data, i).memsz) && FileFits(data, Nth(data, i))
    ensures AllSegments(a, p, data, i + 1)
  {
    hide Loaded, Nth, HeaderOk;
  }

  /** What a successful load means for the program: file bytes below `filesz`, zeros up to `memsz`. */
  lemma SegmentReads(a: View, p: Pid, data: seq<Byte>, i: nat, x: nat)
    requires HeaderOk(data) && AllSegments(a, p, data, Phnum(data)) && i < Phnum(data) && IsLoad(Nth(data, i))
    requires Nth(data, i).vaddr <= x < Nth(data, i).vaddr + Nth(data, i).memsz
    ensures var ph := Nth(data, i);
      && UserByte(a, p, x) == (if x - ph.vaddr < ph.filesz then data[ph.offset + (x - ph.vaddr)] else 0)
      && Key(p, VpnOf(x)) in a.leaf && a.leaf[Key(p, VpnOf(x))].flags == SegmentFlags(ph).(v := true)
    ensures |data| >= 64 && Offset(data, i) + 56 <= |data|
    ensures PermissionsAre(a.leaf[Key(p, VpnOf(x))].flags, data[Offset(data, i) + 4])
  {
    hide Nth, HeaderOk, VpnOf, SegmentFlags, ByteAt, Le16, Le32, Le64, Offset;
    assert LoadedAt(a, p, data, Nth(data, i), x);
    HeaderBytes(data);
    NthBytes(data, i);
    FlagsFromByte(data, Offset(data, i), Nth(data, i));
  }
}
