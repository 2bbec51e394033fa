/** What physical memory holds between kernel operations: every frame is reserved at boot, is on the
    free list, is a page table of exactly one process, or holds user data; and every count is exact. The functions
    below are the steps every memory operation is made of; each keeps `Inv`. */
module Memory {
  import opened Words
  import opened Sv39

  /** A page table, named by the process and the indices that lead to it. */
  datatype Node = Root(p: Pid) | Mid(p: Pid, i: nat) | Low(p: Pid, i: nat, j: nat)

  /** A user page of a process. */
  datatype Key = Key(p: Pid, v: Vpn)

  datatype Owner = Reserved | Idle | Table(n: Node) | Data

  /** `ram`, `counts` and `free` are the allocator's; `owner`, `tbl`, `leaf` and `held` say what each
      frame is for. `held` counts the references that kernel code, not a page table, holds. */
  datatype State = State(kernel: seq<Word>,
                         ram: map<nat, Page>, counts: map<nat, nat>, free: seq<nat>,
                         owner: map<nat, Owner>, tbl: map<Node, nat>, leaf: map<Key, Pte>,
                         held: multiset<nat>)

  predicate NodeOk(n: Node) {
    match n
    case Root(_) => true
    case Mid(_, i) => 4 <= i < 512
    case Low(_, i, j) => 4 <= i < 512 && j < 512
  }

  /** Entries of a table that belong to the process: all but the root's kernel slots. */
  predicate InTable(n: Node, idx: nat) {
    (n.Root? ==> 4 <= idx) && idx < 512
  }

  function Child(n: Node, idx: nat): Node
    requires !n.Low?
  {
    match n
    case Root(p) => Mid(p, idx)
    case Mid(p, i) => Low(p, i, idx)
  }

  function Parent(n: Node): Node
    requires !n.Root?
  {
    match n
    case Mid(p, _) => Root(p)
    case Low(p, i, _) => Mid(p, i)
  }

  function Index(n: Node): nat
    requires !n.Root?
  {
    match n
    case Mid(_, i) => i
    case Low(_, _, j) => j
  }

  function LowOf(key: Key): Node {
    Low(key.p, key.v.i, key.v.j)
  }

  function Slot(n: Node, k: nat): Key
    requires n.Low?
  {
    Key(n.p, Vpn(n.i, n.j, k))
  }

  function PtrWord(tbl: map<Node, nat>, n: Node): Word {
    if n in tbl && tbl[n] < MAX_PPN then Encode(Pte(tbl[n], V_ONLY)) else 0
  }

  function LeafWord(leaf: map<Key, Pte>, key: Key): Word {
    if key in leaf && leaf[key].ppn < MAX_PPN then Encode(leaf[key]) else 0
  }

  /** The word that table `n` holds at `idx`. */
  function Want(tbl: map<Node, nat>, leaf: map<Key, Pte>, n: Node, idx: nat): Word {
    if n.Low? then LeafWord(leaf, Slot(n, idx)) else PtrWord(tbl, Child(n, idx))
  }

  /** The page-table slots that name frame `f`. */
  function Refs(leaf: map<Key, Pte>, f: nat): set<Key> {
    set key | key in leaf && leaf[key].ppn == f
  }

  // ---- the invariant ----

  ghost predicate PoolOk(kernel: seq<Word>, ram: map<nat, Page>, counts: map<nat, nat>, owner: map<nat, Owner>) {
    && ram.Keys == owner.Keys && counts.Keys == owner.Keys
    && |kernel| == 4
    && (forall f :: f in owner ==> 0 < f < MAX_PPN)
  }

  ghost predicate FreeOk(free: seq<nat>, owner: map<nat, Owner>) {
    && NoDup(free)
    && (forall f :: f in free ==> f in owner && owner[f] == Idle)
    && (forall f :: f in owner && owner[f] == Idle ==> f in free)
  }

  /** Tables form a tree of distinct frames. */
  ghost predicate TreeOk(tbl: map<Node, nat>, owner: map<nat, Owner>) {
    && (forall n :: n in tbl ==> NodeOk(n) && tbl[n] in owner && owner[tbl[n]] == Table(n))
    && (forall f :: f in owner && owner[f].Table? ==> owner[f].n in tbl && tbl[owner[f].n] == f)
    && (forall n :: n in tbl && !n.Root? ==> Parent(n) in tbl)
  }

  /** Every table holds exactly the pointers and leaf entries the tree says, and every root the
      kernel's own four. */
  ghost predicate EntriesOk(kernel: seq<Word>, ram: map<nat, Page>, tbl: map<Node, nat>, leaf: map<Key, Pte>) {
    && |kernel| == 4
    && (forall n :: n in tbl ==> tbl[n] in ram)
    && (forall n, idx: nat :: n in tbl && InTable(n, idx) ==> ram[tbl[n]][idx] == Want(tbl, leaf, n, idx))
    && (forall n, idx: nat :: n in tbl && n.Root? && idx < 4 ==> ram[tbl[n]][idx] == kernel[idx])
  }

  ghost predicate LeafOk(tbl: map<Node, nat>, owner: map<nat, Owner>, leaf: map<Key, Pte>) {
    forall key :: key in leaf ==>
      && VpnOk(key.v) && LowOf(key) in tbl
      && leaf[key].flags.v && leaf[key].flags.u
      && leaf[key].ppn in owner && owner[leaf[key].ppn] == Data
  }

  /** A process maps a frame at most once, and a writable page is not shared. */
  ghost predicate ShareOk(leaf: map<Key, Pte>) {
    forall a, b :: a in leaf && b in leaf && a != b && leaf[a].ppn == leaf[b].ppn ==>
      a.p != b.p && !leaf[a].flags.w && !leaf[b].flags.w
  }

  predicate CountFits(o: Owner, count: nat, uses: nat) {
    if o == Idle || o == Reserved then count == 0 else if o.Table? then count == 1 else count == uses && uses > 0
  }

  /** Reference counts are exact. */
  ghost predicate CountOk(counts: map<nat, nat>, owner: map<nat, Owner>, leaf: map<Key, Pte>, held: multiset<nat>) {
    && counts.Keys == owner.Keys
    && (forall f :: f in owner ==> CountFits(owner[f], counts[f], |Refs(leaf, f)| + held[f]))
    && (forall f :: f in held ==> f in owner && owner[f] == Data)
  }

  ghost predicate Inv(s: State) {
    && PoolOk(s.kernel, s.ram, s.counts, s.owner)
    && FreeOk(s.free, s.owner)
    && TreeOk(s.tbl, s.owner)
    && EntriesOk(s.kernel, s.ram, s.tbl, s.leaf)
    && LeafOk(s.tbl, s.owner, s.leaf)
    && ShareOk(s.leaf)
    && CountOk(s.counts, s.owner, s.leaf, s.held)
  }

  ghost predicate Mapped(ram: map<nat, Page>, leaf: map<Key, Pte>) {
    forall key :: key in leaf ==> leaf[key].ppn in ram
  }

  /** The contents of the mapped user pages. */
  ghost function Resident(ram: map<nat, Page>, leaf: map<Key, Pte>): map<Key, Page> {
    map key | key in leaf && leaf[key].ppn in ram :: ram[leaf[key].ppn]
  }

  predicate IsData(s: State, f: nat) {
    f in s.owner && s.owner[f] == Data
  }

  // ---- the steps ----

  /** `alloc_frame`: the head of the free list, zeroed, with count one. */
  function Take(s: State): State
    requires s.free != []
  {
    var f := s.free[0];
    s.(ram := s.ram[f := Zero()], counts := s.counts[f := 1], free := s.free[1..],
       owner := s.owner[f := Data], held := s.held + multiset{f})
  }

  /** A free page: the link word, then poison. */
  function FreedPage(link: Word): Page {
    seq(512, i requires 0 <= i < 512 => if i == 0 then link else POISON)
  }

  function Head(free: seq<nat>): nat {
    if free == [] then 0 else free[0]
  }

  // Memory after a word is written, a frame freed, a reference dropped.

  function Poked(ram: map<nat, Page>, f: nat, idx: nat, w: Word): map<nat, Page> {
    if f in ram && idx < 512 then ram[f := ram[f][idx := w]] else ram
  }

  function Freed(ram: map<nat, Page>, free: seq<nat>, f: nat): map<nat, Page> {
    if Head(free) < MAX_PPN then ram[f := FreedPage(Head(free) * 4096)] else ram
  }

  predicate Last(counts: map<nat, nat>, f: nat) {
    f in counts && counts[f] <= 1
  }

  function DecrRam(ram: map<nat, Page>, counts: map<nat, nat>, free: seq<nat>, f: nat): map<nat, Page> {
    if Last(counts, f) then Freed(ram, free, f) else ram
  }

  function DecrCounts(counts: map<nat, nat>, f: nat): map<nat, nat> {
    if Last(counts, f) || f !in counts then counts[f := 0] else counts[f := counts[f] - 1]
  }

  function DecrFree(counts: map<nat, nat>, free: seq<nat>, f: nat): seq<nat> {
    if Last(counts, f) then [f] + free else free
  }

  /** The frame goes back on the list: its first word the link, the rest poison. */
  function Release(s: State, f: nat): State
    requires Head(s.free) < MAX_PPN
  {
    s.(ram := s.ram[f := FreedPage(Head(s.free) * 4096)], counts := s.counts[f := 0],
       free := [f] + s.free, owner := s.owner[f := Idle])
  }

  /** `decr_ref_and_maybe_free` of a reference kernel code holds. */
  function Drop(s: State, f: nat): State
    requires f in s.counts && Head(s.free) < MAX_PPN
  {
    if s.counts[f] > 1 then
      s.(counts := s.counts[f := s.counts[f] - 1], held := s.held - multiset{f})
    else
      Release(s, f).(held := s.held - multiset{f})
  }

  /** `incr_ref`, the new reference held by kernel code. */
  function Retain(s: State, f: nat): State
    requires f in s.counts
  {
    s.(counts := s.counts[f := s.counts[f] + 1], held := s.held + multiset{f})
  }

  /** Write user data into a frame. */
  function Fill(s: State, f: nat, page: Page): State {
    s.(ram := s.ram[f := page])
  }

  function Poke(s: State, f: nat, idx: nat, w: Word): State
    requires f in s.ram && idx < 512
  {
    s.(ram := s.ram[f := s.ram[f][idx := w]])
  }

  /** A held zeroed frame becomes table `n`, and its parent's entry points at it. */
  function Link(s: State, n: Node, f: nat): State
    requires !n.Root? && NodeOk(n) && Parent(n) in s.tbl && s.tbl[Parent(n)] in s.ram && f < MAX_PPN
  {
    Poke(s, s.tbl[Parent(n)], Index(n), Encode(Pte(f, V_ONLY)))
      .(owner := s.owner[f := Table(n)], tbl := s.tbl[n := f], held := s.held - multiset{f})
  }

  /** `new_process_table`: a held zeroed frame becomes a root holding the kernel's four entries. */
  function Plant(s: State, p: Pid, f: nat): State
    requires |s.kernel| == 4 && f in s.ram
  {
    s.(ram := s.ram[f := s.kernel + s.ram[f][4..]],
       owner := s.owner[f := Table(Root(p))], tbl := s.tbl[Root(p) := f], held := s.held - multiset{f})
  }

  /** A held reference to a data frame becomes the leaf entry of `key`. */
  function Bind(s: State, key: Key, e: Pte): State
    requires LowOf(key) in s.tbl && s.tbl[LowOf(key)] in s.ram && key.v.k < 512 && e.ppn < MAX_PPN
  {
    Poke(s, s.tbl[LowOf(key)], key.v.k, Encode(e)).(leaf := s.leaf[key := e], held := s.held - multiset{e.ppn})
  }

  /** The leaf entry of `key` is cleared; its reference passes to kernel code. */
  function Unbind(s: State, key: Key): State
    requires key in s.leaf && LowOf(key) in s.tbl && s.tbl[LowOf(key)] in s.ram && key.v.k < 512
  {
    Poke(s, s.tbl[LowOf(key)], key.v.k, 0).(leaf := s.leaf - {key}, held := s.held + multiset{s.leaf[key].ppn})
  }

  /** The leaf entry of `key` gets new flags. */
  function Reflag(s: State, key: Key, flags: Flags): State
    requires key in s.leaf && LowOf(key) in s.tbl && s.tbl[LowOf(key)] in s.ram && key.v.k < 512
    requires s.leaf[key].ppn < MAX_PPN
  {
    var e := Pte(s.leaf[key].ppn, flags);
    Poke(s, s.tbl[LowOf(key)], key.v.k, Encode(e)).(leaf := s.leaf[key := e])
  }

  /** An empty table's frame is freed and its parent's entry cleared. */
  function Unlink(s: State, n: Node): State
    requires !n.Root? && NodeOk(n) && n in s.tbl && Parent(n) in s.tbl && s.tbl[Parent(n)] in s.ram
    requires Head(s.free) < MAX_PPN
  {
    Release(Poke(s, s.tbl[Parent(n)], Index(n), 0), s.tbl[n]).(tbl := s.tbl - {n})
  }

  /** An empty process's root is freed. */
  function Uproot(s: State, p: Pid): State
    requires Root(p) in s.tbl && Head(s.free) < MAX_PPN
  {
    Release(s, s.tbl[Root(p)]).(tbl := s.tbl - {Root(p)})
  }
}
