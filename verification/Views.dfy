/** What user programs can observe of the machine: the page every process reads at every address, be
    it mapped, in the swap pool, or absent. */
module Views {
  import opened Words
  import opened Sv39
  import opened Memory
  import opened MemorySteps
  import opened Machines
  import opened SwapCodec

  datatype View = View(roots: map<Pid, nat>, leaf: map<Key, Pte>, pages: map<Key, Page>,
                       swap: map<SwapKey, Swapped>, count: Word, bytes: Word)

  ghost function ViewOf(m: Machine): View
    reads m`roots, m`leaf, m`ram, m`swap, m`swapPages, m`swapBytes
  {
    View(m.roots, m.leaf, m.Pages(), m.swap, m.swapPages, m.swapBytes)
  }

  ghost predicate InSwap(a: View, p: Pid, v: Vpn) {
    p in a.roots && SwapKey(a.roots[p], v) in a.swap
  }

  /** The page at `v` of process `p`: mapped, in the pool, or zero. */
  ghost function PageAt(a: View, p: Pid, v: Vpn): Page {
    if Key(p, v) in a.pages then a.pages[Key(p, v)]
    else if InSwap(a, p, v) then Restored(a.swap[SwapKey(a.roots[p], v)].data)
    else Zero()
  }

  /** No process can tell the two apart. */
  ghost predicate Same(a: View, b: View) {
    a.roots == b.roots && forall p, v :: p in a.roots ==> PageAt(b, p, v) == PageAt(a, p, v)
  }

  /** Nothing new in the pool. */
  ghost predicate PoolShrinks(a: View, b: View) {
    forall k :: k in b.swap ==> k in a.swap
  }

  ghost predicate IsRoot(roots: map<Pid, nat>, f: nat) {
    exists p :: p in roots && roots[p] == f
  }

  /** Pool entries belong to live processes, and a page is never both mapped and in the pool. */
  ghost predicate SwapOk(roots: map<Pid, nat>, leaf: map<Key, Pte>, swap: map<SwapKey, Swapped>) {
    && (forall k :: k in swap ==> VpnOk(k.v) && IsRoot(roots, k.root))
    && (forall k :: k in swap ==> swap[k].flags.u && (swap[k].flags.r || swap[k].flags.x))
    && (forall key :: key in leaf && key.p in roots ==> SwapKey(roots[key.p], key.v) !in swap)
  }

  /** Every leaf can be read or executed; without that the walks would take it for a table. */
  ghost predicate AllReadable(leaf: map<Key, Pte>) {
    forall key :: key in leaf ==> leaf[key].flags.r || leaf[key].flags.x
  }

  ghost predicate OneRootEach(roots: map<Pid, nat>) {
    forall p, q :: p in roots && q in roots && roots[p] == roots[q] ==> p == q
  }

  ghost predicate KeysLive(roots: map<Pid, nat>, leaf: map<Key, Pte>) {
    forall key :: key in leaf ==> key.p in roots && VpnOk(key.v) && leaf[key].flags.u && leaf[key].flags.v
  }

  ghost predicate Sane(a: View) {
    && SwapOk(a.roots, a.leaf, a.swap) && AllReadable(a.leaf)
    && OneRootEach(a.roots) && KeysLive(a.roots, a.leaf) && a.pages.Keys == a.leaf.Keys
  }

  /** The parts of the machine's invariant, and of what is asked of its view. */
  lemma ValidInv(m: Machine)
    requires m.Valid()
    ensures Inv(m.St()) && m.Pages() == Resident(m.ram, m.leaf)
    ensures forall p :: p in m.roots ==> Root(p) in m.tbl && m.roots[p] == m.tbl[Root(p)]
  {
    hide Inv, Linked, Resident;
  }

  lemma SaneFacts(a: View)
    requires Sane(a)
    ensures AllReadable(a.leaf) && KeysLive(a.roots, a.leaf) && a.pages.Keys == a.leaf.Keys
  {
  }

  /** What the machine's own invariant says of its view. */
  lemma Known(m: Machine)
    requires m.Valid()
    ensures OneRootEach(m.roots) && KeysLive(m.roots, m.leaf) && m.Pages().Keys == m.leaf.Keys
  {
    hide Linked, Inv, Resident, KeysLive, OneRootEach;
    RootsDiffer(m);
    KeysOfLive(m.St(), m.roots);
    InvMapped(m.St());
    AllMapped(m.ram, m.leaf);
  }

  lemma AllMapped(ram: map<nat, Page>, leaf: map<Key, Pte>)
    requires Mapped(ram, leaf)
    ensures Resident(ram, leaf).Keys == leaf.Keys
  {
  }

  lemma KeysOfLive(s: State, roots: map<Pid, nat>)
    requires Inv(s) && forall p :: p in roots <==> Root(p) in s.tbl
    ensures KeysLive(roots, s.leaf)
  {
    hide PoolOk, FreeOk, EntriesOk, ShareOk, CountOk;
    forall key | key in s.leaf ensures key.p in roots {
      assert Parent(LowOf(key)) in s.tbl && Parent(Parent(LowOf(key))) == Root(key.p);
    }
  }

  lemma RootsDiffer(m: Machine)
    requires m.Valid()
    ensures OneRootEach(m.roots)
  {
    hide Linked;
    forall p, q | p in m.roots && q in m.roots && m.roots[p] == m.roots[q] ensures p == q {
      assert m.owner[m.tbl[Root(p)]] == Table(Root(p)) && m.owner[m.tbl[Root(q)]] == Table(Root(q));
    }
  }

  // ---- accounting ----

  function Wrap(x: int): Word {
    x % 0x1_0000_0000_0000_0000
  }

  lemma WrapSmall(w: Word)
    ensures Wrap(w) == w
  {
  }

  lemma WrapAgain(x: int, d: int)
    ensures Wrap(Wrap(x) + d) == Wrap(x + d)
  {
    var q, r := x / 0x1_0000_0000_0000_0000, (Wrap(x) + d) / 0x1_0000_0000_0000_0000;
    assert x + d == (q + r) * 0x1_0000_0000_0000_0000 + Wrap(Wrap(x) + d);
  }

  ghost function TotalBytes(swap: map<SwapKey, Swapped>): nat
    decreases |swap|
  {
    if swap == map[] then 0 else
      var k :| k in swap;
      assert (swap - {k}).Keys == swap.Keys - {k};
      |swap[k].data| + TotalBytes(swap - {k})
  }

  lemma {:induction false} TotalWithout(swap: map<SwapKey, Swapped>, k: SwapKey)
    requires k in swap
    ensures TotalBytes(swap) == |swap[k].data| + TotalBytes(swap - {k})
    decreases |swap|
  {
    var c :| c in swap && TotalBytes(swap) == |swap[c].data| + TotalBytes(swap - {c});
    if c != k {
      assert (swap - {c}).Keys == swap.Keys - {c};
      assert (swap - {k}).Keys == swap.Keys - {k};
      TotalWithout(swap - {c}, k);
      TotalWithout(swap - {k}, c);
      assert swap - {c} - {k} == swap - {k} - {c};
    }
  }

  /** The counters agree with the pool, as 64-bit counters do. */
  ghost predicate CountersOk(swap: map<SwapKey, Swapped>, pages: nat, bytes: nat) {
    pages == Wrap(|swap|) && bytes == Wrap(TotalBytes(swap))
  }

  lemma CountersAdd(swap: map<SwapKey, Swapped>, pages: nat, bytes: nat, k: SwapKey, sp: Swapped)
    requires CountersOk(swap, pages, bytes) && k !in swap
    ensures CountersOk(swap[k := sp], Wrap(pages + 1), Wrap(bytes + |sp.data|))
  {
    hide TotalBytes, Wrap;
    TotalWithout(swap[k := sp], k);
    Undo(swap, k, sp);
    SizeLess(swap[k := sp], {k});
    WrapAgain(|swap|, 1);
    WrapAgain(TotalBytes(swap), |sp.data|);
  }

  lemma CountersSub(swap: map<SwapKey, Swapped>, pages: nat, bytes: nat, k: SwapKey)
    requires CountersOk(swap, pages, bytes) && k in swap
    ensures CountersOk(swap - {k}, Wrap(pages - 1), Wrap(bytes - |swap[k].data|))
  {
    hide TotalBytes, Wrap;
    TotalWithout(swap, k);
    SizeLess(swap, {k});
    WrapAgain(|swap|, -1);
    WrapAgain(TotalBytes(swap), -|swap[k].data|);
  }

  lemma Undo<K, V>(m: map<K, V>, k: K, v: V)
    requires k !in m
    ensures m[k := v] - {k} == m
  {
  }

  lemma Redo<K, V>(m: map<K, V>, k: K, v: V)
    ensures (m - {k})[k := v] == m[k := v]
    ensures k in m && m[k] == v ==> m[k := v] == m
  {
  }

  lemma OneReading(swap: map<SwapKey, Swapped>, n: nat, bytes: nat, n': nat, bytes': nat)
    requires CountersOk(swap, n, bytes) && CountersOk(swap, n', bytes')
    ensures n == n' && bytes == bytes'
  {
  }

  lemma SizeLess(swap: map<SwapKey, Swapped>, mine: set<SwapKey>)
    requires mine <= swap.Keys
    ensures |swap - mine| == |swap| - |mine|
  {
    assert (swap - mine).Keys == swap.Keys - mine;
  }

  lemma CountersDrop(swap: map<SwapKey, Swapped>, pages: nat, bytes: nat, mine: set<SwapKey>, freed: nat)
    requires mine <= swap.Keys && freed + TotalBytes(swap - mine) == TotalBytes(swap)
    ensures CountersOk(swap, pages, bytes) ==> CountersOk(swap - mine, Wrap(pages - |mine|), Wrap(bytes - freed))
  {
    hide TotalBytes, Wrap;
    SizeLess(swap, mine);
    WrapAgain(|swap|, -|mine|);
    WrapAgain(TotalBytes(swap), 0 - freed);
  }
}
