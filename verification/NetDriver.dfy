/** `send` and `recv` of src/net/virtio_mmio.rs: who owns which buffer page. */
module NetDriver {
  import opened Words
  import opened Virtqueue

  const VNET_HDR_LEN: nat := 10

  /** Every chain is a single buffer, and no page is in two chains. */
  ghost predicate OnePageEach(bufs: map<nat, seq<Buffer>>) {
    && (forall h :: h in bufs ==> |bufs[h]| == 1)
    && (forall g, h :: g in bufs && h in bufs && bufs[g][0].addr == bufs[h][0].addr ==> g == h)
  }

  /** The pages in a queue's chains. */
  ghost function PagesOf(bufs: map<nat, seq<Buffer>>): set<nat> {
    set h | h in bufs && |bufs[h]| == 1 :: bufs[h][0].addr
  }

  lemma PagesAdd(bufs: map<nat, seq<Buffer>>, h: nat, b: Buffer)
    requires OnePageEach(bufs) && h !in bufs && b.addr !in PagesOf(bufs)
    ensures OnePageEach(bufs[h := [b]]) && PagesOf(bufs[h := [b]]) == PagesOf(bufs) + {b.addr}
  {
    var bufs' := bufs[h := [b]];
    forall g | g in bufs ensures bufs[g][0].addr != b.addr {
      assert bufs[g][0].addr in PagesOf(bufs);
    }
    forall x | x in PagesOf(bufs) ensures x in PagesOf(bufs') {
      var g :| g in bufs && |bufs[g]| == 1 && bufs[g][0].addr == x;
      assert bufs'[g][0].addr == x;
    }
    assert bufs'[h][0].addr in PagesOf(bufs');
  }

  lemma PagesRemove(bufs: map<nat, seq<Buffer>>, h: nat)
    requires OnePageEach(bufs) && h in bufs
    ensures OnePageEach(bufs - {h}) && PagesOf(bufs - {h}) == PagesOf(bufs) - {bufs[h][0].addr}
    ensures bufs[h][0].addr in PagesOf(bufs)
  {
    var bufs' := bufs - {h};
    forall x | x in PagesOf(bufs) - {bufs[h][0].addr} ensures x in PagesOf(bufs') {
      var g :| g in bufs && |bufs[g]| == 1 && bufs[g][0].addr == x;
      assert bufs'[g][0].addr == x;
    }
    forall x | x in PagesOf(bufs') ensures x in PagesOf(bufs) - {bufs[h][0].addr} {
      var g :| g in bufs' && |bufs'[g]| == 1 && bufs'[g][0].addr == x;
      assert bufs[g][0].addr == x && g != h;
    }
  }

  /** The chain at `h` is this page. */
  predicate PageIs(bufs: map<nat, seq<Buffer>>, h: nat, page: nat) {
    h in bufs && |bufs[h]| == 1 && bufs[h][0].addr == page
  }

  /** One more chain is out, a single buffer of this length. */
  ghost predicate Posted(before: map<nat, seq<Buffer>>, after: map<nat, seq<Buffer>>, len: nat, write: bool) {
    exists h: nat, page: nat :: h !in before && after == before[h := [Buffer(page, len, write)]]
  }

  /** The page is in a chain offered to the device, which may write to it at any time. */
  ghost predicate DeviceOwns(bufs: map<nat, seq<Buffer>>, stage: map<nat, Stage>, page: nat) {
    exists h :: PageIs(bufs, h, page) && h in stage && stage[h] == Offered
  }

  lemma OwnsIs(bufs: map<nat, seq<Buffer>>, stage: map<nat, Stage>, h: nat, page: nat)
    requires PageIs(bufs, h, page) && h in stage && stage[h] == Offered
    ensures DeviceOwns(bufs, stage, page)
  {
  }

  lemma PostedIs(before: map<nat, seq<Buffer>>, h: nat, page: nat, len: nat, write: bool)
    requires h !in before
    ensures Posted(before, before[h := [Buffer(page, len, write)]], len, write)
  {
  }

  class VirtioDriver {
    const tx: VirtQueue
    const rx: VirtQueue
    /** Pages the allocator has. */
    var pool: set<nat>

    ghost predicate Valid()
      reads this, tx, rx
    {
      && tx != rx && tx.Valid() && rx.Valid()
      && OnePageEach(tx.bufs) && OnePageEach(rx.bufs)
      && pool !! PagesOf(tx.bufs) && pool !! PagesOf(rx.bufs) && PagesOf(tx.bufs) !! PagesOf(rx.bufs)
      && (forall h :: h in tx.stage ==> tx.stage[h] != Popped) && (forall h :: h in rx.stage ==> rx.stage[h] != Popped)
    }

    constructor (size: nat, pool: set<nat>)
      requires SizeOk(size)
      ensures Valid() && this.pool == pool && tx.bufs == map[] && rx.bufs == map[] && fresh(tx) && fresh(rx)
      ensures |rx.free| == |tx.free| == size
    {
      tx := new VirtQueue(size);
      rx := new VirtQueue(size);
      this.pool := pool;
      new;
      hide VirtQueue.Valid;
      KeysAgree(tx);
      KeysAgree(rx);
    }

    /** The receive queue is filled at start: one page a buffer. */
    method Prefill(count: nat) returns (posted: nat)
      requires Valid() && |rx.free| >= count
      modifies this`pool, rx`desc, rx`free, rx`availRing, rx`availIdx, rx`chains, rx`bufs, rx`stage, rx`offered
      ensures Valid() && posted <= count && (posted < count ==> pool == {})
      ensures pool + PagesOf(rx.bufs) == old(pool) + old(PagesOf(rx.bufs)) && tx.bufs == old(tx.bufs)
    {
      hide Partition, AllSpelled, AvailOk, UsedOk, OnePageEach, PagesOf, VirtQueue.Valid;
      posted := 0;
      var i := 0;
      while i < count
        invariant 0 <= posted <= i <= count && Valid() && |rx.free| >= count - posted && (posted < i ==> pool == {})
        invariant pool + PagesOf(rx.bufs) == old(pool) + old(PagesOf(rx.bufs)) && tx.bufs == old(tx.bufs)
      {
        if pool != {} {
          var pa :| pa in pool;
          ghost var bufs := rx.bufs;
          KeysAgree(rx);
          var r := rx.EnqueueChain([Buffer(pa, 4096, true)]);
          PagesAdd(bufs, r.value, Buffer(pa, 4096, true));
          pool := pool - {pa};
          posted := posted + 1;
        }
        i := i + 1;
      }
    }

    /** Gives back one completed transmission: its descriptor and its page. */
    method Reclaim(id: nat) returns (page: nat)
      requires tx.Valid() && OnePageEach(tx.bufs) && id in tx.stage && tx.stage[id] == Popped
      requires pool !! PagesOf(tx.bufs)
      modifies this`pool, tx`free, tx`chains, tx`bufs, tx`stage
      ensures tx.Valid() && OnePageEach(tx.bufs) && tx.stage == old(tx.stage) - {id} && tx.bufs == old(tx.bufs) - {id}
      ensures page in old(PagesOf(tx.bufs)) && PagesOf(tx.bufs) == old(PagesOf(tx.bufs)) - {page}
      ensures pool == old(pool) + {page}
      ensures page !in old(pool)
    {
      hide Partition, AllSpelled, AvailOk, UsedOk, OnePageEach, PagesOf;
      KeysAgree(tx);
      OneBuffer(tx.bufs, id);
      PagesRemove(tx.bufs, id);
      var parts := tx.ReadChain(id);
      var _ := tx.FreeChain(id);
      page := parts[0].0;
      pool := pool + {page};
    }

    /** Every completed transmission is given back, its page once. */
    method ReclaimAll() returns (freed: seq<nat>)
      requires Valid()
      modifies this`pool, tx`free, tx`chains, tx`bufs, tx`stage, tx`lastUsed, tx`popped
      ensures Valid() && |freed| == |tx.used| - old(tx.popped) && NoDup(freed)
      ensures Elements(freed) <= old(PagesOf(tx.bufs)) && Elements(freed) !! old(pool)
      ensures PagesOf(tx.bufs) == old(PagesOf(tx.bufs)) - Elements(freed) && pool == old(pool) + Elements(freed)
      ensures rx.bufs == old(rx.bufs)
    {
      hide Partition, AllSpelled, AvailOk, UsedOk, OnePageEach, PagesOf, VirtQueue.Valid, Lists, NoDup;
      ghost var pages0, pool0, stage0 := PagesOf(tx.bufs), pool, tx.stage;
      DoneDistinct(tx);
      var done := tx.PopUsed();
      PoppedNow(stage0, tx.stage, Ids(done));
      freed := [];
      var i := 0;
      assert done[0..] == done;
      NothingFreed();
      while i < |done|
        invariant 0 <= i <= |done| && |freed| == i && tx.Valid() && OnePageEach(tx.bufs)
        invariant Lists(Ids(done[i..]), tx.stage, Popped)
        invariant Elements(freed) <= pages0 && Elements(freed) !! pool0 && NoDup(freed)
        invariant PagesOf(tx.bufs) == pages0 - Elements(freed) && pool == pool0 + Elements(freed)
      {
        HeadListed(Ids(done[i..]), tx.stage, Popped);
        assert Ids(done[i..])[1..] == Ids(done[i + 1..]);
        ListsDrop(Ids(done[i..]), tx.stage, Popped);
        var page := Reclaim(done[i].id);
        OneMoreFreed(freed, page);
        freed := freed + [page];
        i := i + 1;
      }
      AllDropped(Ids(done[i..]), tx.stage, Popped);
    }

    /** A packet goes out in a page of its own, or, with no page or descriptor to spare, is dropped. */
    method Submit(length: nat) returns (sent: bool)
      requires Valid()
      modifies this`pool, tx`desc, tx`free, tx`availRing, tx`availIdx, tx`chains, tx`bufs, tx`stage, tx`offered
      ensures Valid() && rx.bufs == old(rx.bufs)
      ensures sent <==> VNET_HDR_LEN + length <= 4096 && old(pool) != {} && old(tx.free) != []
      ensures !sent ==> pool == old(pool) && PagesOf(tx.bufs) == old(PagesOf(tx.bufs))
      ensures sent ==> exists page ::
        page in old(pool) && pool == old(pool) - {page} && PagesOf(tx.bufs) == old(PagesOf(tx.bufs)) + {page}
      ensures sent ==>
        Posted(old(tx.bufs), tx.bufs, VNET_HDR_LEN + length, false) && |tx.offered| == |old(tx.offered)| + 1
    {
      hide Partition, AllSpelled, AvailOk, UsedOk, OnePageEach, PagesOf, VirtQueue.Valid, Posted;
      if VNET_HDR_LEN + length > 4096 {
        return false;
      }
      if pool == {} {
        return false;
      }
      var pa :| pa in pool;
      KeysAgree(tx);
      var r := tx.EnqueueChain([Buffer(pa, VNET_HDR_LEN + length, false)]);
      if r.None? {
        return false;
      }
      PagesAdd(old(tx.bufs), r.value, Buffer(pa, VNET_HDR_LEN + length, false));
      PostedIs(old(tx.bufs), r.value, pa, VNET_HDR_LEN + length, false);
      pool := pool - {pa};
      return true;
    }

    /** `send`. No page is lost, shared, or given back twice. */
    method Send(length: nat) returns (freed: seq<nat>, sent: bool)
      requires Valid()
      modifies this`pool, tx`desc, tx`free, tx`availRing, tx`availIdx, tx`chains, tx`bufs, tx`stage, tx`offered,
        tx`lastUsed, tx`popped
      ensures Valid() && |freed| == |tx.used| - old(tx.popped) && NoDup(freed) && rx.bufs == old(rx.bufs)
      ensures Elements(freed) <= old(PagesOf(tx.bufs)) && Elements(freed) !! old(pool)
      ensures pool + PagesOf(tx.bufs) == old(pool) + old(PagesOf(tx.bufs))
    {
      hide OnePageEach, PagesOf, VirtQueue.Valid, VirtioDriver.Valid, NoDup;
      freed := ReclaimAll();
      sent := Submit(length);
    }

    /** `recv`: takes one completed receive and posts its page again at once, so the set of posted pages never
        changes, and by the time the caller copies the packet the page is the device's again. */
    method Recv() returns (r: Option<(nat, nat)>)
      requires Valid()
      modifies rx`desc, rx`free, rx`availRing, rx`availIdx, rx`chains, rx`bufs, rx`stage, rx`offered, rx`lastUsed,
        rx`popped
      ensures Valid() && PagesOf(rx.bufs) == old(PagesOf(rx.bufs)) && tx.bufs == old(tx.bufs)
      ensures r.None? <==> old(rx.popped) == |rx.used|
      ensures r.Some? ==> r.value.0 in PagesOf(rx.bufs) && r.value.1 == rx.used[old(rx.popped)].len
      ensures r.Some? ==> DeviceOwns(rx.bufs, rx.stage, r.value.0)
      ensures r.Some? ==> PageIs(old(rx.bufs), rx.used[old(rx.popped)].id, r.value.0)
      ensures r.Some? ==> Posted(old(rx.bufs) - {rx.used[old(rx.popped)].id}, rx.bufs, 4096, true)
    {
      hide Partition, AllSpelled, AvailOk, UsedOk, OnePageEach, PagesOf, VirtQueue.Valid, DeviceOwns;
      KeysAgree(rx);
      var e := rx.PopOneUsed();
      if e.None? {
        return None;
      }
      var pa := Repost(e.value.id);
      return Some((pa, e.value.len));
    }

    /** The page of a popped receive goes back to the device in a new chain. */
    method Repost(id: nat) returns (pa: nat)
      requires rx.Valid() && OnePageEach(rx.bufs) && id in rx.stage && rx.stage[id] == Popped
      requires (forall h :: h in rx.stage && h != id ==> rx.stage[h] != Popped)
      modifies rx`desc, rx`free, rx`availRing, rx`availIdx, rx`chains, rx`bufs, rx`stage, rx`offered
      ensures rx.Valid() && OnePageEach(rx.bufs) && PagesOf(rx.bufs) == old(PagesOf(rx.bufs)) && pa in PagesOf(rx.bufs)
      ensures forall h :: h in rx.stage ==> rx.stage[h] != Popped
      ensures DeviceOwns(rx.bufs, rx.stage, pa)
      ensures PageIs(old(rx.bufs), id, pa) && Posted(old(rx.bufs) - {id}, rx.bufs, 4096, true)
    {
      hide OnePageEach, PagesOf, VirtQueue.Valid, Popping, Posted, DeviceOwns;
      KeysAgree(rx);
      HeadDesc(rx, id);
      pa := rx.desc[id].addr;
      ghost var bufs := rx.bufs;
      OneBuffer(bufs, id);
      PagesRemove(bufs, id);
      var freed := rx.FreeChain(id);
      KeysAgree(rx);
      var again := rx.EnqueueChain([Buffer(pa, 4096, true)]);
      PagesAdd(bufs - {id}, again.value, Buffer(pa, 4096, true));
      PostedIs(bufs - {id}, again.value, pa, 4096, true);
      OwnsIs(rx.bufs, rx.stage, again.value, pa);
    }
  }

  function Elements(q: seq<nat>): set<nat> {
    set x | x in q
  }

  lemma NothingFreed()
    ensures Elements([]) == {} && NoDup([])
  {
  }

  lemma OneMoreFreed(q: seq<nat>, x: nat)
    requires NoDup(q) && x !in Elements(q)
    ensures NoDup(q + [x]) && Elements(q + [x]) == Elements(q) + {x}
  {
  }

  lemma HeadListed(q: seq<nat>, stage: map<nat, Stage>, st: Stage)
    requires Lists(q, stage, st) && q != []
    ensures q[0] in stage && stage[q[0]] == st
  {
    assert q[0] in q;
  }

  lemma ListsDrop(q: seq<nat>, stage: map<nat, Stage>, st: Stage)
    requires Lists(q, stage, st) && q != []
    ensures Lists(q[1..], stage - {q[0]}, st)
  {
    forall h: nat ensures h in q[1..] <==> h in q && h != q[0] {
      if h in q && h != q[0] {
        var k :| 0 <= k < |q| && q[k] == h;
        assert q[1..][k - 1] == h;
      }
    }
  }

  lemma AllDropped(q: seq<nat>, stage: map<nat, Stage>, st: Stage)
    requires Lists(q, stage, st) && q == []
    ensures forall h :: h in stage ==> stage[h] != st
  {
    forall h | h in stage ensures stage[h] != st {
      assert h !in q;
    }
  }

  lemma DoneDistinct(q: VirtQueue)
    requires q.Valid()
    ensures q.popped <= |q.used| && Lists(Ids(q.used[q.popped..]), q.stage, Done)
  {
  }

  lemma PoppedNow(before: map<nat, Stage>, after: map<nat, Stage>, ids: seq<nat>)
    requires Lists(ids, before, Done) && after.Keys == before.Keys && (forall h :: h in before ==> before[h] != Popped)
    requires forall h :: h in after ==> after[h] == if h in ids then Popped else before[h]
    ensures Lists(ids, after, Popped)
  {
  }

  /** The descriptor at a chain's head holds its first buffer. */
  lemma HeadDesc(q: VirtQueue, h: nat)
    requires q.Valid() && h in q.chains
    ensures |q.chains[h]| > 0 && h in q.bufs && |q.bufs[h]| > 0 && h < |q.desc| && q.desc[h].addr == q.bufs[h][0].addr
  {
    hide AvailOk, UsedOk;
    ChainStarts(q.size, q.free, q.chains, h);
    assert Spells(q.desc, q.chains[h], q.bufs[h]);
  }

  lemma KeysAgree(q: VirtQueue)
    requires q.Valid()
    ensures q.stage.Keys == q.chains.Keys == q.bufs.Keys
  {
  }

  lemma OneBuffer(bufs: map<nat, seq<Buffer>>, h: nat)
    requires OnePageEach(bufs) && h in bufs
    ensures |bufs[h]| == 1
  {
  }
}
