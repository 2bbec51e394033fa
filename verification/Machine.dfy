/** The kernel's memory-management globals as one object: physical memory, the free-list head and the
    reference counts (src/mm/pmm.rs), the processes' root tables, and the swap pool (src/mm/swap.rs).
    The ghost fields say what every frame is for. */
module Machines {
  import opened Words
  import opened Sv39
  import opened Memory
  import opened MemorySteps

  datatype SwapKey = SwapKey(root: nat, v: Vpn)

  /** A page in the pool: its compressed bytes and its entry's flags. */
  datatype Swapped = Swapped(data: seq<Byte>, flags: Flags)

  function NextFree(free: seq<nat>, i: nat): nat {
    if i + 1 < |free| then free[i + 1] else 0
  }

  /** Each free frame's first word is the physical address of the next, zero at the end. */
  ghost predicate Linked(ram: map<nat, Page>, free: seq<nat>) {
    && NoDup(free)
    && (forall i :: 0 <= i < |free| ==> free[i] in ram && 0 < free[i] < MAX_PPN)
    && (forall i :: 0 <= i < |free| ==>
         NextFree(free, i) < MAX_PPN && ram[free[i]] == FreedPage(NextFree(free, i) * 4096))
  }

  class Machine {
    /** The words of every RAM frame, by frame number. */
    var ram: map<nat, Page>
    /** `FREE_LIST`: the physical address of the first free page, zero when there is none. */
    var head: nat
    /** `PAGE_REF_COUNTS` */
    var counts: map<nat, nat>
    /** `KERNEL_ROOT_ENTRIES` */
    const kernel: seq<Word>
    /** Each process's root table (the page number in its `satp_val`). */
    var roots: map<Pid, nat>
    /** `SWAP_MAP`, `SWAP_TOTAL_PAGES` and `SWAP_TOTAL_BYTES` */
    var swap: map<SwapKey, Swapped>
    var swapPages: Word
    var swapBytes: Word

    ghost var free: seq<nat>
    ghost var owner: map<nat, Owner>
    ghost var tbl: map<Node, nat>
    ghost var leaf: map<Key, Pte>
    ghost var held: multiset<nat>

    ghost function St(): State
      reads `ram, `counts, `free, `owner, `tbl, `leaf, `held
    {
      State(kernel, ram, counts, free, owner, tbl, leaf, held)
    }

    ghost predicate ListOk()
      reads `ram, `head, `free
    {
      Linked(ram, free) && head == Head(free) * 4096
    }

    ghost predicate Valid()
      reads `ram, `counts, `free, `owner, `tbl, `leaf, `held, `head, `roots
    {
      && ListOk() && Inv(St())
      && (forall p :: p in roots <==> Root(p) in tbl)
      && (forall p :: p in roots ==> roots[p] == tbl[Root(p)])
    }

    /** The contents of the mapped user pages. */
    ghost function Pages(): map<Key, Page>
      reads `ram, `leaf
    {
      Resident(ram, leaf)
    }

    /** Record what the frames are now for. */
    ghost method Settle(t: State)
      requires t.kernel == kernel && t.ram == ram && t.counts == counts && t.free == free
      modifies this`owner, this`tbl, this`leaf, this`held
      ensures St() == t
    {
      owner, tbl, leaf, held := t.owner, t.tbl, t.leaf, t.held;
    }

    /** RAM as the loader leaves it: nothing allocated, every frame still reserved. */
    constructor (ram: map<nat, Page>, kernel: seq<Word>)
      requires |kernel| == 4 && (forall f :: f in ram ==> 0 < f < MAX_PPN)
      ensures Valid() && this.ram == ram && this.kernel == kernel && roots == map[] && swap == map[]
      ensures free == [] && tbl == map[] && leaf == map[] && held == multiset{} && swapPages == swapBytes == 0
      ensures forall f :: f in owner ==> owner[f] == Reserved
    {
      this.ram, head, this.kernel := ram, 0, kernel;
      counts := map f | f in ram :: 0;
      roots, swap, swapPages, swapBytes := map[], map[], 0, 0;
      free, tbl, leaf, held := [], map[], map[], multiset{};
      owner := map f | f in ram :: Reserved;
      new;
      hide Inv;
      BootInv(St());
    }
  }
}
