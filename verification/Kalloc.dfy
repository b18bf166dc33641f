/**
  The physical page allocator `kernel/kalloc.c`: a free list threaded through the free
  pages themselves.
 */
module Kalloc {
  import opened Riscv

  type byte = x: int | 0 <= x < 256

  /** What a page is used for: a link of the free list, 512 page-table entries, or bytes. */
  datatype Page = FreePage(next: nat) | Table(ptes: seq<nat>) | Data(bytes: seq<byte>)

  /** A page filled by memset with one byte value. */
  function Filled(b: byte): (p: Page)
    ensures p.Data? && |p.bytes| == PGSIZE && forall i :: 0 <= i < PGSIZE ==> p.bytes[i] == b
  {
    Data(seq(PGSIZE, _ => b))
  }

  /** A page filled with zeroes and used as a page table. */
  function EmptyTable(): (p: Page)
    ensures p.Table? && |p.ptes| == 512 && forall i :: 0 <= i < 512 ==> p.ptes[i] == 0
  {
    Table(seq(512, _ => 0))
  }

  /** The pages the allocator manages: aligned, from the end of the kernel up to PHYSTOP. */
  predicate IsPage(kend: nat, pa: nat) {
    pa % 4096 == 0 && kend <= pa < PHYSTOP
  }

  /** The links starting at `head` run through `list` and end with a null pointer. */
  ghost predicate Chain(mem: map<nat, Page>, head: nat, list: seq<nat>)
    decreases |list|
  {
    if list == [] then head == 0
    else head == list[0] && head != 0 && head in mem && mem[head].FreePage? && Chain(mem, mem[head].next, list[1..])
  }

  lemma {:induction false} ChainFrame(mem: map<nat, Page>, mem': map<nat, Page>, head: nat, list: seq<nat>)
    requires Chain(mem, head, list)
    requires forall p :: p in list ==> p in mem' && (p in mem ==> mem'[p] == mem[p])
    ensures Chain(mem', head, list)
    decreases |list|
  {
    if list != [] {
      assert head in list;
      assert forall p :: p in list[1..] ==> p in list;
      ChainFrame(mem, mem', mem[head].next, list[1..]);
    }
  }

  /** The free list: linked, without repetition, and made of managed pages. */
  ghost predicate FreeList(kend: nat, mem: map<nat, Page>, head: nat, free: seq<nat>) {
    && kend > 0
    && (forall pa :: IsPage(kend, pa) <==> pa in mem)
    && Chain(mem, head, free)
    && (forall p :: p in free ==> IsPage(kend, p))
    && (forall i, j :: 0 <= i < j < |free| ==> free[i] != free[j])
  }

  /** Pushing a page that is not on the list. */
  lemma PushFree(kend: nat, mem: map<nat, Page>, head: nat, free: seq<nat>, pa: nat)
    requires FreeList(kend, mem, head, free) && IsPage(kend, pa) && pa !in free
    ensures FreeList(kend, mem[pa := FreePage(head)], pa, [pa] + free)
  {
    var mem' := mem[pa := FreePage(head)];
    ChainFrame(mem, mem', head, free);
    assert ([pa] + free)[1..] == free;
  }

  /** Popping the first page and overwriting it. */
  lemma PopFree(kend: nat, mem: map<nat, Page>, head: nat, free: seq<nat>, page: Page)
    requires FreeList(kend, mem, head, free) && free != []
    ensures head == free[0] && head in mem && mem[head].FreePage? && head !in free[1..]
    ensures FreeList(kend, mem[head := page], mem[head].next, free[1..])
  {
    assert forall p :: p in free[1..] ==> p in free;
    ChainFrame(mem, mem[head := page], mem[head].next, free[1..]);
  }

  /** A write to a page that is not free leaves the free list alone. */
  lemma WriteUsed(kend: nat, mem: map<nat, Page>, head: nat, free: seq<nat>, pa: nat, page: Page)
    requires FreeList(kend, mem, head, free) && IsPage(kend, pa) && pa !in free
    ensures FreeList(kend, mem[pa := page], head, free)
  {
    ChainFrame(mem, mem[pa := page], head, free);
  }

  class Kmem {
    const kend: nat
    var mem: map<nat, Page>
    var freelist: nat
    ghost var free: seq<nat>

    ghost predicate Valid()
      reads this
    {
      FreeList(kend, mem, freelist, free)
    }

    /** Free one page.  The caller must own it: it is a managed page and not on the list. */
    method Kfree(pa: nat)
      requires Valid() && IsPage(kend, pa) && pa !in free     // otherwise: panic "kfree", or a page freed twice
      modifies this
      ensures Valid()
      ensures free == [pa] + old(free)
      ensures mem == old(mem)[pa := FreePage(old(freelist))]
    {
      PushFree(kend, mem, freelist, free, pa);
      mem := mem[pa := Filled(1)];
      mem := mem[pa := FreePage(freelist)];
      assert mem == old(mem)[pa := FreePage(freelist)];
      freelist := pa;
      free := [pa] + free;
    }

    /** Allocate one page, filled with junk; 0 when there is none. */
    method Kalloc() returns (r: nat)
      requires Valid()
      modifies this
      ensures Valid()
      ensures r == 0 <==> old(free) == []
      ensures r == 0 ==> mem == old(mem) && free == old(free) && freelist == old(freelist)
      ensures r != 0 ==> r == old(free)[0] && IsPage(kend, r) && r !in free
      ensures r != 0 ==> free == old(free)[1..] && mem == old(mem)[r := Filled(5)]
    {
      r := freelist;
      if r != 0 {
        PopFree(kend, mem, freelist, free, Filled(5));
        freelist := mem[r].next;
        free := free[1..];
        mem := mem[r := Filled(5)];
      }
    }

    /** Free every whole page between two addresses. */
    method Freerange(start: nat, stop: nat)
      requires Valid() && kend <= start && stop <= PHYSTOP
      requires forall p :: p in free ==> !(start <= p && p + PGSIZE <= stop)
      modifies this
      ensures Valid()
      ensures forall p: nat :: p in free <==> p in old(free) || (IsPage(kend, p) && start <= p && p + PGSIZE <= stop)
    {
      hide FreeList;
      var p := PGROUNDUP(start);
      while p + PGSIZE <= stop
        invariant Valid() && p % 4096 == 0 && start <= p
        invariant forall q: nat :: q in free <==>
                q in old(free) || (IsPage(kend, q) && start <= q < p && q + PGSIZE <= stop)
        decreases stop - p
      {
        Kfree(p);
        p := p + PGSIZE;
      }
    }
  }
}
