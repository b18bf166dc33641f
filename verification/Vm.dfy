/**
  Address spaces, `kernel/vm.c`: walking and changing Sv39 trees, growing, shrinking,
  freeing and copying user memory, with every physical page accounted for.
 */
module Vm {
  import opened Riscv
  import opened Kalloc
  import opened PageTable
  import opened Freewalk

  /** From `owner` to `owner'`, free pages may have become tables of `root`, and nothing else has changed hands. */
  ghost predicate TookTables(owner: map<nat, Owner>, owner': map<nat, Owner>, root: nat) {
    && owner'.Keys == owner.Keys
    && forall p :: p in owner ==>
         owner'[p] == owner[p] || (owner[p] == Free && owner'[p].TableOf? && owner'[p].root == root)
  }

  /** The contents of the pages in use for data are as before. */
  ghost predicate DataKept(mem: Mem, mem': Mem, owner: map<nat, Owner>) {
    forall p :: p in owner && (owner[p] == Held || owner[p].LeafOf?) && p in mem ==> p in mem' && mem'[p] == mem[p]
  }

  lemma TookTrans(o0: map<nat, Owner>, o1: map<nat, Owner>, o2: map<nat, Owner>, root: nat)
    requires TookTables(o0, o1, root) && TookTables(o1, o2, root)
    ensures TookTables(o0, o2, root)
  {
  }

  lemma SameLeavesTrans(m0: Mem, m1: Mem, m2: Mem, roots: set<nat>)
    requires SameLeaves(m0, m1, roots) && SameLeaves(m1, m2, roots)
    ensures SameLeaves(m0, m2, roots)
  {
  }

  lemma DataKeptTrans(m0: Mem, m1: Mem, m2: Mem, o0: map<nat, Owner>, o1: map<nat, Owner>, root: nat)
    requires DataKept(m0, m1, o0) && DataKept(m1, m2, o1) && TookTables(o0, o1, root)
    ensures DataKept(m0, m2, o0)
  {
  }

  class Spaces {
    const k: Kmem
    ghost var owner: map<nat, Owner>
    ghost var roots: set<nat>

    /** All of physical memory is in order. */
    ghost predicate Valid()
      reads this, k
    {
      World(k.kend, k.mem, k.freelist, k.free, owner, roots)
    }

    /** At boot there is no tree; pages not on the free list are in the kernel's hands. */
    constructor (kmem: Kmem)
      requires kmem.Valid()
      ensures Valid() && k == kmem && roots == {}
    {
      k := kmem;
      owner := map p | p in kmem.mem :: if p in kmem.free then Free else Held;
      roots := {};
    }

    /** kalloc, with the page noted as held. */
    method GetPage() returns (pa: nat)
      requires Valid()
      modifies k, this`owner
      ensures Valid()
      ensures pa == 0 <==> old(k.free) == []
      ensures pa == 0 ==> k.mem == old(k.mem) && k.free == old(k.free) && owner == old(owner)
      ensures pa != 0 ==>
                && k.free == old(k.free)[1..] && k.mem == old(k.mem)[pa := Filled(5)]
                && pa in old(owner) && old(owner)[pa] == Free && owner == old(owner)[pa := Held]
                && IsPage(k.kend, pa)
      ensures SameTrees(old(k.mem), k.mem, roots)
    {
      hide FreeList, TreesOk, TablesPlaced, LeavesPlaced, SameTrees;
      FreePages(k.kend, k.mem, k.freelist, k.free);
      SameTreesRefl(k.mem, roots);
      pa := k.Kalloc();
      if pa != 0 {
        ChangePage(old(k.mem), owner, roots, pa, Filled(5), Held);
        owner := owner[pa := Held];
        Popped(old(k.free), pa);
      }
    }

    /** kfree of a page that is held, or mapped by its owner. */
    method PutPage(pa: nat)
      requires Valid() && pa in owner && (owner[pa] == Held || owner[pa].LeafOf?)
      modifies k, this`owner
      ensures Valid()
      ensures k.free == [pa] + old(k.free) && owner == old(owner)[pa := Free]
      ensures k.mem == old(k.mem)[pa := FreePage(old(k.freelist))]
      ensures SameTrees(old(k.mem), k.mem, roots)
    {
      hide FreeList, TreesOk, TablesPlaced, LeavesPlaced, SameTrees;
      FreePages(k.kend, k.mem, k.freelist, k.free);
      k.Kfree(pa);
      ChangePage(old(k.mem), owner, roots, pa, FreePage(old(k.freelist)), Free);
      owner := owner[pa := Free];
    }

    /** memset or memmove over a held page. */
    method FillPage(pa: nat, page: Page)
      requires Valid() && pa in owner && owner[pa] == Held
      modifies k`mem
      ensures Valid() && k.mem == old(k.mem)[pa := page]
      ensures SameTrees(old(k.mem), k.mem, roots)
    {
      hide TreesOk, TablesPlaced, LeavesPlaced, SameTrees;
      ChangePage(k.mem, owner, roots, pa, page, Held);
      assert owner[pa := Held] == owner;
      WriteUsed(k.kend, k.mem, k.freelist, k.free, pa, page);
      k.mem := k.mem[pa := page];
    }

    /** The part of walk that creates a page-table page and hangs it into the tree. */
    method AddTable(ghost root: nat, ghost level: nat, ghost key: nat, t: nat, i: nat) returns (p: nat)
      requires Valid() && root in roots && Room(k.mem, root, level, key)
      requires t == TableAt(k.mem, root, level + 1, key / 512) && i == key % 512
      modifies k, this`owner
      ensures Valid()
      ensures p == 0 <==> old(k.free) == []
      ensures p == 0 ==> k.mem == old(k.mem) && k.free == old(k.free) && owner == old(owner)
      ensures p != 0 ==> k.free == old(k.free)[1..] && TableAt(k.mem, root, level, key) == p
      ensures SameLeaves(old(k.mem), k.mem, roots)
      ensures TookTables(old(owner), owner, root) && DataKept(old(k.mem), k.mem, old(owner))
    {
      hide FreeList, TreesOk, TablesPlaced, LeavesPlaced, SameTrees, SameLeaves, TableAt, EmptyTable, MakePte, Pointers;
      SameTreesRefl(k.mem, roots);
      LeavesOfTrees(k.mem, k.mem, roots);
      p := GetPage();
      if p == 0 {
        return;
      }
      ghost var m1 := k.mem;
      FillPage(p, EmptyTable());
      ghost var m2 := k.mem;
      LeavesOfTrees(old(k.mem), m1, roots);
      LeavesOfTrees(m1, m2, roots);
      RoomKept(old(k.mem), m1, m2, roots, root, level, key);
      InRoots(m2, owner, roots, root, level + 1, key / 512);
      NewTable(m2, owner, roots, root, level, key, p);
      HeldPage(k.kend, m2, k.freelist, k.free, t);
      WriteUsed(k.kend, m2, k.freelist, k.free, t, Table(m2[t].ptes[key % 512 := MakePte(p, PTE_V)]));
      k.mem := SetPte(k.mem, t, i, MakePte(p, PTE_V));
      owner := owner[p := TableOf(root, level, key)];
      SameLeavesTrans(old(k.mem), m1, m2, roots);
      SameLeavesTrans(old(k.mem), m2, k.mem, roots);
    }

    /** The address of the entry for `va`: a lowest-level table and an index, creating tables if `alloc`. */
    method Walk(root: nat, va: nat, alloc: bool) returns (ok: bool, t: nat, i: nat)
      requires Valid() && root in roots
      requires va < MAXVA       // otherwise: panic "walk"
      modifies k, this`owner
      ensures Valid()
      ensures SameLeaves(old(k.mem), k.mem, roots)
      ensures ok <==> TableAt(k.mem, root, 0, va / 4096 / 512) != 0
      ensures ok ==> t == TableAt(k.mem, root, 0, va / 4096 / 512) && i == va / 4096 % 512
      ensures ok ==> IsTable(k.mem, t) && Leaf(k.mem, root, va / 4096) == Pte(k.mem, t, i)
      ensures !ok && alloc ==> k.free == []
      ensures !alloc ==> k.mem == old(k.mem) && k.free == old(k.free) && owner == old(owner)
      ensures TookTables(old(owner), owner, root) && DataKept(old(k.mem), k.mem, old(owner))
    {
      hide FreeList, TreesOk, TablesPlaced, LeavesPlaced, SameTrees, SameLeaves, PX, Key, Accounted;
      ghost var vpn := va / 4096;
      WalkIndices(va);
      SameTreesRefl(k.mem, roots);
      LeavesOfTrees(k.mem, k.mem, roots);
      var pagetable, level := root, 2;
      RootTable(k.mem, owner, roots, root, vpn);
      while level > 0
        invariant 0 <= level <= 2 && Valid() && pagetable == TableAt(k.mem, root, level, Key(level, vpn)) != 0
        invariant SameLeaves(old(k.mem), k.mem, roots)
        invariant !alloc ==> k.mem == old(k.mem) && k.free == old(k.free) && owner == old(owner)
        invariant TookTables(old(owner), owner, root) && DataKept(old(k.mem), k.mem, old(owner))
      {
        KeyStep(va, level);
        InRoots(k.mem, owner, roots, root, level, Key(level, vpn));
        var idx := PX(level, va);
        var pte := Pte(k.mem, pagetable, idx);
        if Ok(pte) {
          ChildTable(k.kend, k.mem, k.freelist, k.free, owner, roots, root, level, Key(level - 1, vpn));
          pagetable := PTE2PA(pte);
        } else {
          if !alloc {
            NoTableBelow(k.mem, root, level - 1, vpn);
            return false, 0, 0;
          }
          ghost var m1, o1 := k.mem, owner;
          pagetable := AddTable(root, level - 1, Key(level - 1, vpn), pagetable, idx);
          SameLeavesTrans(old(k.mem), m1, k.mem, roots);
          DataKeptTrans(old(k.mem), m1, k.mem, old(owner), o1, root);
          TookTrans(old(owner), o1, owner, root);
          if pagetable == 0 {
            NoTableBelow(k.mem, root, level - 1, vpn);
            return false, 0, 0;
          }
        }
        level := level - 1;
      }
      KeyOfLeaf(vpn);
      InRoots(k.mem, owner, roots, root, 0, Key(0, vpn));
      return true, pagetable, PX(0, va);
    }

    /** walkaddr: the physical address of a user page, 0 if there is none. */
    method Walkaddr(root: nat, va: nat) returns (pa: nat)
      requires Valid() && root in roots
      modifies k, this`owner
      ensures k.mem == old(k.mem) && k.free == old(k.free) && owner == old(owner) && Valid()
      ensures pa == UserPa(k.mem, root, va / 4096)
      ensures var e := Leaf(k.mem, root, va / 4096);
              pa == if va < MAXVA && e % 2 == 1 && e / 16 % 2 == 1 then e / 1024 * 4096 else 0
    {
      hide World;
      if va >= MAXVA {
        return 0;
      }
      var ok, t, i := Walk(root, va, false);
      if !ok {
        return 0;
      }
      var pte := Pte(k.mem, t, i);
      if !Ok(pte) || !Has(pte, PTE_U) {
        return 0;
      }
      return PTE2PA(pte);
    }

    /** Store an entry in the place that walk found. */
    method StorePte(ghost root: nat, ghost vpn: nat, t: nat, i: nat, pte: nat)
      requires Valid() && root in roots && vpn < MAXVPN
      requires t == TableAt(k.mem, root, 0, vpn / 512) != 0 && i == vpn % 512
      requires forall p :: p in owner ==> owner[p] != LeafOf(root, vpn)
      modifies k`mem
      ensures Valid()
      ensures forall r, v :: r in roots && 0 <= v < MAXVPN ==>
                Leaf(k.mem, r, v) == if r == root && v == vpn then pte else Leaf(old(k.mem), r, v)
      ensures DataKept(old(k.mem), k.mem, owner)
    {
      hide FreeList, TreesOk, TablesPlaced, LeavesPlaced, TableAt, Leaf;
      InRoots(k.mem, owner, roots, root, 0, vpn / 512);
      SetLeaf(k.mem, owner, roots, root, vpn, pte);
      HeldPage(k.kend, k.mem, k.freelist, k.free, t);
      WriteUsed(k.kend, k.mem, k.freelist, k.free, t, Table(k.mem[t].ptes[i := pte]));
      k.mem := SetPte(k.mem, t, i, pte);
    }

    /**
      Map the pages from `va` on to the physical pages from `pa` on.  Returns -1 if a table could
      not be allocated; `n` is the number of pages mapped, all of them on success.
     */
    method Mappages(root: nat, va: nat, size: nat, pa: nat, perm: nat) returns (r: int, ghost n: nat)
      requires Valid() && root in roots
      requires size > 0 && va + size <= MAXVA && perm < 1024      // otherwise: panic "mappages: size"
      // otherwise: panic "mappages: remap"
      requires forall v :: va / 4096 <= v <= (va + size - 1) / 4096 ==> !Ok(Leaf(k.mem, root, v))
      modifies k, this`owner
      ensures Valid()
      ensures r == 0 || r == -1
      ensures n <= (va + size - 1) / 4096 - va / 4096 + 1
      ensures r == 0 <==> n == (va + size - 1) / 4096 - va / 4096 + 1
      ensures r == -1 ==> k.free == []
      ensures forall q, v :: q in roots && 0 <= v < MAXVPN ==>
                Leaf(k.mem, q, v)
                == if q == root && va / 4096 <= v < va / 4096 + n then MakePte(pa + 4096 * (v - va / 4096), WithV(perm))
                   else Leaf(old(k.mem), q, v)
      ensures TookTables(old(owner), owner, root) && DataKept(old(k.mem), k.mem, old(owner))
    {
      hide World, MakePte, TableAt, Leaf;
      var a, last := PGROUNDDOWN(va), PGROUNDDOWN(va + size - 1);
      var pa' := pa;
      ghost var first := va / 4096;
      n := 0;
      NothingMapped(k.mem, owner, root);
      while true
        invariant Valid() && a == 4096 * (first + n) && a <= last && pa' == pa + 4096 * n
        invariant forall q, v :: q in roots && 0 <= v < MAXVPN ==>
                    Leaf(k.mem, q, v)
                    == if q == root && first <= v < first + n then MakePte(pa + 4096 * (v - first), WithV(perm))
                       else Leaf(old(k.mem), q, v)
        invariant TookTables(old(owner), owner, root) && DataKept(old(k.mem), k.mem, old(owner))
        decreases last - a
      {
        ghost var m1, o1 := k.mem, owner;
        var ok, t, i := Walk(root, a, true);
        TookTrans(old(owner), o1, owner, root);
        DataKeptTrans(old(k.mem), m1, k.mem, old(owner), o1, root);
        if !ok {
          return -1, n;
        }
        assert !Ok(Leaf(old(k.mem), root, first + n));
        assert Leaf(k.mem, root, first + n) == Leaf(m1, root, first + n);
        NotOwnedLeaf(k.kend, k.mem, k.freelist, k.free, owner, roots, root, first + n);
        ghost var m2 := k.mem;
        StorePte(root, first + n, t, i, MakePte(pa', WithV(perm)));
        DataKeptTrans(old(k.mem), m2, k.mem, old(owner), owner, root);
        n := n + 1;
        if a == last {
          break;
        }
        a, pa' := a + PGSIZE, pa' + PGSIZE;
      }
      return 0, n;
    }

    /** Remove `npages` mappings from `va` on, and free the pages behind them if asked to. */
    method Uvmunmap(root: nat, va: nat, npages: nat, doFree: bool)
      requires Valid() && root in roots
      requires va % 4096 == 0 && va + 4096 * npages <= MAXVA      // otherwise: panic "uvmunmap: not aligned", or "walk"
      requires forall v :: va / 4096 <= v < va / 4096 + npages ==>
                 // otherwise: panic "not mapped" or "not a leaf"
                 && Ok(Leaf(k.mem, root, v)) && PTE_FLAGS(Leaf(k.mem, root, v)) != PTE_V
                 && (doFree ==> OwnLeaf(k.mem, owner, root, v))
                 && (!doFree ==> forall p :: p in owner ==> owner[p] != LeafOf(root, v))
      modifies k, this`owner
      ensures Valid()
      ensures forall q, v :: q in roots && 0 <= v < MAXVPN ==>
                Leaf(k.mem, q, v) == if q == root && va / 4096 <= v < va / 4096 + npages then 0
                    else Leaf(old(k.mem), q, v)
      ensures owner == Released(old(owner), root, va / 4096, va / 4096 + npages)
      ensures |k.free| == |old(k.free)| + if doFree then npages else 0
      ensures DataKept(old(k.mem), k.mem, owner)
    {
      hide World, TableAt, Leaf, Released, OwnLeaf, PTE2PA;
      ghost var first := va / 4096;
      ghost var n := 0;
      var a := va;
      ReleasedNone(owner, root, first);
      NothingMapped(k.mem, owner, root);
      while a < va + npages * PGSIZE
        invariant Valid() && a == va + 4096 * n && n <= npages
        invariant forall q, v :: q in roots && 0 <= v < MAXVPN ==>
                    Leaf(k.mem, q, v) == if q == root && first <= v < first + n then 0 else Leaf(old(k.mem), q, v)
        invariant owner == Released(old(owner), root, first, first + n)
        invariant |k.free| == |old(k.free)| + if doFree then n else 0
        invariant DataKept(old(k.mem), k.mem, owner)
      {
        ghost var v := first + n;
        assert a / 4096 == v && v < MAXVPN;
        var ok, t, i := Walk(root, a, false);
        LeafTable(k.mem, root, v);
        assert Leaf(k.mem, root, v) == Leaf(old(k.mem), root, v);
        assert ok;                                      // otherwise: panic "uvmunmap: walk"
        var pte := Pte(k.mem, t, i);
        assert Ok(pte) && PTE_FLAGS(pte) != PTE_V;      // otherwise: panic "not mapped" or "not a leaf"
        ghost var m1 := k.mem;
        if doFree {
          OwnLeafKept(old(k.mem), old(owner), k.mem, root, first, v);
          ReleasedOne(k.kend, k.mem, k.freelist, k.free, old(owner), owner, roots, root, first, v);
          PutPage(PTE2PA(pte));
          TreesSame(m1, k.mem, roots, root, v / 512);
        } else {
          ReleasedZero(old(owner), root, first, v);
        }
        ReleasedOut(old(owner), root, first, v);
        ghost var m2 := k.mem;
        StorePte(root, v, t, i, 0);
        DataKeptSame(old(k.mem), m2, k.mem, owner);
        n := n + 1;
        a := a + PGSIZE;
      }
    }

    /** An empty user page table; 0 if out of memory. */
    method Uvmcreate() returns (root: nat)
      requires Valid()
      modifies k, this
      ensures Valid()
      ensures root == 0 <==> old(k.free) == []
      ensures root == 0 ==> k.mem == old(k.mem) && owner == old(owner) && roots == old(roots)
      ensures root != 0 ==>
                && root !in old(roots) && roots == old(roots) + {root}
                && root in old(owner) && old(owner)[root] == Free && owner == old(owner)[root := TableOf(root, 2, 0)]
                && forall v :: 0 <= v < MAXVPN ==> Leaf(k.mem, root, v) == 0
      ensures SameLeaves(old(k.mem), k.mem, old(roots)) && DataKept(old(k.mem), k.mem, old(owner))
    {
      hide FreeList, TreesOk, TablesPlaced, LeavesPlaced, SameTrees, SameLeaves, EmptyTable;
      SameTreesRefl(k.mem, roots);
      LeavesOfTrees(k.mem, k.mem, roots);
      root := GetPage();
      if root == 0 {
        return;
      }
      ghost var m1 := k.mem;
      FillPage(root, EmptyTable());
      LeavesOfTrees(old(k.mem), m1, roots);
      LeavesOfTrees(m1, k.mem, roots);
      SameLeavesTrans(old(k.mem), m1, k.mem, roots);
      FreshRoot(k.mem, owner, roots, root);
      owner := owner[root := TableOf(root, 2, 0)];
      roots := roots + {root};
    }

    /** Map a held page at an unmapped address and hand it over to that address; on failure free it again. */
    method MapPage(root: nat, a: nat, pa: nat, perm: nat) returns (ok: bool)
      requires Valid() && root in roots && a % 4096 == 0 && a < MAXVA
      requires pa in owner && owner[pa] == Held && IsData(k.mem, pa) && perm < 1024
      requires !Ok(Leaf(k.mem, root, a / 4096))
      modifies k, this`owner
      ensures Valid()
      ensures forall q, v :: q in roots && 0 <= v < MAXVPN && !(q == root && v == a / 4096) ==>
              Leaf(k.mem, q, v) == Leaf(old(k.mem), q, v)
      ensures ok ==>
                && Leaf(k.mem, root, a / 4096) == MakePte(pa, WithV(perm)) && OwnLeaf(k.mem, owner, root, a / 4096)
                && PTE2PA(Leaf(k.mem, root, a / 4096)) == pa
                && TookTables(old(owner)[pa := LeafOf(root, a / 4096)], owner, root)
                && pa in k.mem && k.mem[pa] == old(k.mem[pa])
      ensures !ok ==>
                && Leaf(k.mem, root, a / 4096) == Leaf(old(k.mem), root, a / 4096)
                && TookTables(old(owner)[pa := Free], owner, root)
                && |k.free| == 1
      ensures DataKept(old(k.mem), k.mem, old(owner)[pa := Free])
    {
      hide World, TableAt, Leaf, MakePte, PTE2PA, TookTables, DataKept, SameTrees, SameLeaves;
      PageAligned(k.kend, k.mem, k.freelist, k.free, owner, roots, pa);
      PteRoundTrip(pa, WithV(perm));
      var r, n := Mappages(root, a, PGSIZE, pa, perm);
      ghost var m1, o1 := k.mem, owner;
      HeldKept(old(k.mem), k.mem, old(owner), owner, root, pa);
      if r != 0 {
        PutPage(pa);
        LeavesAgree(m1, k.mem, roots);
        FreedKept(old(k.mem), m1, old(owner), pa, k.mem[pa]);
        TookFree(old(owner), o1, root, pa, Free);
        return false;
      }
      Adopt(k.kend, k.mem, k.freelist, k.free, owner, roots, root, a / 4096, pa);
      owner := owner[pa := LeafOf(root, a / 4096)];
      TookFree(old(owner), o1, root, pa, LeafOf(root, a / 4096));
      return true;
    }

    /** Shrink user memory from `oldsz` to `newsz` bytes. */
    method Uvmdealloc(root: nat, oldsz: nat, newsz: nat) returns (r: nat)
      requires Valid() && root in roots && oldsz <= MAXVA
      requires forall v :: Pages(newsz) <= v < Pages(oldsz) ==>
                 OwnLeaf(k.mem, owner, root, v) && PTE_FLAGS(Leaf(k.mem, root, v)) != PTE_V
      modifies k, this`owner
      ensures Valid() && r == (if newsz >= oldsz then oldsz else newsz)
      ensures forall q, v :: q in roots && 0 <= v < MAXVPN ==>
                Leaf(k.mem, q, v) == if q == root && newsz < oldsz && Pages(newsz) <= v < Pages(oldsz) then 0
                    else Leaf(old(k.mem), q, v)
      ensures owner == Released(old(owner), root, Pages(newsz), if newsz < oldsz then Pages(oldsz) else Pages(newsz))
      ensures |k.free| == |old(k.free)| + if newsz < oldsz then Pages(oldsz) - Pages(newsz) else 0
      ensures DataKept(old(k.mem), k.mem, owner)
    {
      hide World, TableAt, Leaf, Released;
      ReleasedNone(owner, root, Pages(newsz));
      NothingMapped(k.mem, owner, root);
      PagesBytes(newsz);
      PagesBytes(oldsz);
      if newsz >= oldsz {
        return oldsz;
      }
      PagesMonotone(newsz, oldsz);
      if PGROUNDUP(newsz) < PGROUNDUP(oldsz) {
        var npages := (PGROUNDUP(oldsz) - PGROUNDUP(newsz)) / PGSIZE;
        assert npages == Pages(oldsz) - Pages(newsz);
        Uvmunmap(root, PGROUNDUP(newsz), npages, true);
      } else {
        assert Pages(newsz) == Pages(oldsz);
      }
      return newsz;
    }

    /** kalloc, fill, mappages; on failure of mappages kfree: one round of uvmalloc or uvmcopy. */
    method AddPage(root: nat, a: nat, page: Page, perm: nat) returns (ok: bool)
      requires Valid() && root in roots && a % 4096 == 0 && a < MAXVA
      requires page.Data? && |page.bytes| == PGSIZE && perm < 1024 && WithV(perm) != PTE_V
      requires !Ok(Leaf(k.mem, root, a / 4096))
      modifies k, this`owner
      ensures Valid()
      ensures ok ==> Grown(old(k.mem), old(owner), k.mem, owner, roots, root, a / 4096, [WithV(perm)], [page])
      ensures !ok ==> Grown(old(k.mem), old(owner), k.mem, owner, roots, root, a / 4096, [], []) && |k.free| <= 1
    {
      hide World, TableAt, Leaf, MakePte, PTE2PA, PTE_FLAGS, TookTables, DataKept, SameTrees, OwnLeaf;
      GrownNothing(k.mem, owner, roots, root, a / 4096);
      ghost var m0, o0 := k.mem, owner;
      var pa := GetPage();
      if pa == 0 {
        return false;
      }
      ghost var m1 := k.mem;
      FillPage(pa, page);
      ghost var m2 := k.mem;
      LeavesAgree(m0, m1, roots);
      LeavesAgree(m1, m2, roots);
      ok := MapPage(root, a, pa, perm);
      PteRoundTrip(pa, WithV(perm));
      if ok {
        GrownOne(m0, o0, m2, k.mem, owner, roots, root, a / 4096, pa, page, WithV(perm));
      } else {
        GrownFailed(m0, o0, m2, k.mem, owner, roots, root, a / 4096, pa, page);
      }
    }

    /**
      Grow user memory from `oldsz` to `newsz` bytes with zeroed pages.  Returns the new size; or 0,
      with every data page given back and no translation changed.  It fails only when memory ran out:
      what is free then is no more than what was asked for, all of it just given back.
     */
    method Uvmalloc(root: nat, oldsz: nat, newsz: nat, xperm: nat) returns (r: nat)
      requires Valid() && root in roots && newsz <= MAXVA
      requires xperm == 0 || xperm == PTE_W || xperm == PTE_X || xperm == PTE_W + PTE_X
      // otherwise: panic "mappages: remap"
      requires forall v :: Pages(oldsz) <= v < Pages(newsz) ==> !Ok(Leaf(k.mem, root, v))
      modifies k, this`owner
      ensures Valid()
      ensures newsz < oldsz ==> r == oldsz && k.mem == old(k.mem) && k.free == old(k.free) && owner == old(owner)
      ensures newsz >= oldsz ==>
                || (r == newsz
                    && Grown(old(k.mem), old(owner), k.mem, owner, roots, root, Pages(oldsz),
                             seq(Pages(newsz) - Pages(oldsz), _ => PTE_V + PTE_R + PTE_U + xperm),
                             seq(Pages(newsz) - Pages(oldsz), _ => Filled(0))))
                || (r == 0 && SameMaps(old(k.mem), k.mem, roots) && TookTables(old(owner), owner, root)
                    && DataKept(old(k.mem), k.mem, old(owner)) && |k.free| <= Pages(newsz) - Pages(oldsz))
    {
      hide World, TableAt, Leaf, PTE2PA, PTE_FLAGS, Grown, Filled, SameMaps, TookTables, DataKept, Released, Installed,
          OwnLeaf;
      if newsz < oldsz {
        return oldsz;
      }
      PagesBytes(oldsz);
      PagesBytes(newsz);
      PagesMonotone(oldsz, newsz);
      var start := PGROUNDUP(oldsz);
      ghost var m0, o0, lo, n := k.mem, owner, Pages(oldsz), 0;
      ghost var flag := PTE_V + PTE_R + PTE_U + xperm;
      UnmappedOwnNothing(k.kend, k.mem, k.freelist, k.free, owner, roots, root, lo, Pages(newsz));
      GrownNothing(k.mem, owner, roots, root, lo);
      assert seq(0, _ => flag) == [] && seq(0, _ => Filled(0)) == [];
      var a := start;
      while a < newsz
        invariant Valid() && a == start + 4096 * n && lo + n <= Pages(newsz)
        invariant Grown(m0, o0, k.mem, owner, roots, root, lo, seq(n, _ => flag), seq(n, _ => Filled(0)))
      {
        assert a / 4096 == lo + n < Pages(newsz);
        ghost var m1, o1 := k.mem, owner;
        GrownElsewhere(m0, o0, k.mem, owner, roots, root, lo, seq(n, _ => flag), seq(n, _ => Filled(0)), lo + n);
        var ok := AddPage(root, a, Filled(0), PTE_R + PTE_U + xperm);
        if !ok {
          GrownMore(m0, o0, m1, o1, k.mem, owner, roots, root, lo, seq(n, _ => flag), seq(n, _ => Filled(0)), [], []);
          assert seq(n, _ => flag) + [] == seq(n, _ => flag) && seq(n, _ => Filled(0)) + [] == seq(n, _ => Filled(0));
          Rollback(root, a, start, m0, o0, lo, seq(n, _ => flag), seq(n, _ => Filled(0)));
          return 0;
        }
        GrownMore(m0, o0, m1, o1, k.mem, owner, roots, root, lo, seq(n, _ => flag), seq(n, _ => Filled(0)), [flag],
            [Filled(0)]);
        assert seq(n, _ => flag) + [flag] == seq(n + 1, _ => flag);
        assert seq(n, _ => Filled(0)) + [Filled(0)] == seq(n + 1, _ => Filled(0));
        n := n + 1;
        a := a + PGSIZE;
      }
      assert lo + n == Pages(newsz);
      return newsz;
    }

    /** uvmdealloc after a failure: the pages mapped so far are given back. */
    method Rollback(root: nat, a: nat, start: nat, ghost m0: Mem, ghost o0: map<nat, Owner>, ghost lo: nat,
                    ghost flags: seq<nat>, ghost pages: seq<Page>)
      requires Valid() && root in roots && start == 4096 * lo && a == start + 4096 * |pages| && a <= MAXVA
      requires Grown(m0, o0, k.mem, owner, roots, root, lo, flags, pages)
      requires forall j :: 0 <= j < |flags| ==> flags[j] != PTE_V
      requires forall v :: lo <= v < lo + |pages| ==> !Ok(Leaf(m0, root, v))
      requires forall p :: p in o0 && o0[p].LeafOf? && o0[p].root == root ==> !(lo <= o0[p].vpn < lo + |pages|)
      modifies k, this`owner
      ensures Valid()
      ensures SameMaps(m0, k.mem, roots) && TookTables(o0, owner, root) && DataKept(m0, k.mem, o0)
      ensures |k.free| == |old(k.free)| + |pages|
    {
      hide World, TableAt, Leaf, PTE2PA, PTE_FLAGS, SameMaps, TookTables, DataKept, Released, OwnLeaf, Took;
      ghost var m1, o1 := k.mem, owner;
      PagesBytes(a);
      PagesBytes(start);
      assert Pages(start) == lo && Pages(a) == lo + |pages|;
      forall v | lo <= v < lo + |pages|
        ensures OwnLeaf(k.mem, owner, root, v) && PTE_FLAGS(Leaf(k.mem, root, v)) != PTE_V
      {
        assert Installed(k.mem, owner, root, lo, flags, pages, v);
      }
      var _ := Uvmdealloc(root, a, start);
      GrownUndone(m0, o0, m1, o1, k.mem, owner, roots, root, lo, flags, pages);
    }

    /**
      Copy the first `sz` bytes of one address space into another: equal flags and contents, on new pages.
      On failure every page taken for data is given back and no translation has changed, and memory
      has run out: what is free then is no more than the copy needs.
     */
    method Uvmcopy(src: nat, dst: nat, sz: nat) returns (r: int)
      requires Valid() && src in roots && dst in roots && src != dst && sz <= MAXVA
      requires UserSpace(k.mem, owner, src, Pages(sz))           // otherwise: panic "uvmcopy: ..."
      requires forall v :: 0 <= v < Pages(sz) ==> !Ok(Leaf(k.mem, dst, v))
      modifies k, this`owner
      ensures Valid()
      ensures r == 0 || r == -1
      ensures r == 0 ==>
                Grown(old(k.mem), old(owner), k.mem, owner, roots, dst, 0,
                      FlagsOf(old(k.mem), src, Pages(sz)), PagesOf(old(k.mem), src, Pages(sz)))
      ensures r == 0 ==> forall v :: 0 <= v < Pages(sz) ==> CopiedPage(old(k.mem), src, k.mem, dst, v)
      ensures r == -1 ==>
                && SameMaps(old(k.mem), k.mem, roots) && TookTables(old(owner), owner, dst)
                && DataKept(old(k.mem), k.mem, old(owner)) && |k.free| <= Pages(sz)
    {
      hide World, TableAt, Leaf, PTE2PA, PTE_FLAGS, Grown, SameMaps, TookTables, DataKept, Released, Installed,
          OwnLeaf, FlagsOf, PagesOf;
      ghost var m0, o0, n := k.mem, owner, 0;
      PagesBytes(sz);
      UnmappedOwnNothing(k.kend, k.mem, k.freelist, k.free, owner, roots, dst, 0, Pages(sz));
      GrownNothing(k.mem, owner, roots, dst, 0);
      SourceNone(m0, src);
      KeysAgree(k.kend, k.mem, k.freelist, k.free, owner, roots);
      var i := 0;
      while i < sz
        invariant Valid() && i == 4096 * n && n <= Pages(sz)
        invariant Grown(m0, o0, k.mem, owner, roots, dst, 0, FlagsOf(m0, src, n), PagesOf(m0, src, n))
      {
        assert i / 4096 == n < Pages(sz);
        var ok, t, idx := Walk(src, i, false);
        SourcePage(m0, o0, k.kend, k.mem, k.freelist, k.free, owner, roots, src, dst, n, Pages(sz));
        assert ok;                                       // otherwise: panic "uvmcopy: pte should exist"
        var pte := Pte(k.mem, t, idx);
        assert Ok(pte);                                  // otherwise: panic "uvmcopy: page not present"
        var pa, flags := PTE2PA(pte), PTE_FLAGS(pte);
        ghost var m1, o1 := k.mem, owner;
        GrownElsewhere(m0, o0, k.mem, owner, roots, dst, 0, FlagsOf(m0, src, n), PagesOf(m0, src, n), n);
        SourceFlags(pte);
        var mapped := AddPage(dst, i, k.mem[pa], flags);
        if !mapped {
          GrownMore(m0, o0, m1, o1, k.mem, owner, roots, dst, 0, FlagsOf(m0, src, n), PagesOf(m0, src, n), [], []);
          assert FlagsOf(m0, src, n) + [] == FlagsOf(m0, src, n) && PagesOf(m0, src, n) + [] == PagesOf(m0, src, n);
          Unroll(dst, i, m0, o0, FlagsOf(m0, src, n), PagesOf(m0, src, n));
          return -1;
        }
        GrownMore(m0, o0, m1, o1, k.mem, owner, roots, dst, 0, FlagsOf(m0, src, n), PagesOf(m0, src, n), [flags],
            [m1[pa]]);
        n := n + 1;
        i := i + PGSIZE;
      }
      assert n == Pages(sz);
      CopiedPages(m0, o0, k.mem, owner, roots, src, dst, n);
      return 0;
    }

    /** The error exit of uvmcopy. */
    method Unroll(root: nat, i: nat, ghost m0: Mem, ghost o0: map<nat, Owner>, ghost flags: seq<nat>,
                  ghost pages: seq<Page>)
      requires Valid() && root in roots && i == 4096 * |pages| && i <= MAXVA
      requires Grown(m0, o0, k.mem, owner, roots, root, 0, flags, pages)
      requires forall j :: 0 <= j < |flags| ==> flags[j] != PTE_V
      requires forall v :: 0 <= v < |pages| ==> !Ok(Leaf(m0, root, v))
      requires forall p :: p in o0 && o0[p].LeafOf? && o0[p].root == root ==> !(0 <= o0[p].vpn < |pages|)
      modifies k, this`owner
      ensures Valid()
      ensures SameMaps(m0, k.mem, roots) && TookTables(o0, owner, root) && DataKept(m0, k.mem, o0)
      ensures |k.free| == |old(k.free)| + |pages|
    {
      hide World, TableAt, Leaf, PTE2PA, PTE_FLAGS, SameMaps, TookTables, DataKept, Released, OwnLeaf, Took;
      ghost var m1, o1 := k.mem, owner;
      forall v | 0 <= v < |pages|
        ensures OwnLeaf(k.mem, owner, root, v) && PTE_FLAGS(Leaf(k.mem, root, v)) != PTE_V
      {
        assert Installed(k.mem, owner, root, 0, flags, pages, v);
      }
      OwnLeavesOk(k.mem, owner, root, |pages|);
      Uvmunmap(root, 0, i / PGSIZE, true);
      GrownUndone(m0, o0, m1, o1, k.mem, owner, roots, root, 0, flags, pages);
    }

    /**
      Free user memory, then the page table: every page the tree owned is free again, and no other has
      changed hands.
     */
    method Uvmfree(root: nat, sz: nat)
      requires Valid() && root in roots && sz <= MAXVA
      requires UserSpace(k.mem, owner, root, Pages(sz))
      // otherwise: panic "freewalk: leaf"
      requires forall v :: Pages(sz) <= v < MAXVPN ==> !Ok(Leaf(k.mem, root, v))
      modifies k, this
      ensures Valid() && roots == old(roots) - {root}
      ensures owner == WithoutTree(old(owner), root)
      ensures SameLeaves(old(k.mem), k.mem, roots) && DataKept(old(k.mem), k.mem, owner)
    {
      hide World, TableAt, Leaf, PTE2PA, PTE_FLAGS, DataKept, Released, OwnLeaf, TreesOk, TablesPlaced, LeavesPlaced,
          Subtree, SameLeaves, WithoutTree;
      PagesBytes(sz);
      OwnLeavesOk(k.mem, owner, root, Pages(sz));
      ReleasedNone(owner, root, 0);
      NothingMapped(k.mem, owner, root);
      ghost var m0, o0, all := k.mem, owner, roots;
      if sz > 0 {
        Uvmunmap(root, 0, PGROUNDUP(sz) / PGSIZE, true);
      }
      ghost var m1, o1, h1, f1 := k.mem, owner, k.freelist, k.free;
      assert Unmapped(m1, root) by {
        assert forall v :: 0 <= v < MAXVPN ==> !Ok(Leaf(m1, root, v));
      }
      ReadyToFree(k.kend, m1, h1, f1, o1, roots, root);
      FreeTables(k, root, m1, o1, root, 2, 0);
      roots := roots - {root};
      owner := WithoutTree(o1, root);
      TreeFreed(k.kend, m1, h1, f1, o1, all, root, k.mem, k.freelist, k.free);
      ReleasedAll(o0, root, Pages(sz));
      DataKeptFreed(k.kend, m0, m1, h1, f1, o1, k.mem, all, root);
      assert SameLeaves(m0, m1, roots) by { OthersSame(m0, m1, all, root); }
      SameLeavesTrans(m0, m1, k.mem, roots);
    }
  }

  /** Ownership after a tree has been freed. */
  ghost function WithoutTree(owner: map<nat, Owner>, root: nat): (o: map<nat, Owner>) {
    map p | p in owner :: if (owner[p].TableOf? || owner[p].LeafOf?) && owner[p].root == root then Free else owner[p]
  }

  ghost predicate Unmapped(mem: Mem, root: nat) {
    forall v :: 0 <= v < MAXVPN ==> !Ok(Leaf(mem, root, v))
  }

  /** A tree without leaves meets what freewalk asks for. */
  lemma ReadyToFree(kend: nat, mem: Mem, head: nat, free: seq<nat>, owner: map<nat, Owner>, roots: set<nat>, root: nat)
    requires World(kend, mem, head, free, owner, roots) && root in roots && Unmapped(mem, root)
    ensures FreeList(kend, mem, head, free) && TreeOk(mem, owner, root) && TableAt(mem, root, 2, 0) == root != 0
    ensures forall q, i :: 0 <= q < KeyBound(0) && 0 <= i < 512 && TableAt(mem, root, 0, q) != 0 ==>
              !Ok(Pte(mem, TableAt(mem, root, 0, q), i))
    ensures forall p :: p in Subtree(mem, root, 2, 0) ==> p in mem && p !in free
  {
    hide FreeList, Subtree;
    WholeTree(mem, owner, roots, root);
    forall q, i | 0 <= q < KeyBound(0) && 0 <= i < 512 && TableAt(mem, root, 0, q) != 0
      ensures !Ok(Pte(mem, TableAt(mem, root, 0, q), i))
    {
      var v := 512 * q + i;
      assert v / 512 == q && v % 512 == i && v < MAXVPN;
      assert !Ok(Leaf(mem, root, v));
    }
  }

  /** Once its tables are free, the tree is gone and the others are untouched. */
  lemma TreeFreed(kend: nat, m1: Mem, h1: nat, f1: seq<nat>, o1: map<nat, Owner>, roots: set<nat>, root: nat,
                  mem: Mem, head: nat, free: seq<nat>)
    requires World(kend, m1, h1, f1, o1, roots) && root in roots && Unmapped(m1, root)
    requires FreeList(kend, mem, head, free) && mem.Keys == m1.Keys
    requires forall p :: p in free <==> p in f1 || p in Subtree(m1, root, 2, 0)
    requires forall p :: p in mem && p !in Subtree(m1, root, 2, 0) ==> mem[p] == m1[p]
    ensures World(kend, mem, head, free, WithoutTree(o1, root), roots - {root})
    ensures SameLeaves(m1, mem, roots - {root})
  {
    hide FreeList, Subtree, TableAt, Leaf, TreeOk, PTE2PA;
    WholeTree(m1, o1, roots, root);
    var owner, rest := WithoutTree(o1, root), roots - {root};
    NoLeafLeft(m1, o1, roots, root);
    var o2 := map p | p in o1 && !(o1[p].TableOf? && o1[p].root == root) :: o1[p];
    assert TreesOk(m1, o2, rest) by {
      forall r | r in rest
        ensures TreeOk(m1, o2, r)
      {
        TreeWithout(m1, o1, o2, r, root);
      }
    }
    TreesStable(m1, mem, o2, rest);
    forall r | r in rest
      ensures TreeOk(mem, owner, r)
    {
      TreeKept(m1, mem, o2, owner, r);
    }
  }

  lemma TreeWithout(mem: Mem, owner: map<nat, Owner>, owner': map<nat, Owner>, r: nat, root: nat)
    requires TreeOk(mem, owner, r) && r != root
    requires owner' == map p | p in owner && !(owner[p].TableOf? && owner[p].root == root) :: owner[p]
    ensures TreeOk(mem, owner', r)
  {
  }

  lemma NoLeafLeft(mem: Mem, owner: map<nat, Owner>, roots: set<nat>, root: nat)
    requires LeavesPlaced(mem, owner, roots) && Unmapped(mem, root)
    ensures forall p :: p in owner && owner[p].LeafOf? ==> owner[p].root != root
  {
  }

  lemma ReleasedAll(owner: map<nat, Owner>, root: nat, n: nat)
    ensures WithoutTree(Released(owner, root, 0, n), root) == WithoutTree(owner, root)
  {
  }

  lemma DataKeptFreed(kend: nat, m0: Mem, m1: Mem, h1: nat, f1: seq<nat>, o1: map<nat, Owner>, mem: Mem,
                      roots: set<nat>, root: nat)
    requires DataKept(m0, m1, o1) && World(kend, m1, h1, f1, o1, roots) && root in roots && mem.Keys == m1.Keys
    requires forall p :: p in mem && p !in Subtree(m1, root, 2, 0) ==> mem[p] == m1[p]
    ensures DataKept(m0, mem, WithoutTree(o1, root))
  {
    hide Subtree, TreesOk, TablesPlaced;
    WholeTree(m1, o1, roots, root);
  }

  lemma OthersSame(m0: Mem, m1: Mem, roots: set<nat>, root: nat)
    requires forall q, v :: q in roots && 0 <= v < MAXVPN && q != root ==> Leaf(m1, q, v) == Leaf(m0, q, v)
    ensures SameLeaves(m0, m1, roots - {root})
  {
  }

  /** The first `n` virtual pages are mapped, as leaves, to pages they own. */
  ghost predicate UserSpace(mem: Mem, owner: map<nat, Owner>, root: nat, n: nat) {
    forall v :: 0 <= v < n ==> OwnLeaf(mem, owner, root, v) && PTE_FLAGS(Leaf(mem, root, v)) != PTE_V
  }

  /** Flags and contents of the first `n` virtual pages. */
  ghost function FlagsOf(mem: Mem, root: nat, n: nat): (s: seq<nat>) {
    seq(n, v requires 0 <= v < n => PTE_FLAGS(Leaf(mem, root, v)))
  }

  /** The entry of `v` in the child has the flags of the parent's and leads to a page with the same bytes. */
  ghost predicate CopiedPage(m0: Mem, src: nat, m: Mem, dst: nat, v: nat) {
    var e0, e := Leaf(m0, src, v), Leaf(m, dst, v);
    && e % 1024 == e0 % 1024
    && e / 1024 * 4096 in m && e0 / 1024 * 4096 in m0 && m[e / 1024 * 4096] == m0[e0 / 1024 * 4096]
  }

  lemma CopiedPages(m0: Mem, o0: map<nat, Owner>, m: Mem, o: map<nat, Owner>, roots: set<nat>, src: nat, dst: nat,
                    n: nat)
    requires UserSpace(m0, o0, src, n) && Grown(m0, o0, m, o, roots, dst, 0, FlagsOf(m0, src, n), PagesOf(m0, src, n))
    requires o0.Keys == m0.Keys
    ensures forall v :: 0 <= v < n ==> CopiedPage(m0, src, m, dst, v)
  {
    hide Leaf, Took, DataKept;
    forall v | 0 <= v < n ensures CopiedPage(m0, src, m, dst, v) {
      assert Installed(m, o, dst, 0, FlagsOf(m0, src, n), PagesOf(m0, src, n), v);
    }
  }

  ghost function PagesOf(mem: Mem, root: nat, n: nat): (s: seq<Page>) {
    seq(n, v requires 0 <= v < n => var pa := PTE2PA(Leaf(mem, root, v)); if pa in mem then mem[pa] else Filled(0))
  }

  lemma SourceNone(mem: Mem, root: nat)
    ensures FlagsOf(mem, root, 0) == [] && PagesOf(mem, root, 0) == []
  {
  }

  lemma SourceFlags(pte: nat)
    ensures PTE_FLAGS(pte) < 1024 && (Ok(pte) ==> WithV(PTE_FLAGS(pte)) == PTE_FLAGS(pte))
  {
  }

  lemma OwnLeavesOk(mem: Mem, owner: map<nat, Owner>, root: nat, n: nat)
    requires forall v :: 0 <= v < n ==> OwnLeaf(mem, owner, root, v)
    ensures forall v :: 0 <= v < n ==> Ok(Leaf(mem, root, v))
  {
    forall v | 0 <= v < n
      ensures Ok(Leaf(mem, root, v))
    {
      assert OwnLeaf(mem, owner, root, v);
    }
  }

  /** While the copy is being made, the source still has its pages with their contents. */
  lemma SourcePage(m0: Mem, o0: map<nat, Owner>, kend: nat, mem: Mem, head: nat, free: seq<nat>,
                   owner: map<nat, Owner>, roots: set<nat>,
                   src: nat, dst: nat, n: nat, total: nat)
    requires World(kend, mem, head, free, owner, roots) && src in roots && dst in roots && src != dst &&
            n < total <= MAXVPN
    requires UserSpace(m0, o0, src, total) && o0.Keys == m0.Keys
    requires Grown(m0, o0, mem, owner, roots, dst, 0, FlagsOf(m0, src, n), PagesOf(m0, src, n))
    ensures Ok(Leaf(mem, src, n)) && TableAt(mem, src, 0, n / 512) != 0
    ensures var pa := PTE2PA(Leaf(mem, src, n));
            && pa in mem && IsData(mem, pa) && PTE_FLAGS(Leaf(mem, src, n)) != PTE_V
            && FlagsOf(m0, src, n + 1) == FlagsOf(m0, src, n) + [PTE_FLAGS(Leaf(mem, src, n))]
            && PagesOf(m0, src, n + 1) == PagesOf(m0, src, n) + [mem[pa]]
    ensures |PagesOf(m0, src, n)| == |FlagsOf(m0, src, n)| == n && forall j :: 0 <= j < n ==>
            FlagsOf(m0, src, n)[j] != PTE_V
  {
    hide FreeList, TreesOk, TablesPlaced, Leaf, PTE2PA, PTE_FLAGS, Installed;
    assert OwnLeaf(m0, o0, src, n);
    assert Leaf(mem, src, n) == Leaf(m0, src, n);
    LeafTable(mem, src, n);
  }

  lemma KeysAgree(kend: nat, mem: Mem, head: nat, free: seq<nat>, owner: map<nat, Owner>, roots: set<nat>)
    requires World(kend, mem, head, free, owner, roots)
    ensures owner.Keys == mem.Keys
  {
  }

  /** Virtual pages that are not mapped own nothing. */
  lemma UnmappedOwnNothing(kend: nat, mem: Mem, head: nat, free: seq<nat>, owner: map<nat, Owner>, roots: set<nat>,
                           root: nat, lo: nat, hi: nat)
    requires World(kend, mem, head, free, owner, roots)
    requires forall v :: lo <= v < hi ==> !Ok(Leaf(mem, root, v))
    ensures forall p :: p in owner && owner[p].LeafOf? && owner[p].root == root ==> !(lo <= owner[p].vpn < hi)
  {
  }

  lemma GrownElsewhere(m0: Mem, o0: map<nat, Owner>, mem: Mem, owner: map<nat, Owner>, roots: set<nat>,
                       root: nat, lo: nat, flags: seq<nat>, pages: seq<Page>, v: nat)
    requires Grown(m0, o0, mem, owner, roots, root, lo, flags, pages) && root in roots && v < MAXVPN
    requires !(lo <= v < lo + |pages|)
    ensures Leaf(mem, root, v) == Leaf(m0, root, v)
  {
  }

  /**
    The state reached from `mem0`, `owner0` by mapping `|pages|` new pages from virtual page `lo` on,
    with these flags and contents; everything else translates as before.
   */
  ghost predicate Grown(mem0: Mem, owner0: map<nat, Owner>, mem: Mem, owner: map<nat, Owner>, roots: set<nat>,
                        root: nat, lo: nat, flags: seq<nat>, pages: seq<Page>)
  {
    && |flags| == |pages|
    && Took(owner0, owner, root, lo, lo + |pages|)
    && DataKept(mem0, mem, owner0)
    && (forall q, v :: q in roots && 0 <= v < MAXVPN && !(q == root && lo <= v < lo + |pages|) ==>
        Leaf(mem, q, v) == Leaf(mem0, q, v))
    && (forall v :: lo <= v < lo + |pages| ==> Installed(mem, owner, root, lo, flags, pages, v))
  }

  /** Virtual page `v` owns a page with the flags and contents listed for it. */
  ghost predicate Installed(mem: Mem, owner: map<nat, Owner>, root: nat, lo: nat, flags: seq<nat>, pages: seq<Page>,
                            v: nat)
    requires lo <= v < lo + |pages| == lo + |flags|
  {
    && OwnLeaf(mem, owner, root, v)
    && PTE_FLAGS(Leaf(mem, root, v)) == flags[v - lo]
    && PTE2PA(Leaf(mem, root, v)) in mem && mem[PTE2PA(Leaf(mem, root, v))] == pages[v - lo]
  }

  /** The flat map a tree stands for: what the hardware finds for a virtual page, 0 if nothing. */
  ghost function Translation(mem: Mem, root: nat, vpn: nat): (pte: nat) {
    if Ok(Leaf(mem, root, vpn)) then Leaf(mem, root, vpn) else 0
  }

  /** Every tree stands for the same map as before. */
  ghost predicate SameMaps(mem: Mem, mem': Mem, roots: set<nat>) {
    forall q, v :: q in roots && 0 <= v < MAXVPN ==> Translation(mem', q, v) == Translation(mem, q, v)
  }

  /** Free pages may have become tables of `root`, or data of its virtual pages `lo <= v < hi`. */
  ghost predicate Took(owner: map<nat, Owner>, owner': map<nat, Owner>, root: nat, lo: nat, hi: nat) {
    && owner'.Keys == owner.Keys
    && forall p :: p in owner ==>
         || owner'[p] == owner[p]
         || (owner[p] == Free && owner'[p].TableOf? && owner'[p].root == root)
         || (owner[p] == Free && owner'[p].LeafOf? && owner'[p].root == root && lo <= owner'[p].vpn < hi)
  }

  lemma GrownNothing(mem: Mem, owner: map<nat, Owner>, roots: set<nat>, root: nat, lo: nat)
    ensures Grown(mem, owner, mem, owner, roots, root, lo, [], [])
  {
  }

  lemma GrownOne(m0: Mem, o0: map<nat, Owner>, m2: Mem, mem: Mem, owner: map<nat, Owner>, roots: set<nat>,
                 root: nat, v: nat, pa: nat, page: Page, flags: nat)
    requires pa in o0 && o0[pa] == Free && m2 == m0[pa := Filled(5)][pa := page]
    requires forall q, w :: q in roots && 0 <= w < MAXVPN && !(q == root && w == v) ==>
            Leaf(mem, q, w) == Leaf(m0, q, w)
    requires OwnLeaf(mem, owner, root, v) && PTE2PA(Leaf(mem, root, v)) == pa && PTE_FLAGS(Leaf(mem, root, v)) == flags
    requires TookTables(o0[pa := Held][pa := LeafOf(root, v)], owner, root) && pa in mem && mem[pa] == page
    requires DataKept(m2, mem, o0[pa := Held][pa := Free])
    ensures Grown(m0, o0, mem, owner, roots, root, v, [flags], [page])
  {
    hide Leaf, PTE2PA, PTE_FLAGS, OwnLeaf;
  }

  lemma GrownFailed(m0: Mem, o0: map<nat, Owner>, m2: Mem, mem: Mem, owner: map<nat, Owner>, roots: set<nat>,
                    root: nat, v: nat, pa: nat, page: Page)
    requires pa in o0 && o0[pa] == Free && m2 == m0[pa := Filled(5)][pa := page]
    requires forall q, w :: q in roots && 0 <= w < MAXVPN ==> Leaf(mem, q, w) == Leaf(m0, q, w)
    requires TookTables(o0[pa := Held][pa := Free], owner, root) && DataKept(m2, mem, o0[pa := Held][pa := Free])
    ensures Grown(m0, o0, mem, owner, roots, root, v, [], [])
  {
    hide Leaf, PTE2PA, PTE_FLAGS, OwnLeaf;
  }

  /** One batch after another. */
  lemma GrownMore(m0: Mem, o0: map<nat, Owner>, m1: Mem, o1: map<nat, Owner>, m2: Mem, o2: map<nat, Owner>,
                  roots: set<nat>,
                  root: nat, lo: nat, f1: seq<nat>, p1: seq<Page>, f2: seq<nat>, p2: seq<Page>)
    requires root in roots && lo + |p1| <= MAXVPN
    requires Grown(m0, o0, m1, o1, roots, root, lo, f1, p1)
    requires Grown(m1, o1, m2, o2, roots, root, lo + |p1|, f2, p2)
    ensures Grown(m0, o0, m2, o2, roots, root, lo, f1 + f2, p1 + p2)
  {
    hide Leaf, PTE2PA, PTE_FLAGS;
    assert DataKept(m0, m2, o0);
    forall v | lo <= v < lo + |p1 + p2|
      ensures Installed(m2, o2, root, lo, f1 + f2, p1 + p2, v)
    {
      if v < lo + |p1| {
        assert Installed(m1, o1, root, lo, f1, p1, v);
        assert Leaf(m2, root, v) == Leaf(m1, root, v);
      } else {
        assert Installed(m2, o2, root, lo + |p1|, f2, p2, v);
      }
    }
  }

  /** Giving back what was taken for data leaves only tables taken, and no translation changed. */
  lemma GrownUndone(m0: Mem, o0: map<nat, Owner>, m1: Mem, o1: map<nat, Owner>, m2: Mem, o2: map<nat, Owner>,
                    roots: set<nat>,
                    root: nat, lo: nat, flags: seq<nat>, pages: seq<Page>)
    requires Grown(m0, o0, m1, o1, roots, root, lo, flags, pages)
    requires forall p :: p in o0 && o0[p].LeafOf? && o0[p].root == root ==> !(lo <= o0[p].vpn < lo + |pages|)
    requires o2 == Released(o1, root, lo, lo + |pages|) && DataKept(m1, m2, o2)
    requires forall q, v :: q in roots && 0 <= v < MAXVPN ==>
               Leaf(m2, q, v) == if q == root && lo <= v < lo + |pages| then 0 else Leaf(m1, q, v)
    requires forall v :: lo <= v < lo + |pages| ==> !Ok(Leaf(m0, root, v))
    ensures SameMaps(m0, m2, roots) && TookTables(o0, o2, root) && DataKept(m0, m2, o0)
  {
    hide Leaf, PTE2PA, PTE_FLAGS, OwnLeaf, Installed;
  }

  /** The number of pages that hold `sz` bytes. */
  function Pages(sz: nat): (n: nat) { (sz + 4095) / 4096 }

  /** Just as many pages as hold the bytes below `sz`. */
  lemma PagesExact(sz: nat)
    ensures forall a :: 0 <= a < sz ==> a / 4096 < Pages(sz)
    ensures sz > 0 ==> (sz - 1) / 4096 == Pages(sz) - 1
  {
  }

  lemma PagesBytes(sz: nat)
    ensures PGROUNDUP(sz) == 4096 * Pages(sz) && PGROUNDUP(sz) / 4096 == Pages(sz) && PGROUNDUP(sz) % 4096 == 0
    ensures sz <= MAXVA ==> Pages(sz) <= MAXVPN && PGROUNDUP(sz) <= MAXVA
  {
  }

  lemma PagesMonotone(a: nat, b: nat)
    requires a <= b
    ensures Pages(a) <= Pages(b)
  {
  }

  lemma PageAligned(kend: nat, mem: Mem, head: nat, free: seq<nat>, owner: map<nat, Owner>, roots: set<nat>, pa: nat)
    requires World(kend, mem, head, free, owner, roots) && pa in owner
    ensures IsPage(kend, pa) && pa != 0
  {
  }

  lemma LeavesAgree(mem: Mem, mem': Mem, roots: set<nat>)
    requires SameTrees(mem, mem', roots)
    ensures forall q, v :: q in roots && 0 <= v < MAXVPN ==> Leaf(mem', q, v) == Leaf(mem, q, v)
  {
  }

  /**
    A held page keeps its contents and its use while tables are taken; other pages keep theirs even
    when it is freed.
   */
  lemma HeldKept(mem: Mem, mem': Mem, owner: map<nat, Owner>, owner': map<nat, Owner>, root: nat, pa: nat)
    requires DataKept(mem, mem', owner) && TookTables(owner, owner', root) && pa in owner && owner[pa] == Held &&
            pa in mem
    ensures pa in owner' && owner'[pa] == Held && pa in mem' && mem'[pa] == mem[pa]
    ensures DataKept(mem, mem', owner[pa := Free])
  {
  }

  lemma FreedKept(mem: Mem, mem': Mem, owner: map<nat, Owner>, pa: nat, page: Page)
    requires DataKept(mem, mem', owner[pa := Free])
    ensures DataKept(mem, mem'[pa := page], owner[pa := Free])
  {
  }

  lemma TookFree(owner: map<nat, Owner>, owner': map<nat, Owner>, root: nat, pa: nat, use: Owner)
    requires TookTables(owner, owner', root) && pa in owner && owner[pa] == Held
    ensures TookTables(owner[pa := use], owner'[pa := use], root)
  {
  }

  /** A page held by the kernel and mapped somewhere can be handed over to that mapping. */
  lemma Adopt(kend: nat, mem: Mem, head: nat, free: seq<nat>, owner: map<nat, Owner>, roots: set<nat>, root: nat,
              vpn: nat, pa: nat)
    requires World(kend, mem, head, free, owner, roots) && root in roots && vpn < MAXVPN
    requires pa in owner && owner[pa] == Held && IsData(mem, pa)
    requires Ok(Leaf(mem, root, vpn)) && PTE2PA(Leaf(mem, root, vpn)) == pa
    ensures World(kend, mem, head, free, owner[pa := LeafOf(root, vpn)], roots)
    ensures OwnLeaf(mem, owner[pa := LeafOf(root, vpn)], root, vpn)
  {
    hide FreeList, TableAt, Leaf, PTE2PA;
    var owner' := owner[pa := LeafOf(root, vpn)];
    forall r | r in roots
      ensures TreeOk(mem, owner', r)
    {
      TreeKept(mem, mem, owner, owner', r);
    }
  }

  /** An empty table by itself is a tree that translates nothing. */
  lemma FreshRoot(mem: Mem, owner: map<nat, Owner>, roots: set<nat>, root: nat)
    requires TreesOk(mem, owner, roots) && TablesPlaced(mem, owner, roots) && LeavesPlaced(mem, owner, roots)
    requires root in owner && owner[root] == Held && root in mem && mem[root] == EmptyTable() && root != 0
    ensures root !in roots
    ensures var owner', roots' := owner[root := TableOf(root, 2, 0)], roots + {root};
            TreesOk(mem, owner', roots') && TablesPlaced(mem, owner', roots') && LeavesPlaced(mem, owner', roots')
    ensures forall v :: 0 <= v < MAXVPN ==> Leaf(mem, root, v) == 0
  {
    var owner', roots' := owner[root := TableOf(root, 2, 0)], roots + {root};
    if root in roots {
      TableOwner(mem, owner, root, 2, 0);
      assert false;
    }
    FreshTables(mem, root);
    forall r | r in roots'
      ensures TreeOk(mem, owner', r)
    {
      if r != root {
        TreeKept(mem, mem, owner, owner', r);
      }
    }
  }

  lemma FreshTables(mem: Mem, root: nat)
    requires root in mem && mem[root] == EmptyTable() && root != 0
    ensures forall level, key :: 0 <= level < 2 && 0 <= key < KeyBound(level) ==> TableAt(mem, root, level, key) == 0
    ensures forall v :: 0 <= v < MAXVPN ==> Leaf(mem, root, v) == 0
  {
    forall key | 0 <= key < KeyBound(1)
      ensures TableAt(mem, root, 1, key) == 0
    {
    }
    forall key | 0 <= key < KeyBound(0)
      ensures TableAt(mem, root, 0, key) == 0
    {
      assert TableAt(mem, root, 1, key / 512) == 0;
    }
  }

  /** A virtual page mapped to a page that it owns. */
  ghost predicate OwnLeaf(mem: Mem, owner: map<nat, Owner>, root: nat, vpn: nat) {
    Ok(Leaf(mem, root, vpn)) && PTE2PA(Leaf(mem, root, vpn)) in owner
    && owner[PTE2PA(Leaf(mem, root, vpn))] == LeafOf(root, vpn)
  }

  /** Ownership after the virtual pages `lo <= v < hi` have given up what they own. */
  ghost function Released(owner: map<nat, Owner>, root: nat, lo: nat, hi: nat): (o: map<nat, Owner>) {
    map p | p in owner :: if owner[p].LeafOf? && owner[p].root == root && lo <= owner[p].vpn < hi then Free
        else owner[p]
  }

  lemma LeafTable(mem: Mem, root: nat, vpn: nat)
    ensures Ok(Leaf(mem, root, vpn)) ==> TableAt(mem, root, 0, vpn / 512) != 0
  {
  }

  lemma TreesSame(mem: Mem, mem': Mem, roots: set<nat>, root: nat, key: nat)
    requires SameTrees(mem, mem', roots) && root in roots && key < KeyBound(0)
    ensures SameLeaves(mem, mem', roots) && TableAt(mem', root, 0, key) == TableAt(mem, root, 0, key)
  {
  }

  lemma DataKeptSame(m0: Mem, m1: Mem, m2: Mem, owner: map<nat, Owner>)
    requires DataKept(m0, m1, owner) && DataKept(m1, m2, owner)
    ensures DataKept(m0, m2, owner)
  {
  }

  lemma OwnLeafKept(mem: Mem, owner: map<nat, Owner>, mem': Mem, root: nat, lo: nat, vpn: nat)
    requires OwnLeaf(mem, owner, root, vpn) && Leaf(mem', root, vpn) == Leaf(mem, root, vpn)
    ensures OwnLeaf(mem', Released(owner, root, lo, vpn), root, vpn)
  {
  }

  /** What a virtual page gives up is the one page it owns. */
  lemma ReleasedOne(kend: nat, mem: Mem, head: nat, free: seq<nat>, owner0: map<nat, Owner>, owner: map<nat, Owner>,
                    roots: set<nat>,
                    root: nat, lo: nat, vpn: nat)
    requires World(kend, mem, head, free, owner, roots) && owner == Released(owner0, root, lo, vpn) && lo <= vpn
    requires OwnLeaf(mem, owner, root, vpn)
    ensures PTE2PA(Leaf(mem, root, vpn)) in owner && owner[PTE2PA(Leaf(mem, root, vpn))].LeafOf?
    ensures owner[PTE2PA(Leaf(mem, root, vpn)) := Free] == Released(owner0, root, lo, vpn + 1)
  {
    hide FreeList, TreesOk, TablesPlaced, Leaf, PTE2PA;
  }

  lemma ReleasedZero(owner: map<nat, Owner>, root: nat, lo: nat, vpn: nat)
    requires lo <= vpn && forall p :: p in owner ==> owner[p] != LeafOf(root, vpn)
    ensures Released(owner, root, lo, vpn + 1) == Released(owner, root, lo, vpn)
  {
  }

  lemma ReleasedOut(owner: map<nat, Owner>, root: nat, lo: nat, vpn: nat)
    requires lo <= vpn
    ensures var o := Released(owner, root, lo, vpn + 1); forall p :: p in o ==> o[p] != LeafOf(root, vpn)
  {
  }

  lemma ReleasedNone(owner: map<nat, Owner>, root: nat, lo: nat)
    ensures Released(owner, root, lo, lo) == owner
  {
  }

  /** perm | PTE_V */
  function WithV(perm: nat): (f: nat)
    ensures perm < 1024 ==> f < 1024
    ensures Ok(f) && f / 2 == perm / 2
  {
    if Ok(perm) then perm else perm + 1
  }

  /** The physical page behind a virtual page that user code may access, or 0. */
  function UserPa(mem: Mem, root: nat, vpn: nat): (pa: nat) {
    if vpn < MAXVPN && Ok(Leaf(mem, root, vpn)) && Has(Leaf(mem, root, vpn), PTE_U) then PTE2PA(Leaf(mem, root, vpn))
        else 0
  }

  lemma NothingMapped(mem: Mem, owner: map<nat, Owner>, root: nat)
    ensures TookTables(owner, owner, root) && DataKept(mem, mem, owner)
  {
  }

  /** An unmapped virtual page owns nothing. */
  lemma NotOwnedLeaf(kend: nat, mem: Mem, head: nat, free: seq<nat>, owner: map<nat, Owner>, roots: set<nat>,
                     root: nat, vpn: nat)
    requires World(kend, mem, head, free, owner, roots) && !Ok(Leaf(mem, root, vpn))
    ensures forall p :: p in owner ==> owner[p] != LeafOf(root, vpn)
  {
  }

  lemma LeavesOfTrees(mem: Mem, mem': Mem, roots: set<nat>)
    requires SameTrees(mem, mem', roots)
    ensures SameLeaves(mem, mem', roots)
  {
  }

  lemma RoomKept(m0: Mem, m1: Mem, m2: Mem, roots: set<nat>, root: nat, level: nat, key: nat)
    requires SameTrees(m0, m1, roots) && SameTrees(m1, m2, roots) && root in roots && Room(m0, root, level, key)
    ensures Room(m2, root, level, key) &&
            TableAt(m2, root, level + 1, key / 512) == TableAt(m0, root, level + 1, key / 512)
  {
    assert key / 512 < KeyBound(level + 1);
  }

  lemma InRoots(mem: Mem, owner: map<nat, Owner>, roots: set<nat>, root: nat, level: nat, key: nat)
    requires TreesOk(mem, owner, roots) && root in roots && level <= 2 && key < KeyBound(level)
    requires TableAt(mem, root, level, key) != 0
    ensures var t := TableAt(mem, root, level, key);
            IsTable(mem, t) && t in owner && owner[t] == TableOf(root, level, key)
  {
    TableOwner(mem, owner, root, level, key);
  }

  lemma HeldPage(kend: nat, mem: Mem, head: nat, free: seq<nat>, t: nat)
    requires FreeList(kend, mem, head, free) && t in mem
    ensures IsPage(kend, t)
  {
  }

  lemma RootTable(mem: Mem, owner: map<nat, Owner>, roots: set<nat>, root: nat, vpn: nat)
    requires TreesOk(mem, owner, roots) && root in roots
    ensures root != 0 && Key(2, vpn) == 0
  {
  }

  lemma KeyOfLeaf(vpn: nat)
    requires vpn < MAXVPN
    ensures Key(0, vpn) == vpn / 512 && Key(0, vpn) < KeyBound(0)
  {
  }

  /** One step down: the key gains nine bits, which are the index used. */
  lemma KeyStep(va: nat, level: nat)
    requires va < MAXVA && 0 < level <= 2
    ensures var v := va / 4096;
            && Key(level, v) < KeyBound(level) && Key(level - 1, v) < KeyBound(level - 1)
            && Key(level - 1, v) / 512 == Key(level, v) && Key(level - 1, v) % 512 == PX(level, va)
  {
    WalkIndices(va);
  }

  /** A valid entry of an upper-level table leads to the next table. */
  lemma ChildTable(kend: nat, mem: Mem, head: nat, free: seq<nat>, owner: map<nat, Owner>, roots: set<nat>,
                   root: nat, level: nat, key: nat)
    requires World(kend, mem, head, free, owner, roots) && root in roots && 0 < level <= 2 && key < KeyBound(level - 1)
    requires TableAt(mem, root, level, key / 512) != 0 && Ok(Pte(mem, TableAt(mem, root, level, key / 512), key % 512))
    ensures TableAt(mem, root, level - 1, key) == PTE2PA(Pte(mem, TableAt(mem, root, level, key / 512), key % 512)) != 0
  {
  }

  lemma NoTableBelow(mem: Mem, root: nat, level: nat, vpn: nat)
    requires level < 2 && vpn < MAXVPN && TableAt(mem, root, level, Key(level, vpn)) == 0
    ensures TableAt(mem, root, 0, vpn / 512) == 0
  {
    if level == 1 {
      assert vpn / 512 / 512 == vpn / 0x4_0000;
    }
  }

  lemma SameTreesRefl(mem: Mem, roots: set<nat>)
    ensures SameTrees(mem, mem, roots)
  {
  }

  lemma FreePages(kend: nat, mem: Mem, head: nat, free: seq<nat>)
    requires FreeList(kend, mem, head, free)
    ensures kend > 0 && forall p :: IsPage(kend, p) <==> p in mem
    ensures forall p :: p in free ==> p in mem
  {
  }

  lemma Popped(free: seq<nat>, pa: nat)
    requires free != [] && pa == free[0] && pa !in free[1..]
    ensures forall p :: p in free[1..] <==> p in free && p != pa
  {
    assert free == [free[0]] + free[1..];
  }
}
