/**
  `freewalk` of `kernel/vm.c`: the recursion that frees the page-table pages of a tree
  from which all leaves have been removed.
 */
module Freewalk {
  import opened Riscv
  import opened Kalloc
  import opened PageTable

  /** The pages of the part of a tree that hangs below one of its tables, with that table. */
  ghost function Subtree(mem: Mem, root: nat, level: nat, key: nat): (s: set<nat>)
    decreases level, 513
  {
    var t := TableAt(mem, root, level, key);
    if t == 0 then {} else {t} + (if level == 0 then {} else Below(mem, root, level, key, 512))
  }

  /** The parts below the first `n` entries of a table. */
  ghost function Below(mem: Mem, root: nat, level: nat, key: nat, n: nat): (s: set<nat>)
    requires level > 0
    decreases level, n
  {
    if n == 0 then {} else Below(mem, root, level, key, n - 1) + Subtree(mem, root, level - 1, 512 * key + n - 1)
  }

  /** The position `d` levels up. */
  function Up(key: nat, d: nat): (k: nat) {
    if d == 0 then key else Up(key / 512, d - 1)
  }

  lemma UpStep(key: nat, d: nat)
    requires d > 0
    ensures Up(key, d) == Up(key, d - 1) / 512
    decreases d
  {
    if d > 1 {
      UpStep(key / 512, d - 1);
    }
  }

  /** A page lies in the subtree of `level`, `key` when its place in the tree is below that one. */
  ghost predicate Under(o: Owner, root: nat, level: nat, key: nat) {
    o.TableOf? && o.root == root && o.level <= level && Up(o.key, level - o.level) == key
  }

  lemma UnderUp(o: Owner, root: nat, level: nat, key: nat, i: nat)
    requires level > 0 && i < 512 && Under(o, root, level - 1, 512 * key + i)
    ensures Under(o, root, level, key)
  {
    UpStep(o.key, level - o.level);
  }

  lemma {:induction false} SubtreePlaces(mem: Mem, owner: map<nat, Owner>, root: nat, level: nat, key: nat, p: nat)
    requires TreeOk(mem, owner, root) && level <= 2 && key < KeyBound(level)
    requires p in Subtree(mem, root, level, key)
    ensures p in owner && Under(owner[p], root, level, key)
    decreases level, 513
  {
    var t := TableAt(mem, root, level, key);
    if p != t {
      var i := BelowPlaces(mem, owner, root, level, key, 512, p);
    }
  }

  lemma {:induction false} BelowPlaces(mem: Mem, owner: map<nat, Owner>, root: nat, level: nat, key: nat, n: nat,
                                       p: nat) returns (i: nat)
    requires TreeOk(mem, owner, root) && 0 < level <= 2 && key < KeyBound(level) && n <= 512
    requires p in Below(mem, root, level, key, n)
    ensures i < n && p in owner && Under(owner[p], root, level - 1, 512 * key + i) && Under(owner[p], root, level, key)
    decreases level, n
  {
    hide TreeOk, TableAt, Up, Below, Subtree, Under;
    BelowStep(mem, root, level, key, n);
    if p in Subtree(mem, root, level - 1, 512 * key + n - 1) {
      i := n - 1;
      if 512 * key + i >= KeyBound(level - 1) {
        OutOfBounds(mem, owner, root, level, key, i);
        assert false;
      }
      SubtreePlaces(mem, owner, root, level - 1, 512 * key + i, p);
      UnderUp(owner[p], root, level, key, i);
    } else {
      i := BelowPlaces(mem, owner, root, level, key, n - 1, p);
    }
  }

  lemma BelowStep(mem: Mem, root: nat, level: nat, key: nat, n: nat)
    requires level > 0
    ensures Below(mem, root, level, key, n)
            == if n == 0 then {}
                else Below(mem, root, level, key, n - 1) + Subtree(mem, root, level - 1, 512 * key + n - 1)
  {
  }

  lemma SubtreeStep(mem: Mem, root: nat, level: nat, key: nat)
    requires TableAt(mem, root, level, key) != 0
    ensures Subtree(mem, root, level, key)
            == {TableAt(mem, root, level, key)} + (if level == 0 then {} else Below(mem, root, level, key, 512))
  {
  }

  /** The unused half of the root has no subtrees. */
  lemma OutOfBounds(mem: Mem, owner: map<nat, Owner>, root: nat, level: nat, key: nat, i: nat)
    requires TreeOk(mem, owner, root) && 0 < level <= 2 && key < KeyBound(level) && i < 512
    requires 512 * key + i >= KeyBound(level - 1)
    ensures Subtree(mem, root, level - 1, 512 * key + i) == {}
  {
    assert level == 2 && key == 0;
    assert !Ok(Pte(mem, root, i));
    assert TableAt(mem, root, 1, i) == 0;
  }

  /** Subtrees under different entries share no page. */
  lemma SubtreesApart(mem: Mem, owner: map<nat, Owner>, root: nat, level: nat, key: nat, i: nat, p: nat)
    requires TreeOk(mem, owner, root) && 0 < level <= 2 && key < KeyBound(level) && i < 512
    requires p in Subtree(mem, root, level - 1, 512 * key + i)
    ensures p !in Below(mem, root, level, key, i)
    ensures p == TableAt(mem, root, level, key) ==> p == 0
    ensures p in owner && Under(owner[p], root, level, key)
  {
    hide TreeOk, TableAt, Up, Subtree, Below;
    if 512 * key + i >= KeyBound(level - 1) {
      OutOfBounds(mem, owner, root, level, key, i);
      assert false;
    }
    SubtreePlaces(mem, owner, root, level - 1, 512 * key + i, p);
    UnderUp(owner[p], root, level, key, i);
    if p in Below(mem, root, level, key, i) {
      var j := BelowPlaces(mem, owner, root, level, key, i, p);
    }
    if p == TableAt(mem, root, level, key) != 0 {
      TableOwner(mem, owner, root, level, key);
    }
  }

  /** Every table of the tree is in the subtree of each table above it. */
  lemma {:induction false} InSubtree(mem: Mem, owner: map<nat, Owner>, root: nat, l: nat, k: nat, d: nat)
    requires TreeOk(mem, owner, root) && l + d <= 2 && k < KeyBound(l) && TableAt(mem, root, l, k) != 0
    ensures Up(k, d) < KeyBound(l + d) && TableAt(mem, root, l, k) in Subtree(mem, root, l + d, Up(k, d))
    decreases d
  {
    hide TreeOk, TableAt, Below;
    if d > 0 {
      InSubtree(mem, owner, root, l, k, d - 1);
      UpStep(k, d);
      var j := Up(k, d - 1);
      var level := l + d;
      TableAbove(mem, root, l, k, d - 1);
      assert j == 512 * (j / 512) + j % 512;
      InBelow(mem, root, level, j / 512, j % 512, TableAt(mem, root, l, k));
    }
  }

  lemma {:induction false} TableAbove(mem: Mem, root: nat, l: nat, k: nat, d: nat)
    requires l + d <= 2 && TableAt(mem, root, l, k) != 0
    ensures TableAt(mem, root, l + d, Up(k, d)) != 0
    ensures l + d < 2 ==> TableAt(mem, root, l + d + 1, Up(k, d) / 512) != 0
    decreases d
  {
    if d > 0 {
      TableAbove(mem, root, l, k, d - 1);
      UpStep(k, d);
    }
  }

  lemma {:induction false} InBelow(mem: Mem, root: nat, level: nat, key: nat, i: nat, p: nat)
    requires level > 0 && i < 512 && p in Subtree(mem, root, level - 1, 512 * key + i)
    requires TableAt(mem, root, level, key) != 0
    ensures p in Subtree(mem, root, level, key)
  {
    BelowGrows(mem, root, level, key, i + 1, 512);
  }

  lemma {:induction false} BelowGrows(mem: Mem, root: nat, level: nat, key: nat, n: nat, m: nat)
    requires level > 0 && n <= m
    ensures Below(mem, root, level, key, n) <= Below(mem, root, level, key, m)
    decreases m
  {
    if n < m {
      BelowGrows(mem, root, level, key, n, m - 1);
    }
  }

  /** The whole tree: exactly the pages owned as its tables. */
  lemma WholeTree(mem: Mem, owner: map<nat, Owner>, roots: set<nat>, root: nat)
    requires TreesOk(mem, owner, roots) && TablesPlaced(mem, owner, roots) && root in roots
    ensures forall p :: p in Subtree(mem, root, 2, 0) <==> p in owner && owner[p].TableOf? && owner[p].root == root
  {
    assert TreeOk(mem, owner, root);
    forall p | p in owner && owner[p].TableOf? && owner[p].root == root
      ensures p in Subtree(mem, root, 2, 0)
    {
      InSubtree(mem, owner, root, owner[p].level, owner[p].key, 2 - owner[p].level);
    }
    forall p | p in Subtree(mem, root, 2, 0)
      ensures p in owner && owner[p].TableOf? && owner[p].root == root
    {
      SubtreePlaces(mem, owner, root, 2, 0, p);
    }
  }

  /** pte & (PTE_R | PTE_W | PTE_X) is zero. */
  predicate NoRwx(pte: nat) { pte / 2 % 8 == 0 }

  lemma PointerNoRwx(pte: nat)
    requires PTE_FLAGS(pte) == PTE_V
    ensures Ok(pte) && NoRwx(pte)
  {
    assert pte == 1024 * (pte / 1024) + 1;
    assert pte / 2 == 512 * (pte / 1024);
    assert 512 * (pte / 1024) == 8 * (64 * (pte / 1024));
  }

  /** An entry of a table and the subtree it leads to. */
  lemma EntryBelow(mem: Mem, owner: map<nat, Owner>, root: nat, level: nat, key: nat, i: nat)
    requires TreeOk(mem, owner, root) && 0 < level <= 2 && key < KeyBound(level) && i < 512
    requires TableAt(mem, root, level, key) != 0
    ensures var pte := Pte(mem, TableAt(mem, root, level, key), i);
            && (!Ok(pte) ==> Subtree(mem, root, level - 1, 512 * key + i) == {})
            && (Ok(pte) ==>
                  && NoRwx(pte) && 512 * key + i < KeyBound(level - 1)
                  && TableAt(mem, root, level - 1, 512 * key + i) == PTE2PA(pte) != 0)
  {
    hide TreeOk, Below, PTE2PA, PTE_FLAGS;
    assert (512 * key + i) / 512 == key && (512 * key + i) % 512 == i;
    TableOwner(mem, owner, root, level, key);
    var pte := Pte(mem, TableAt(mem, root, level, key), i);
    if Ok(pte) {
      PointerNoRwx(pte);
      if 512 * key + i >= KeyBound(level - 1) {
        UpperEntry(mem, owner, root, i);
      }
    }
  }

  lemma UpperEntry(mem: Mem, owner: map<nat, Owner>, root: nat, i: nat)
    requires TreeOk(mem, owner, root) && 256 <= i < 512
    ensures !Ok(Pte(mem, root, i))
  {
  }

  lemma ChildApart(mem: Mem, owner: map<nat, Owner>, root: nat, level: nat, key: nat, i: nat)
    requires TreeOk(mem, owner, root) && 0 < level <= 2 && key < KeyBound(level) && i < 512
    requires TableAt(mem, root, level, key) != 0
    ensures forall p :: p in Subtree(mem, root, level - 1, 512 * key + i) ==>
              p !in Below(mem, root, level, key, i) && p != TableAt(mem, root, level, key) &&
                  p in Subtree(mem, root, level, key)
  {
    hide TreeOk, TableAt, Below, Subtree;
    forall p | p in Subtree(mem, root, level - 1, 512 * key + i)
      ensures p !in Below(mem, root, level, key, i) && p != TableAt(mem, root, level, key) &&
              p in Subtree(mem, root, level, key)
    {
      SubtreesApart(mem, owner, root, level, key, i, p);
      InBelow(mem, root, level, key, i, p);
    }
  }

  lemma InManaged(kend: nat, mem: Mem, head: nat, free: seq<nat>, t: nat)
    requires FreeList(kend, mem, head, free) && t in mem
    ensures IsPage(kend, t)
  {
  }

  /**
    Free the table `t` and all tables below it.  `m0` is the memory before anything was freed;
    as long as the recursion runs, the pages still to be freed are as they were in it.
   */
  method FreeTables(k: Kmem, t: nat, ghost m0: Mem, ghost owner: map<nat, Owner>, ghost root: nat, ghost level: nat,
                    ghost key: nat)
    requires k.Valid() && TreeOk(m0, owner, root) && level <= 2 && key < KeyBound(level)
    requires t == TableAt(m0, root, level, key) != 0
    requires forall q, i :: 0 <= q < KeyBound(0) && 0 <= i < 512 && TableAt(m0, root, 0, q) != 0 ==>
               !Ok(Pte(m0, TableAt(m0, root, 0, q), i))          // otherwise: panic "freewalk: leaf"
    requires forall p :: p in Subtree(m0, root, level, key) ==>
            p in m0 && p in k.mem && k.mem[p] == m0[p] && p !in k.free
    modifies k
    ensures k.Valid() && k.mem.Keys == old(k.mem.Keys)
    ensures forall p :: p in k.free <==> p in old(k.free) || p in Subtree(m0, root, level, key)
    ensures forall p :: p in k.mem && p !in Subtree(m0, root, level, key) ==> k.mem[p] == old(k.mem[p])
    decreases level
  {
    hide FreeList, TreeOk, TableAt, Below, Subtree, Pointers, PTE2PA, PTE_FLAGS, NoRwx;
    TableOwner(m0, owner, root, level, key);
    SubtreeStep(m0, root, level, key);
    ghost var done: set<nat> := {};
    if level > 0 {
      BelowStep(m0, root, level, key, 0);
    }
    var i := 0;
    while i < 512
      invariant 0 <= i <= 512 && k.Valid() && k.mem.Keys == old(k.mem.Keys)
      invariant done == if level == 0 then {} else Below(m0, root, level, key, i)
      invariant forall p :: p in k.free <==> p in old(k.free) || p in done
      invariant forall p :: p in k.mem && p !in done && p != t ==> k.mem[p] == old(k.mem[p])
      invariant t !in done && t in k.mem && k.mem[t].Table? && |k.mem[t].ptes| == 512
      invariant forall j :: i <= j < 512 ==> k.mem[t].ptes[j] == Pte(m0, t, j)
    {
      var pte := k.mem[t].ptes[i];
      if level == 0 {
        assert !Ok(Pte(m0, TableAt(m0, root, 0, key), i));
      } else {
        BelowStep(m0, root, level, key, i + 1);
        EntryBelow(m0, owner, root, level, key, i);
      }
      if Ok(pte) && NoRwx(pte) {
        var child := PTE2PA(pte);
        ChildApart(m0, owner, root, level, key, i);
        FreeTables(k, child, m0, owner, root, level - 1, 512 * key + i);
        InManaged(k.kend, k.mem, k.freelist, k.free, t);
        WriteUsed(k.kend, k.mem, k.freelist, k.free, t, Table(k.mem[t].ptes[i := 0]));
        k.mem := k.mem[t := Table(k.mem[t].ptes[i := 0])];
        done := done + Subtree(m0, root, level - 1, 512 * key + i);
      } else {
        assert !Ok(pte);                                 // otherwise: panic "freewalk: leaf"
      }
      i := i + 1;
    }
    InManaged(k.kend, k.mem, k.freelist, k.free, t);
    k.Kfree(t);
  }
}
