/**
  Sv39 page-table trees in physical memory, what they mean as flat maps from virtual
  pages to entries, and who owns each physical page.
 */
module PageTable {
  import opened Riscv
  import opened Kalloc

  type Mem = map<nat, Page>

  /** The use of a physical page. `Held` pages have been allocated and are in the hands of the kernel. */
  datatype Owner = Free | Held | TableOf(root: nat, level: nat, key: nat) | LeafOf(root: nat, vpn: nat)

  predicate Ok(pte: nat) { pte % 2 == 1 }

  function Pte(mem: Mem, pa: nat, i: nat): (x: nat) {
    if pa in mem && mem[pa].Table? && i < |mem[pa].ptes| then mem[pa].ptes[i] else 0
  }

  function Child(pte: nat): (pa: nat) { if Ok(pte) then PTE2PA(pte) else 0 }

  /** The table of a tree at a level (2 is the root) and position, or 0. */
  function TableAt(mem: Mem, root: nat, level: nat, key: nat): (pa: nat)
    decreases 2 - level
  {
    if level >= 2 then root
    else
      var up := TableAt(mem, root, level + 1, key / 512);
      if up == 0 then 0 else Child(Pte(mem, up, key % 512))
  }

  /** The entry for a virtual page: the flat map a tree stands for. */
  function Leaf(mem: Mem, root: nat, vpn: nat): (pte: nat) {
    var low := TableAt(mem, root, 0, vpn / 512);
    if low == 0 then 0 else Pte(mem, low, vpn % 512)
  }

  /**
    What the hardware finds for a virtual address in a tree of three levels: nine bits of the address
    index each table, and a valid entry names the next one by its page number.
   */
  function HardwareEntry(mem: Mem, root: nat, va: nat): (pte: nat) {
    var e2 := Pte(mem, root, va / 0x4000_0000 % 512);
    if e2 % 2 == 0 then 0
    else
      var e1 := Pte(mem, e2 / 1024 * 4096, va / 0x20_0000 % 512);
      if e1 % 2 == 0 then 0 else Pte(mem, e1 / 1024 * 4096, va / 0x1000 % 512)
  }

  /** The flat map says the same. */
  lemma LeafIsHardware(mem: Mem, root: nat, va: nat)
    requires va < MAXVA && root != 0 && 0 !in mem
    ensures Leaf(mem, root, va / 4096) == HardwareEntry(mem, root, va)
  {
    WalkIndices(va);
    var v := va / 4096;
    assert v % 512 == PX(0, va) && v / 512 % 512 == PX(1, va) && v / 512 / 512 % 512 == PX(2, va);
    assert TableAt(mem, root, 2, v / 512 / 512 / 512) == root;
    var t1 := TableAt(mem, root, 1, v / 512 / 512);
    assert t1 == Child(Pte(mem, root, PX(2, va)));
    assert TableAt(mem, root, 0, v / 512) == if t1 == 0 then 0 else Child(Pte(mem, t1, PX(1, va)));
  }

  /** Positions at a level. MAXVA is half of what Sv39 allows, so the upper half of a root is never used. */
  function KeyBound(level: nat): (n: nat) {
    if level == 0 then 0x2_0000 else if level == 1 then 256 else 1
  }

  ghost predicate UpperUnused(mem: Mem, root: nat) {
    forall i :: 256 <= i < 512 ==> !Ok(Pte(mem, root, i))
  }

  ghost predicate IsTable(mem: Mem, pa: nat) {
    pa in mem && mem[pa].Table? && |mem[pa].ptes| == 512
  }

  ghost predicate IsData(mem: Mem, pa: nat) {
    pa in mem && mem[pa].Data? && |mem[pa].bytes| == PGSIZE
  }

  /** Entries of the upper levels carry no flag but V, which is what makes them pointers, and are not null. */
  ghost predicate Pointers(mem: Mem, pa: nat) {
    forall i :: 0 <= i < 512 && Ok(Pte(mem, pa, i)) ==>
        PTE_FLAGS(Pte(mem, pa, i)) == PTE_V && PTE2PA(Pte(mem, pa, i)) != 0
  }

  /** Every table of the tree is a page of its own. */
  ghost predicate TreeOk(mem: Mem, owner: map<nat, Owner>, root: nat) {
    && root != 0
    && UpperUnused(mem, root)
    && forall level, key :: 0 <= level <= 2 && 0 <= key < KeyBound(level) && TableAt(mem, root, level, key) != 0 ==>
         var t := TableAt(mem, root, level, key);
         IsTable(mem, t) && t in owner && owner[t] == TableOf(root, level, key) && (level > 0 ==> Pointers(mem, t))
  }

  /** Pages owned as tables are tables, each at its place. */
  ghost predicate TablesPlaced(mem: Mem, owner: map<nat, Owner>, roots: set<nat>) {
    forall p :: p in owner && owner[p].TableOf? ==>
      var o := owner[p];
      p != 0 && o.root in roots && o.level <= 2 && o.key < KeyBound(o.level) &&
          TableAt(mem, o.root, o.level, o.key) == p
  }

  ghost predicate TreesOk(mem: Mem, owner: map<nat, Owner>, roots: set<nat>) {
    forall r :: r in roots ==> TreeOk(mem, owner, r)
  }

  /** Pages owned by a virtual page are data pages, mapped there. */
  ghost predicate LeavesPlaced(mem: Mem, owner: map<nat, Owner>, roots: set<nat>) {
    forall p :: p in owner && owner[p].LeafOf? ==>
      var o := owner[p];
      o.root in roots && o.vpn < MAXVPN && Ok(Leaf(mem, o.root, o.vpn)) && PTE2PA(Leaf(mem, o.root, o.vpn)) == p &&
          IsData(mem, p)
  }

  /** Every managed page has exactly one use, and the free ones are on the free list. */
  ghost predicate Accounted(mem: Mem, free: seq<nat>, owner: map<nat, Owner>) {
    && owner.Keys == mem.Keys
    && forall p :: p in owner ==> (owner[p] == Free <==> p in free)
  }

  ghost predicate World(kend: nat, mem: Mem, head: nat, free: seq<nat>, owner: map<nat, Owner>, roots: set<nat>) {
    && FreeList(kend, mem, head, free)
    && Accounted(mem, free, owner)
    && TreesOk(mem, owner, roots)
    && TablesPlaced(mem, owner, roots)
    && LeavesPlaced(mem, owner, roots)
  }

  /** No tree has changed: neither its tables nor any translation. */
  ghost predicate SameTrees(mem: Mem, mem': Mem, roots: set<nat>) {
    && (forall r, level, key :: r in roots && 0 <= level <= 2 && 0 <= key < KeyBound(level) ==>
          TableAt(mem', r, level, key) == TableAt(mem, r, level, key))
    && SameLeaves(mem, mem', roots)
  }

  ghost predicate SameLeaves(mem: Mem, mem': Mem, roots: set<nat>) {
    forall r, v :: r in roots && 0 <= v < MAXVPN ==> Leaf(mem', r, v) == Leaf(mem, r, v)
  }

  /** A table seen from its parent. */
  lemma TableBelow(mem: Mem, owner: map<nat, Owner>, root: nat, level: nat, key: nat)
    requires TreeOk(mem, owner, root) && level < 2 && key < KeyBound(level)
    ensures key / 512 < KeyBound(level + 1)
    ensures var up := TableAt(mem, root, level + 1, key / 512);
            && TableAt(mem, root, level, key) == (if up == 0 then 0 else Child(Pte(mem, up, key % 512)))
            && (up != 0 ==>
                  && IsTable(mem, up) && up in owner && owner[up] == TableOf(root, level + 1, key / 512)
                  && Pointers(mem, up))
  {
  }

  // ---------------------------------------------------------------------------
  // Changes that touch no table
  // ---------------------------------------------------------------------------

  ghost predicate TablesUntouched(mem: Mem, mem': Mem, owner: map<nat, Owner>) {
    forall p :: p in owner && owner[p].TableOf? && p in mem ==> p in mem' && mem'[p] == mem[p]
  }

  /** Trees depend on table pages only. */
  lemma TreesStable(mem: Mem, mem': Mem, owner: map<nat, Owner>, roots: set<nat>)
    requires TreesOk(mem, owner, roots)
    requires TablesUntouched(mem, mem', owner)
    ensures SameTrees(mem, mem', roots)
  {
    forall r, level, key | r in roots && 0 <= level <= 2 && 0 <= key < KeyBound(level)
      ensures TableAt(mem', r, level, key) == TableAt(mem, r, level, key)
    {
      TableStable(mem, mem', owner, r, level, key);
    }
    forall r, v | r in roots && 0 <= v < MAXVPN
      ensures Leaf(mem', r, v) == Leaf(mem, r, v)
    {
      TableStable(mem, mem', owner, r, 0, v / 512);
    }
  }

  lemma {:induction false} TableStable(mem: Mem, mem': Mem, owner: map<nat, Owner>, root: nat, level: nat, key: nat)
    requires TreeOk(mem, owner, root) && level <= 2 && key < KeyBound(level)
    requires TablesUntouched(mem, mem', owner)
    ensures TableAt(mem', root, level, key) == TableAt(mem, root, level, key)
    ensures var t := TableAt(mem, root, level, key); t != 0 ==> t in mem && t in mem' && mem'[t] == mem[t]
    decreases 2 - level
  {
    if level < 2 {
      TableBelow(mem, owner, root, level, key);
      TableStable(mem, mem', owner, root, level + 1, key / 512);
    }
  }

  /** Changing the contents and the use of one page that is no table, and owned by no mapping afterwards. */
  lemma ChangePage(mem: Mem, owner: map<nat, Owner>, roots: set<nat>, pa: nat, page: Page, use: Owner)
    requires TreesOk(mem, owner, roots) && TablesPlaced(mem, owner, roots) && LeavesPlaced(mem, owner, roots)
    requires pa in owner && !owner[pa].TableOf? && (use == Free || use == Held)
    ensures var mem', owner' := mem[pa := page], owner[pa := use];
            && SameTrees(mem, mem', roots)
            && TreesOk(mem', owner', roots) && TablesPlaced(mem', owner', roots) && LeavesPlaced(mem', owner', roots)
  {
    var mem', owner' := mem[pa := page], owner[pa := use];
    TreesStable(mem, mem', owner, roots);
    forall r | r in roots
      ensures TreeOk(mem', owner', r)
    {
      TreeKept(mem, mem', owner, owner', r);
    }
  }

  /** A tree whose tables keep their contents and their use stays a tree. */
  lemma TreeKept(mem: Mem, mem': Mem, owner: map<nat, Owner>, owner': map<nat, Owner>, r: nat)
    requires TreeOk(mem, owner, r) && TablesUntouched(mem, mem', owner)
    requires forall p :: p in owner && owner[p].TableOf? ==> p in owner' && owner'[p] == owner[p]
    ensures TreeOk(mem', owner', r)
  {
    TableStable(mem, mem', owner, r, 2, 0);
    assert UpperUnused(mem', r) by {
      assert TableAt(mem, r, 2, 0) == r;
      assert forall i :: 256 <= i < 512 ==> Pte(mem', r, i) == Pte(mem, r, i);
    }
    forall level, key | 0 <= level <= 2 && 0 <= key < KeyBound(level) && TableAt(mem', r, level, key) != 0
      ensures var t := TableAt(mem', r, level, key);
              IsTable(mem', t) && t in owner' && owner'[t] == TableOf(r, level, key) && (level > 0 ==>
                  Pointers(mem', t))
    {
      TableStable(mem, mem', owner, r, level, key);
      var t := TableAt(mem, r, level, key);
      if level > 0 {
        PointersKept(mem, mem', t);
      }
    }
  }

  lemma PointersKept(mem: Mem, mem': Mem, t: nat)
    requires Pointers(mem, t) && t in mem && t in mem' && mem'[t] == mem[t]
    ensures Pointers(mem', t)
  {
    assert forall i :: 0 <= i < 512 ==> Pte(mem', t, i) == Pte(mem, t, i);
  }

  // ---------------------------------------------------------------------------
  // Writing an entry
  // ---------------------------------------------------------------------------

  function SetPte(mem: Mem, t: nat, i: nat, pte: nat): (mem': Mem)
    requires t in mem && mem[t].Table? && i < |mem[t].ptes|
  {
    mem[t := Table(mem[t].ptes[i := pte])]
  }

  lemma PteSet(mem: Mem, t: nat, i: nat, pte: nat, p: nat, j: nat)
    requires IsTable(mem, t) && i < 512
    ensures Pte(SetPte(mem, t, i, pte), p, j) == if p == t && j == i then pte else Pte(mem, p, j)
  {
  }

  /** A table is reached from one place only. */
  lemma OnePlace(mem: Mem, owner: map<nat, Owner>, roots: set<nat>, r: nat, level: nat, key: nat, r': nat, level': nat,
                 key': nat)
    requires TreesOk(mem, owner, roots) && r in roots && r' in roots
    requires level <= 2 && key < KeyBound(level) && level' <= 2 && key' < KeyBound(level')
    requires TableAt(mem, r, level, key) == TableAt(mem, r', level', key') != 0
    ensures r == r' && level == level' && key == key'
  {
  }

  /** Writing an entry of a lowest-level table changes one translation of one tree. */
  lemma SetLeafTables(mem: Mem, owner: map<nat, Owner>, roots: set<nat>, root: nat, vpn: nat, pte: nat, r: nat,
                      level: nat, key: nat)
    requires TreesOk(mem, owner, roots) && root in roots && vpn < MAXVPN && TableAt(mem, root, 0, vpn / 512) != 0
    requires r in roots && level <= 2 && key < KeyBound(level)
    ensures var mem' := SetPte(mem, TableAt(mem, root, 0, vpn / 512), vpn % 512, pte);
            TableAt(mem', r, level, key) == TableAt(mem, r, level, key)
    decreases 2 - level
  {
    var t := TableAt(mem, root, 0, vpn / 512);
    if level < 2 {
      assert TreeOk(mem, owner, r);
      TableBelow(mem, owner, r, level, key);
      SetLeafTables(mem, owner, roots, root, vpn, pte, r, level + 1, key / 512);
      var up := TableAt(mem, r, level + 1, key / 512);
      PteSet(mem, t, vpn % 512, pte, up, key % 512);
    }
  }

  lemma SetLeafReads(mem: Mem, owner: map<nat, Owner>, roots: set<nat>, root: nat, vpn: nat, pte: nat, r: nat, v: nat)
    requires TreesOk(mem, owner, roots) && root in roots && vpn < MAXVPN && TableAt(mem, root, 0, vpn / 512) != 0
    requires r in roots && v < MAXVPN
    ensures var mem' := SetPte(mem, TableAt(mem, root, 0, vpn / 512), vpn % 512, pte);
            Leaf(mem', r, v) == if r == root && v == vpn then pte else Leaf(mem, r, v)
  {
    var t := TableAt(mem, root, 0, vpn / 512);
    SetLeafTables(mem, owner, roots, root, vpn, pte, r, 0, v / 512);
    var low := TableAt(mem, r, 0, v / 512);
    PteSet(mem, t, vpn % 512, pte, low, v % 512);
    if low == t {
      OnePlace(mem, owner, roots, root, 0, vpn / 512, r, 0, v / 512);
      assert v == 512 * (v / 512) + v % 512 && vpn == 512 * (vpn / 512) + vpn % 512;
    }
  }

  lemma SetLeaf(mem: Mem, owner: map<nat, Owner>, roots: set<nat>, root: nat, vpn: nat, pte: nat)
    requires TreesOk(mem, owner, roots) && TablesPlaced(mem, owner, roots) && LeavesPlaced(mem, owner, roots)
    requires root in roots && vpn < MAXVPN && TableAt(mem, root, 0, vpn / 512) != 0
    requires forall p :: p in owner ==> owner[p] != LeafOf(root, vpn)
    ensures var mem' := SetPte(mem, TableAt(mem, root, 0, vpn / 512), vpn % 512, pte);
            && TreesOk(mem', owner, roots) && TablesPlaced(mem', owner, roots) && LeavesPlaced(mem', owner, roots)
            && (forall r, level, key :: r in roots && 0 <= level <= 2 && 0 <= key < KeyBound(level) ==>
                  TableAt(mem', r, level, key) == TableAt(mem, r, level, key))
            && (forall r, v :: r in roots && 0 <= v < MAXVPN ==>
                  Leaf(mem', r, v) == if r == root && v == vpn then pte else Leaf(mem, r, v))
  {
    hide TableAt, Leaf, TreeOk, PTE2PA;
    var t := TableAt(mem, root, 0, vpn / 512);
    TableOwner(mem, owner, root, 0, vpn / 512);
    var mem' := SetPte(mem, t, vpn % 512, pte);
    forall r, level, key | r in roots && 0 <= level <= 2 && 0 <= key < KeyBound(level)
      ensures TableAt(mem', r, level, key) == TableAt(mem, r, level, key)
    {
      SetLeafTables(mem, owner, roots, root, vpn, pte, r, level, key);
    }
    forall r, v | r in roots && 0 <= v < MAXVPN
      ensures Leaf(mem', r, v) == if r == root && v == vpn then pte else Leaf(mem, r, v)
    {
      SetLeafReads(mem, owner, roots, root, vpn, pte, r, v);
    }
    forall r | r in roots
      ensures TreeOk(mem', owner, r)
    {
      SetLeafTree(mem, owner, roots, root, vpn, pte, r);
    }
  }

  lemma TableOwner(mem: Mem, owner: map<nat, Owner>, root: nat, level: nat, key: nat)
    requires TreeOk(mem, owner, root) && level <= 2 && key < KeyBound(level) && TableAt(mem, root, level, key) != 0
    ensures var t := TableAt(mem, root, level, key);
            IsTable(mem, t) && t in owner && owner[t] == TableOf(root, level, key) && (level > 0 ==> Pointers(mem, t))
  {
  }

  lemma SetLeafTree(mem: Mem, owner: map<nat, Owner>, roots: set<nat>, root: nat, vpn: nat, pte: nat, r: nat)
    requires TreesOk(mem, owner, roots) && r in roots
    requires root in roots && vpn < MAXVPN && TableAt(mem, root, 0, vpn / 512) != 0
    ensures TreeOk(SetPte(mem, TableAt(mem, root, 0, vpn / 512), vpn % 512, pte), owner, r)
  {
    var t := TableAt(mem, root, 0, vpn / 512);
    var mem' := SetPte(mem, t, vpn % 512, pte);
    assert TreeOk(mem, owner, r);
    assert UpperUnused(mem', r) by {
      TableOwner(mem, owner, r, 2, 0);
      TableOwner(mem, owner, root, 0, vpn / 512);
      assert forall i :: 256 <= i < 512 ==> Pte(mem', r, i) == Pte(mem, r, i);
    }
    forall level, key | 0 <= level <= 2 && 0 <= key < KeyBound(level) && TableAt(mem', r, level, key) != 0
      ensures var u := TableAt(mem', r, level, key);
              IsTable(mem', u) && u in owner && owner[u] == TableOf(r, level, key) && (level > 0 ==> Pointers(mem', u))
    {
      SetLeafTables(mem, owner, roots, root, vpn, pte, r, level, key);
      var u := TableAt(mem, r, level, key);
      if level > 0 {
        PointersKept(mem, mem', u);
      }
    }
  }

  // ---------------------------------------------------------------------------
  // Hanging a new, empty table into a tree
  // ---------------------------------------------------------------------------

  /** Where a new table goes: an invalid entry of a table above the lowest level. */
  ghost predicate Room(mem: Mem, root: nat, level: nat, key: nat) {
    && 0 <= level < 2 && key < KeyBound(level)
    && TableAt(mem, root, level + 1, key / 512) != 0
    && TableAt(mem, root, level, key) == 0
  }

  lemma NewTableReads(mem: Mem, owner: map<nat, Owner>, roots: set<nat>, root: nat, level: nat, key: nat, p: nat,
                      r: nat, l: nat, k: nat)
    requires TreesOk(mem, owner, roots) && root in roots && Room(mem, root, level, key)
    requires p in owner && !owner[p].TableOf? && p in mem && mem[p] == EmptyTable() && p % 4096 == 0 && p != 0
    requires r in roots && l <= 2 && k < KeyBound(l)
    ensures var mem' := SetPte(mem, TableAt(mem, root, level + 1, key / 512), key % 512, MakePte(p, PTE_V));
            TableAt(mem', r, l, k) == if r == root && l == level && k == key then p else TableAt(mem, r, l, k)
    decreases 2 - l
  {
    var t := TableAt(mem, root, level + 1, key / 512);
    var mem' := SetPte(mem, t, key % 512, MakePte(p, PTE_V));
    if l < 2 {
      assert TreeOk(mem, owner, r);
      TableBelow(mem, owner, r, l, k);
      NewTableReads(mem, owner, roots, root, level, key, p, r, l + 1, k / 512);
      var up := TableAt(mem, r, l + 1, k / 512);
      PteRoundTrip(p, PTE_V);
      PteSet(mem, t, key % 512, MakePte(p, PTE_V), up, k % 512);
      PteSet(mem, t, key % 512, MakePte(p, PTE_V), p, k % 512);
      if up == t {
        OnePlace(mem, owner, roots, root, level + 1, key / 512, r, l + 1, k / 512);
        assert k == 512 * (k / 512) + k % 512 && key == 512 * (key / 512) + key % 512;
      }
    }
  }

  /** The page becomes a table of the tree; no translation of any tree changes. */
  lemma NewTable(mem: Mem, owner: map<nat, Owner>, roots: set<nat>, root: nat, level: nat, key: nat, p: nat)
    requires TreesOk(mem, owner, roots) && TablesPlaced(mem, owner, roots) && LeavesPlaced(mem, owner, roots)
    requires root in roots && Room(mem, root, level, key)
    requires p in owner && owner[p] == Held && p in mem && mem[p] == EmptyTable() && p % 4096 == 0 && p != 0
    ensures var mem' := SetPte(mem, TableAt(mem, root, level + 1, key / 512), key % 512, MakePte(p, PTE_V));
            var owner' := owner[p := TableOf(root, level, key)];
            && TreesOk(mem', owner', roots) && TablesPlaced(mem', owner', roots) && LeavesPlaced(mem', owner', roots)
            && SameLeaves(mem, mem', roots)
            && TableAt(mem', root, level, key) == p
  {
    hide TableAt, Leaf, TreeOk, PTE2PA, PA2PTE, EmptyTable, Pointers;
    var t := TableAt(mem, root, level + 1, key / 512);
    TableOwner(mem, owner, root, level + 1, key / 512);
    var mem' := SetPte(mem, t, key % 512, MakePte(p, PTE_V));
    var owner' := owner[p := TableOf(root, level, key)];
    forall r, l, k | r in roots && 0 <= l <= 2 && 0 <= k < KeyBound(l)
      ensures TableAt(mem', r, l, k) == if r == root && l == level && k == key then p else TableAt(mem, r, l, k)
    {
      NewTableReads(mem, owner, roots, root, level, key, p, r, l, k);
    }
    forall r, v | r in roots && 0 <= v < MAXVPN
      ensures Leaf(mem', r, v) == Leaf(mem, r, v)
    {
      NewTableLeaf(mem, owner, roots, root, level, key, p, r, v);
    }
    forall r | r in roots
      ensures TreeOk(mem', owner', r)
    {
      NewTableTree(mem, owner, roots, root, level, key, p, r);
    }
  }

  lemma NewTableLeaf(mem: Mem, owner: map<nat, Owner>, roots: set<nat>, root: nat, level: nat, key: nat, p: nat,
                     r: nat, v: nat)
    requires TreesOk(mem, owner, roots) && root in roots && Room(mem, root, level, key)
    requires p in owner && owner[p] == Held && p in mem && mem[p] == EmptyTable() && p % 4096 == 0 && p != 0
    requires r in roots && v < MAXVPN
    ensures Leaf(SetPte(mem, TableAt(mem, root, level + 1, key / 512), key % 512, MakePte(p, PTE_V)), r, v) ==
            Leaf(mem, r, v)
  {
    var t := TableAt(mem, root, level + 1, key / 512);
    NewTableReads(mem, owner, roots, root, level, key, p, r, 0, v / 512);
    var low := TableAt(mem, r, 0, v / 512);
    assert TreeOk(mem, owner, r);
    PteSet(mem, t, key % 512, MakePte(p, PTE_V), low, v % 512);
    PteSet(mem, t, key % 512, MakePte(p, PTE_V), p, v % 512);
  }

  lemma NewTableTree(mem: Mem, owner: map<nat, Owner>, roots: set<nat>, root: nat, level: nat, key: nat, p: nat, r: nat)
    requires TreesOk(mem, owner, roots) && root in roots && Room(mem, root, level, key) && r in roots
    requires p in owner && owner[p] == Held && p in mem && mem[p] == EmptyTable() && p % 4096 == 0 && p != 0
    ensures var mem' := SetPte(mem, TableAt(mem, root, level + 1, key / 512), key % 512, MakePte(p, PTE_V));
            TreeOk(mem', owner[p := TableOf(root, level, key)], r)
  {
    var t := TableAt(mem, root, level + 1, key / 512);
    var mem' := SetPte(mem, t, key % 512, MakePte(p, PTE_V));
    assert TreeOk(mem, owner, r) && TreeOk(mem, owner, root);
    PteRoundTrip(p, PTE_V);
    assert UpperUnused(mem', r) by {
      forall i | 256 <= i < 512
        ensures Pte(mem', r, i) == Pte(mem, r, i)
      {
        TableOwner(mem, owner, r, 2, 0);
        TableOwner(mem, owner, root, level + 1, key / 512);
        PteSet(mem, t, key % 512, MakePte(p, PTE_V), r, i);
      }
    }
    forall l, k | 0 <= l <= 2 && 0 <= k < KeyBound(l) && TableAt(mem', r, l, k) != 0
      ensures var u := TableAt(mem', r, l, k);
              IsTable(mem', u) && u in owner[p := TableOf(root, level, key)]
              && owner[p := TableOf(root, level, key)][u] == TableOf(r, l, k) && (l > 0 ==> Pointers(mem', u))
    {
      NewTableReads(mem, owner, roots, root, level, key, p, r, l, k);
      var u := TableAt(mem', r, l, k);
      if l > 0 {
        forall i | 0 <= i < 512 && Ok(Pte(mem', u, i))
          ensures PTE_FLAGS(Pte(mem', u, i)) == PTE_V && PTE2PA(Pte(mem', u, i)) != 0
        {
          PteSet(mem, t, key % 512, MakePte(p, PTE_V), u, i);
        }
      }
    }
  }
}
