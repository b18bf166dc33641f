/**
  Who owns which block.  The invariant that the block layer of xv6fs keeps: every
  data block marked in the bitmap belongs to exactly one slot of one inode, and every
  slot in use names a marked block.  The lemmas say how each elementary disk change
  moves ownership and what it does to the bytes of every file.
 */
module FsOwnership {
  import opened Codec
  import opened FsLayout

  datatype Slot = Slot(inum: nat, k: nat)

  ghost predicate Shaped(sb: SuperBlock, disk: Disk, inodes: seq<Inode>) {
    WellLaidOut(sb) && |disk| == sb.size && |inodes| == sb.ninodes
  }

  ghost predicate IsSlot(inodes: seq<Inode>, s: Slot) {
    s.inum < |inodes| && s.k < NSLOT
  }

  /** Boot block, super block, log, inode blocks and bitmap are marked in use. */
  ghost predicate MetaUsed(sb: SuperBlock, disk: Disk)
    requires WellLaidOut(sb) && |disk| == sb.size
  {
    forall b :: 0 <= b < DataStart(sb) ==> Used(sb, disk, b)
  }

  /** Every owned block is a data block that its owner names. */
  ghost predicate OwnersName(sb: SuperBlock, disk: Disk, inodes: seq<Inode>, owner: map<nat, Slot>)
    requires Shaped(sb, disk, inodes)
  {
    forall b :: b in owner ==>
      DataStart(sb) <= b < sb.size && IsSlot(inodes, owner[b])
      && Addr(disk, inodes[owner[b].inum], owner[b].k) == b
  }

  /** Every slot in use owns the block it names; so no block has two owners. */
  ghost predicate SlotsOwn(disk: Disk, inodes: seq<Inode>, owner: map<nat, Slot>) {
    forall i, k :: 0 <= i < |inodes| && 0 <= k < NSLOT && Addr(disk, inodes[i], k) != 0 ==>
      Addr(disk, inodes[i], k) in owner && owner[Addr(disk, inodes[i], k)] == Slot(i, k)
  }

  /** The marked data blocks are the owned ones and those in `extra`, which are on their way in or out. */
  ghost predicate BitsAgree(sb: SuperBlock, disk: Disk, owner: map<nat, Slot>, extra: set<nat>)
    requires WellLaidOut(sb) && |disk| == sb.size
  {
    && (forall b :: b in extra ==> DataStart(sb) <= b < sb.size && b !in owner)
    && (forall b :: DataStart(sb) <= b < sb.size ==> (Used(sb, disk, b) <==> b in owner || b in extra))
  }

  ghost predicate Owned(sb: SuperBlock, disk: Disk, inodes: seq<Inode>, owner: map<nat, Slot>, extra: set<nat>) {
    && Shaped(sb, disk, inodes)
    && MetaUsed(sb, disk)
    && OwnersName(sb, disk, inodes, owner)
    && SlotsOwn(disk, inodes, owner)
    && BitsAgree(sb, disk, owner, extra)
  }

  /** No slot of any inode names another block, and no byte of any file changes. */
  ghost predicate SameFiles(disk: Disk, inodes: seq<Inode>, disk': Disk, inodes': seq<Inode>) {
    && |inodes'| == |inodes|
    && forall i, p :: 0 <= i < |inodes| && 0 <= p < MAXBYTES ==>
         FileByte(disk', inodes'[i], p) == FileByte(disk, inodes[i], p)
  }

  ghost predicate SameSlots(disk: Disk, disk': Disk, inodes: seq<Inode>) {
    forall i, k :: 0 <= i < |inodes| && 0 <= k < NSLOT ==>
      Addr(disk', inodes[i], k) == Addr(disk, inodes[i], k)
  }

  /** In an owned disk, the block of a slot is a data block with that owner. */
  lemma SlotOwner(sb: SuperBlock, disk: Disk, inodes: seq<Inode>, owner: map<nat, Slot>, extra: set<nat>, i: nat,
                  k: nat)
    requires Owned(sb, disk, inodes, owner, extra) && i < |inodes| && k < NSLOT
    requires Addr(disk, inodes[i], k) != 0
    ensures var a := Addr(disk, inodes[i], k); DataStart(sb) <= a < sb.size && a in owner && owner[a] == Slot(i, k)
    ensures Used(sb, disk, Addr(disk, inodes[i], k))
  {
  }

  /** Slots are unaffected by a change that leaves all indirect blocks alone. */
  lemma SlotsStable(sb: SuperBlock, disk: Disk, inodes: seq<Inode>, owner: map<nat, Slot>, extra: set<nat>, disk': Disk)
    requires Owned(sb, disk, inodes, owner, extra) && |disk'| == |disk|
    requires forall b :: b in owner && owner[b].k == NDIRECT ==> disk'[b] == disk[b]
    ensures SameSlots(disk, disk', inodes)
  {
    forall i, k | 0 <= i < |inodes| && 0 <= k < NSLOT
      ensures Addr(disk', inodes[i], k) == Addr(disk, inodes[i], k)
    {
      assert Addr(disk, inodes[i], NDIRECT) == inodes[i].addrs[NDIRECT];
    }
  }

  /** Files are unaffected by a change that leaves all owned blocks alone. */
  lemma FilesStable(sb: SuperBlock, disk: Disk, inodes: seq<Inode>, owner: map<nat, Slot>, extra: set<nat>, disk': Disk)
    requires Owned(sb, disk, inodes, owner, extra) && |disk'| == |disk|
    requires forall b :: b in owner ==> disk'[b] == disk[b]
    ensures SameSlots(disk, disk', inodes) && SameFiles(disk, inodes, disk', inodes)
  {
    SlotsStable(sb, disk, inodes, owner, extra, disk');
    forall i, p | 0 <= i < |inodes| && 0 <= p < MAXBYTES
      ensures FileByte(disk', inodes[i], p) == FileByte(disk, inodes[i], p)
    {
      assert Addr(disk', inodes[i], DataSlot(p / BSIZE)) == Addr(disk, inodes[i], DataSlot(p / BSIZE));
    }
  }

  // ---------------------------------------------------------------------------
  // Allocation: a free block becomes marked and zero
  // ---------------------------------------------------------------------------

  ghost predicate Allocated(sb: SuperBlock, disk: Disk, disk': Disk, b: nat)
    requires WellLaidOut(sb) && |disk| == sb.size
  {
    && DataStart(sb) <= b < sb.size
    && |disk'| == |disk|
    && !Used(sb, disk, b)
    && disk'[b] == ZeroBlock()
    && (forall x :: 0 <= x < sb.size ==> (Used(sb, disk', x) <==> x == b || Used(sb, disk, x)))
    && (forall x :: DataStart(sb) <= x < sb.size && x != b ==> disk'[x] == disk[x])
    && (forall x :: 0 <= x < sb.bmapstart ==> disk'[x] == disk[x])
  }

  lemma AllocateOwned(sb: SuperBlock, disk: Disk, inodes: seq<Inode>, owner: map<nat, Slot>, extra: set<nat>,
                      disk': Disk, b: nat)
    requires Owned(sb, disk, inodes, owner, extra)
    requires Allocated(sb, disk, disk', b)
    ensures Owned(sb, disk', inodes, owner, extra + {b})
    ensures SameSlots(disk, disk', inodes)
    ensures SameFiles(disk, inodes, disk', inodes)
  {
    FilesStable(sb, disk, inodes, owner, extra, disk');
  }

  // ---------------------------------------------------------------------------
  // Installing an allocated block in an empty slot
  // ---------------------------------------------------------------------------

  function WithAddr(i: Inode, k: nat, b: uint32): (i': Inode)
    requires k <= NDIRECT
  {
    Inode(i.kind, i.major, i.minor, i.nlink, i.size, i.addrs[k := b])
  }

  /** A direct slot, or the slot of the indirect block. */
  lemma InstallAddr(sb: SuperBlock, disk: Disk, inodes: seq<Inode>, owner: map<nat, Slot>, extra: set<nat>,
                    inum: nat, k: nat, b: nat)
    requires Owned(sb, disk, inodes, owner, extra)
    requires b in extra && DataStart(sb) <= b < sb.size && disk[b] == ZeroBlock()
    requires inum < |inodes| && k <= NDIRECT && inodes[inum].addrs[k] == 0
    ensures var inodes' := inodes[inum := WithAddr(inodes[inum], k, b)];
            && Owned(sb, disk, inodes', owner[b := Slot(inum, k)], extra - {b})
            && SameFiles(disk, inodes, disk, inodes')
  {
    hide MetaUsed, BitsAgree, SlotsOwn;
    var ino := inodes[inum];
    var ino' := WithAddr(ino, k, b);
    var inodes' := inodes[inum := ino'];
    forall j | 0 <= j < NSLOT
      ensures Addr(disk, ino', j) == if j == k then b else Addr(disk, ino, j)
    {
      if k == NDIRECT && j > NDIRECT {
        EntryZero(j - NDIRECT - 1);
      }
    }
    forall p | 0 <= p < MAXBYTES
      ensures FileByte(disk, ino', p) == FileByte(disk, ino, p)
    {
      assert Addr(disk, ino', DataSlot(p / BSIZE)) == if DataSlot(p / BSIZE) == k then b
          else Addr(disk, ino, DataSlot(p / BSIZE));
    }
    OwnedWithSlot(sb, disk, inodes, owner, extra, inum, k, b, disk, inodes');
  }

  /** Bitmap bits are unaffected by a change outside the bitmap blocks. */
  lemma BitsStable(sb: SuperBlock, disk: Disk, disk': Disk)
    requires WellLaidOut(sb) && |disk| == sb.size && |disk'| == sb.size
    requires forall x :: sb.bmapstart <= x < DataStart(sb) ==> disk'[x] == disk[x]
    ensures forall x :: 0 <= x < sb.size ==> (Used(sb, disk', x) <==> Used(sb, disk, x))
  {
  }

  /** An entry of the indirect block. */
  lemma InstallEntry(sb: SuperBlock, disk: Disk, inodes: seq<Inode>, owner: map<nat, Slot>, extra: set<nat>,
                     inum: nat, j: nat, b: nat, disk': Disk)
    requires Owned(sb, disk, inodes, owner, extra)
    requires b in extra && disk[b] == ZeroBlock()
    requires inum < |inodes| && j < NINDIRECT && 0 < inodes[inum].addrs[NDIRECT] < |disk|
    requires var ind := inodes[inum].addrs[NDIRECT];
             && Entry(disk[ind], j) == 0
             && disk' == disk[ind := SetEntry(disk[ind], j, b)]
    ensures Owned(sb, disk', inodes, owner[b := Slot(inum, NDIRECT + 1 + j)], extra - {b})
    ensures SameFiles(disk, inodes, disk', inodes)
    ensures Addr(disk', inodes[inum], NDIRECT + 1 + j) == b
  {
    var k := NDIRECT + 1 + j;
    assert Addr(disk, inodes[inum], k) == 0;
    InstallEntrySlots(sb, disk, inodes, owner, extra, inum, j, b, disk');
    BitsStable(sb, disk, disk');
    InstallEntryBytes(sb, disk, inodes, owner, extra, inum, j, b, disk');
    OwnedWithSlot(sb, disk, inodes, owner, extra, inum, k, b, disk', inodes);
  }

  /** If exactly one empty slot comes to name the block `b`, then `b` is owned by that slot. */
  lemma OwnedWithSlot(sb: SuperBlock, disk: Disk, inodes: seq<Inode>, owner: map<nat, Slot>, extra: set<nat>,
                      inum: nat, k: nat, b: nat, disk': Disk, inodes': seq<Inode>)
    requires Owned(sb, disk, inodes, owner, extra) && Shaped(sb, disk', inodes')
    requires b in extra && inum < |inodes| && k < NSLOT && Addr(disk, inodes[inum], k) == 0
    requires forall x :: 0 <= x < sb.size ==> (Used(sb, disk', x) <==> Used(sb, disk, x))
    requires forall i, j :: 0 <= i < |inodes| && 0 <= j < NSLOT ==>
               Addr(disk', inodes'[i], j) == if i == inum && j == k then b else Addr(disk, inodes[i], j)
    ensures Owned(sb, disk', inodes', owner[b := Slot(inum, k)], extra - {b})
  {
    var owner' := owner[b := Slot(inum, k)];
    assert Addr(disk', inodes'[inum], k) == b;
    assert OwnersName(sb, disk', inodes', owner');
    assert SlotsOwn(disk', inodes', owner');
  }

  lemma InstallEntrySlots(sb: SuperBlock, disk: Disk, inodes: seq<Inode>, owner: map<nat, Slot>, extra: set<nat>,
                          inum: nat, j: nat, b: uint32, disk': Disk)
    requires Owned(sb, disk, inodes, owner, extra)
    requires inum < |inodes| && j < NINDIRECT && 0 < inodes[inum].addrs[NDIRECT] < |disk|
    requires var ind := inodes[inum].addrs[NDIRECT]; disk' == disk[ind := SetEntry(disk[ind], j, b)]
    ensures var ind := inodes[inum].addrs[NDIRECT];
            DataStart(sb) <= ind && ind in owner && owner[ind] == Slot(inum, NDIRECT)
    ensures forall i, k :: 0 <= i < |inodes| && 0 <= k < NSLOT ==>
              Addr(disk', inodes[i], k) == if i == inum && k == NDIRECT + 1 + j then b else Addr(disk, inodes[i], k)
  {
    var ind := inodes[inum].addrs[NDIRECT];
    assert Addr(disk, inodes[inum], NDIRECT) == ind;
    SlotOwner(sb, disk, inodes, owner, extra, inum, NDIRECT);
    forall i, k | 0 <= i < |inodes| && 0 <= k < NSLOT
      ensures Addr(disk', inodes[i], k) == if i == inum && k == NDIRECT + 1 + j then b else Addr(disk, inodes[i], k)
    {
      var a := inodes[i].addrs[NDIRECT];
      if k > NDIRECT && 0 < a < |disk| {
        assert Addr(disk, inodes[i], NDIRECT) == a;
        SlotOwner(sb, disk, inodes, owner, extra, i, NDIRECT);
        if a == ind {
          assert i == inum;
          EntrySet(disk[ind], j, b, k - NDIRECT - 1);
        }
      }
    }
  }

  lemma InstallEntryBytes(sb: SuperBlock, disk: Disk, inodes: seq<Inode>, owner: map<nat, Slot>, extra: set<nat>,
                          inum: nat, j: nat, b: uint32, disk': Disk)
    requires Owned(sb, disk, inodes, owner, extra)
    requires b in extra && disk[b] == ZeroBlock()
    requires inum < |inodes| && j < NINDIRECT && 0 < inodes[inum].addrs[NDIRECT] < |disk|
    requires var ind := inodes[inum].addrs[NDIRECT];
             && Entry(disk[ind], j) == 0
             && disk' == disk[ind := SetEntry(disk[ind], j, b)]
    ensures SameFiles(disk, inodes, disk', inodes)
  {
    InstallEntrySlots(sb, disk, inodes, owner, extra, inum, j, b, disk');
    forall i, p | 0 <= i < |inodes| && 0 <= p < MAXBYTES
      ensures FileByte(disk', inodes[i], p) == FileByte(disk, inodes[i], p)
    {
      var k := DataSlot(p / BSIZE);
      assert Addr(disk', inodes[i], k) == if i == inum && k == NDIRECT + 1 + j then b else Addr(disk, inodes[i], k);
      if Addr(disk, inodes[i], k) != 0 {
        SlotOwner(sb, disk, inodes, owner, extra, i, k);
      }
    }
  }

  // ---------------------------------------------------------------------------
  // Writing the data of a file, and writing an inode block
  // ---------------------------------------------------------------------------

  /** Changing one data block of one file changes the bytes of that block of that file, and nothing else. */
  lemma WriteData(sb: SuperBlock, disk: Disk, inodes: seq<Inode>, owner: map<nat, Slot>, extra: set<nat>,
                  inum: nat, bn: nat, disk': Disk, blk: Block)
    requires Owned(sb, disk, inodes, owner, extra)
    requires inum < |inodes| && bn < MAXFILE && 0 < Addr(disk, inodes[inum], DataSlot(bn)) < |disk|
    requires disk' == disk[Addr(disk, inodes[inum], DataSlot(bn)) := blk]
    ensures Owned(sb, disk', inodes, owner, extra)
    ensures forall i, p {:trigger FileByte(disk', inodes[i], p)} :: 0 <= i < |inodes| && 0 <= p < MAXBYTES ==>
              FileByte(disk', inodes[i], p)
              == if i == inum && p / BSIZE == bn then blk[p % BSIZE] else FileByte(disk, inodes[i], p)
  {
    SlotOwner(sb, disk, inodes, owner, extra, inum, DataSlot(bn));
    BitsStable(sb, disk, disk');
    SlotsStable(sb, disk, inodes, owner, extra, disk');
    forall i, p {:trigger FileByte(disk', inodes[i], p)} | 0 <= i < |inodes| && 0 <= p < MAXBYTES
      ensures FileByte(disk', inodes[i], p)
              == if i == inum && p / BSIZE == bn then blk[p % BSIZE] else FileByte(disk, inodes[i], p)
    {
      WriteDataByte(disk, inodes, owner, inum, bn, disk', blk, i, p);
    }
  }

  lemma WriteDataByte(disk: Disk, inodes: seq<Inode>, owner: map<nat, Slot>,
                      inum: nat, bn: nat, disk': Disk, blk: Block, i: nat, p: nat)
    requires SlotsOwn(disk, inodes, owner) && SameSlots(disk, disk', inodes)
    requires inum < |inodes| && bn < MAXFILE && 0 < Addr(disk, inodes[inum], DataSlot(bn)) < |disk|
    requires disk' == disk[Addr(disk, inodes[inum], DataSlot(bn)) := blk]
    requires i < |inodes| && p < MAXBYTES
    ensures FileByte(disk', inodes[i], p)
            == if i == inum && p / BSIZE == bn then blk[p % BSIZE] else FileByte(disk, inodes[i], p)
  {
    var k := DataSlot(p / BSIZE);
    assert Addr(disk', inodes[i], k) == Addr(disk, inodes[i], k);
    if Addr(disk, inodes[i], k) == Addr(disk, inodes[inum], DataSlot(bn)) {
      assert Slot(i, k) == Slot(inum, DataSlot(bn));
    }
  }

  /** A change confined to the inode blocks touches no bit, no slot and no file. */
  lemma WriteMeta(sb: SuperBlock, disk: Disk, inodes: seq<Inode>, owner: map<nat, Slot>, extra: set<nat>, disk': Disk)
    requires Owned(sb, disk, inodes, owner, extra)
    requires |disk'| == |disk| && forall x :: sb.bmapstart <= x < sb.size ==> disk'[x] == disk[x]
    ensures Owned(sb, disk', inodes, owner, extra)
    ensures SameFiles(disk, inodes, disk', inodes)
  {
    BitsStable(sb, disk, disk');
    FilesStable(sb, disk, inodes, owner, extra, disk');
  }

  // ---------------------------------------------------------------------------
  // Truncation: slots are emptied, their blocks become unmarked
  // ---------------------------------------------------------------------------

  /** Emptying a direct slot leaves its block without owner. */
  lemma RemoveDirect(sb: SuperBlock, disk: Disk, inodes: seq<Inode>, owner: map<nat, Slot>, extra: set<nat>,
                     inum: nat, k: nat)
    requires Owned(sb, disk, inodes, owner, extra)
    requires inum < |inodes| && k < NDIRECT && inodes[inum].addrs[k] != 0
    ensures var b := inodes[inum].addrs[k];
            && b in owner && owner[b] == Slot(inum, k)
            && Owned(sb, disk, inodes[inum := WithAddr(inodes[inum], k, 0)], owner - {b}, extra + {b})
  {
    var b := inodes[inum].addrs[k];
    assert Addr(disk, inodes[inum], k) == b;
    SlotOwner(sb, disk, inodes, owner, extra, inum, k);
    var ino' := WithAddr(inodes[inum], k, 0);
    assert forall j :: 0 <= j < NSLOT ==> Addr(disk, ino', j) == if j == k then 0 else Addr(disk, inodes[inum], j);
  }

  /** The blocks named by the slots from `k` on: at `NDIRECT`, the indirect block and its entries. */
  ghost function BlocksFrom(disk: Disk, i: Inode, k: nat): (s: set<nat>) {
    set j | k <= j < NSLOT && Addr(disk, i, j) != 0 :: Addr(disk, i, j)
  }

  /** Emptying the indirect slot leaves the indirect block and all blocks it lists without owner. */
  lemma RemoveIndirect(sb: SuperBlock, disk: Disk, inodes: seq<Inode>, owner: map<nat, Slot>, extra: set<nat>,
                       inum: nat)
    requires Owned(sb, disk, inodes, owner, extra)
    requires inum < |inodes|
    ensures var gone := BlocksFrom(disk, inodes[inum], NDIRECT);
            && (forall b :: b in gone ==> b in owner && owner[b].inum == inum && NDIRECT <= owner[b].k)
            && (forall b :: b in owner && owner[b].inum == inum && NDIRECT <= owner[b].k ==> b in gone)
            && Owned(sb, disk, inodes[inum := WithAddr(inodes[inum], NDIRECT, 0)], owner - gone, extra + gone)
  {
    var ino := inodes[inum];
    var gone := BlocksFrom(disk, ino, NDIRECT);
    forall j | NDIRECT <= j < NSLOT && Addr(disk, ino, j) != 0
      ensures Addr(disk, ino, j) in owner && owner[Addr(disk, ino, j)] == Slot(inum, j)
    {
      SlotOwner(sb, disk, inodes, owner, extra, inum, j);
    }
    var ino' := WithAddr(ino, NDIRECT, 0);
    assert forall j :: 0 <= j < NSLOT ==> Addr(disk, ino', j) == if NDIRECT <= j then 0 else Addr(disk, ino, j);
  }

  ghost predicate Freed(sb: SuperBlock, disk: Disk, disk': Disk, b: nat)
    requires WellLaidOut(sb) && |disk| == sb.size
  {
    && DataStart(sb) <= b < sb.size
    && |disk'| == |disk|
    && (forall x :: 0 <= x < sb.size ==> (Used(sb, disk', x) <==> x != b && Used(sb, disk, x)))
    && (forall x :: DataStart(sb) <= x < sb.size ==> disk'[x] == disk[x])
    && (forall x :: 0 <= x < sb.bmapstart ==> disk'[x] == disk[x])
  }

  lemma FreeOwned(sb: SuperBlock, disk: Disk, inodes: seq<Inode>, owner: map<nat, Slot>, extra: set<nat>,
                  disk': Disk, b: nat)
    requires Owned(sb, disk, inodes, owner, extra)
    requires b in extra && Freed(sb, disk, disk', b)
    ensures Owned(sb, disk', inodes, owner, extra - {b})
    ensures SameSlots(disk, disk', inodes)
    ensures SameFiles(disk, inodes, disk', inodes)
  {
    FilesStable(sb, disk, inodes, owner, extra, disk');
  }
}
