/**
  The image builder `mkfs/mkfs.c`.  While it appends to files it hands out blocks with
  the counter `freeblock`; the bitmap is written once, at the end.  `Image` is the disk
  as the kernel will see it then, and the kernel's own invariant is shown to hold of it
  at every step.
 */
module Mkfs {
  import opened Codec
  import opened FsLayout
  import opened FsOwnership
  import opened FsSpace
  import opened Fs
  import opened Dir

  // ---------------------------------------------------------------------------
  // The bitmap block
  // ---------------------------------------------------------------------------

  /** The block in which exactly the first `n` bits are set. */
  function BitmapBlock(n: nat): (b: Block)
    requires n <= BPB
    ensures forall k :: 0 <= k < BPB ==> (Bit(b[k / 8], k % 8) <==> k < n)
  {
    if n == 0 then
      NoBits();
      ZeroBlock()
    else
      var b := BitmapBlock(n - 1);
      var r: Block := b[(n - 1) / 8 := OrMask(b[(n - 1) / 8], (n - 1) % 8)];
      OneMoreBit(b, n - 1, r);
      r
  }

  lemma NoBits()
    ensures forall k :: 0 <= k < BPB ==> !Bit(ZeroBlock()[k / 8], k % 8)
  {
    forall k | 0 <= k < BPB ensures !Bit(ZeroBlock()[k / 8], k % 8) { ZeroBit(k % 8); }
  }

  lemma {:induction false} ZeroBit(k: nat)
    ensures !Bit(0, k)
  {
    if k != 0 { ZeroBit(k - 1); }
  }

  lemma OneMoreBit(b: Block, n: nat, r: Block)
    requires n < BPB
    requires forall k :: 0 <= k < BPB ==> (Bit(b[k / 8], k % 8) <==> k < n)
    requires r == b[n / 8 := OrMask(b[n / 8], n % 8)]
    ensures forall k :: 0 <= k < BPB ==> (Bit(r[k / 8], k % 8) <==> k < n + 1)
  {
  }

  // ---------------------------------------------------------------------------
  // The image as the kernel will see it
  // ---------------------------------------------------------------------------

  ghost function Image(sb: SuperBlock, disk: Disk, freeblock: nat): (d: Disk)
    requires WellLaidOut(sb) && |disk| == sb.size && freeblock <= BPB
  {
    disk[sb.bmapstart := BitmapBlock(freeblock)]
  }

  /** Bitmap blocks after the first, and blocks not yet handed out, are zero. */
  ghost predicate Fresh(sb: SuperBlock, disk: Disk, freeblock: nat)
    requires WellLaidOut(sb) && |disk| == sb.size
  {
    && (forall b :: sb.bmapstart < b < DataStart(sb) ==> disk[b] == ZeroBlock())
    && (forall b :: freeblock <= b < sb.size ==> disk[b] == ZeroBlock())
  }

  lemma ImageUsed(sb: SuperBlock, disk: Disk, freeblock: nat, x: nat)
    requires WellLaidOut(sb) && |disk| == sb.size && freeblock <= BPB && x < sb.size
    requires Fresh(sb, disk, freeblock)
    ensures Used(sb, Image(sb, disk, freeblock), x) <==> x < freeblock
  {
    if x / BPB == 0 {
      assert x % BPB == x;
      assert x % 8 == x % BPB % 8;
      assert Bit(BitmapBlock(freeblock)[x / 8], x % 8) <==> x < freeblock;
    } else {
      assert BBLOCK(sb, x) < DataStart(sb);
      ZeroBit(x % 8);
    }
  }

  /** Taking `freeblock` and counting it up is, to the kernel, an allocation. */
  lemma TakeBlock(sb: SuperBlock, disk: Disk, freeblock: nat)
    requires WellLaidOut(sb) && |disk| == sb.size && DataStart(sb) <= freeblock < sb.size && freeblock < BPB
    requires Fresh(sb, disk, freeblock)
    ensures Fresh(sb, disk, freeblock + 1)
    ensures Allocated(sb, Image(sb, disk, freeblock), Image(sb, disk, freeblock + 1), freeblock)
  {
    hide Used, BitmapBlock, ZeroBlock;
    ImageUsed(sb, disk, freeblock, freeblock);
    forall x | 0 <= x < sb.size
      ensures Used(sb, Image(sb, disk, freeblock + 1), x) <==> x == freeblock || Used(sb, Image(sb, disk, freeblock), x)
    {
      ImageUsed(sb, disk, freeblock, x);
      ImageUsed(sb, disk, freeblock + 1, x);
    }
  }

  // ---------------------------------------------------------------------------
  // Slots follow owners
  // ---------------------------------------------------------------------------

  /** When the owners gain one entry, exactly that slot gains that block. */
  lemma SlotFilled(sb: SuperBlock, disk: Disk, inodes: seq<Inode>, owner: map<nat, Slot>,
                   disk': Disk, inodes': seq<Inode>, b: nat, s: Slot, i: nat, k: nat)
    requires Owned(sb, disk, inodes, owner, {}) && Owned(sb, disk', inodes', owner[b := s], {}) && b !in owner
    requires i < |inodes| && k < NSLOT
    ensures Addr(disk', inodes'[i], k) == if Slot(i, k) == s then b else Addr(disk, inodes[i], k)
  {
    var owner' := owner[b := s];
    var a, a' := Addr(disk, inodes[i], k), Addr(disk', inodes'[i], k);
    assert b in owner' && owner'[b] == s;
    if Slot(i, k) != s {
      if a != 0 {
        assert a in owner' && owner'[a] == Slot(i, k);
      }
    }
  }

  /** The blocks gained all belong to file `inum`. */
  ghost predicate OwnersGained(owner: map<nat, Slot>, owner': map<nat, Slot>, inum: nat) {
    && (forall b :: b in owner ==> b in owner' && owner'[b] == owner[b])
    && (forall b :: b in owner' && b !in owner ==> owner'[b].inum == inum)
  }

  lemma OwnersGainedTrans(o0: map<nat, Slot>, o1: map<nat, Slot>, o2: map<nat, Slot>, inum: nat)
    requires OwnersGained(o0, o1, inum) && OwnersGained(o1, o2, inum)
    ensures OwnersGained(o0, o2, inum)
  {
  }

  /** Then the other files keep their blocks. */
  lemma OtherSlots(sb: SuperBlock, disk: Disk, inodes: seq<Inode>, owner: map<nat, Slot>,
                   disk': Disk, inodes': seq<Inode>, owner': map<nat, Slot>, inum: nat, i: nat, k: nat)
    requires Owned(sb, disk, inodes, owner, {}) && Owned(sb, disk', inodes', owner', {}) &&
            OwnersGained(owner, owner', inum)
    requires i < |inodes| && i != inum && k < NSLOT
    ensures Addr(disk', inodes'[i], k) == Addr(disk, inodes[i], k)
  {
    var a, a' := Addr(disk, inodes[i], k), Addr(disk', inodes'[i], k);
    if a != 0 {
      assert a in owner && owner[a] == Slot(i, k);
    }
  }

  lemma SlotsFollow(sb: SuperBlock, disk: Disk, inodes: seq<Inode>, owner: map<nat, Slot>,
                    disk': Disk, inodes': seq<Inode>, i: nat, k: nat)
    requires Owned(sb, disk, inodes, owner, {}) && Owned(sb, disk', inodes', owner, {})
    requires i < |inodes| && k < NSLOT
    ensures Addr(disk', inodes'[i], k) == Addr(disk, inodes[i], k)
  {
    var a, a' := Addr(disk, inodes[i], k), Addr(disk', inodes'[i], k);
    if a != 0 {
      assert a in owner && owner[a] == Slot(i, k);
    }
  }

  /** A file of `size` bytes built by appending has exactly the blocks it needs. */
  ghost predicate Exact(disk: Disk, i: Inode, size: nat) {
    && (forall bn :: 0 <= bn < MAXFILE ==> (Addr(disk, i, DataSlot(bn)) != 0 <==> bn * 1024 < size))
    && (i.addrs[NDIRECT] != 0 <==> size > 12288)
  }

  /** Data blocks, and one more for the indirect block once the direct slots are used up. */
  function BlockCount(size: nat): (n: nat) {
    (size + 1023) / 1024 + (if size > 12288 then 1 else 0)
  }

  /** Block numbers that can be handed out: on the disk, and within the one bitmap block written. */
  function Limit(sb: SuperBlock): (n: nat) { if sb.size < BPB then sb.size else BPB - 1 }

  ghost predicate Built(sb: SuperBlock, disk: Disk, freeblock: nat, inodes: seq<Inode>, owner: map<nat, Slot>) {
    && WellLaidOut(sb) && |disk| == sb.size
    && DataStart(sb) <= freeblock <= Limit(sb)
    && Fresh(sb, disk, freeblock)
    && Owned(sb, Image(sb, disk, freeblock), inodes, owner, {})
  }

  /** Nothing has been written beyond the end of the file. */
  ghost predicate ZeroTail(disk: Disk, i: Inode) {
    forall p :: i.size <= p < MAXBYTES ==> FileByte(disk, i, p) == 0
  }

  /** A file as mkfs leaves it: its size, its blocks and the bytes behind its end. */
  ghost predicate Tidy(disk: Disk, i: Inode) {
    i.size <= MAXBYTES && Exact(disk, i, i.size) && ZeroTail(disk, i)
  }

  /** nmeta: boot and super block, log, inode blocks, bitmap blocks. */
  function MetaBlocks(fssize: nat, ninodes: nat): (n: nat) {
    2 + 30 + (ninodes / 16 + 1) + (fssize / 8192 + 1)
  }

  function MakeSuper(fssize: uint32, ninodes: uint32): (sb: SuperBlock)
    requires MetaBlocks(fssize, ninodes) <= fssize && fssize + BPB < 0x8000_0000
    ensures WellLaidOut(sb) && DataStart(sb) == MetaBlocks(fssize, ninodes)
  {
    SuperBlock(fssize, fssize - MetaBlocks(fssize, ninodes), ninodes, 30, 2, 32, 32 + ninodes / 16 + 1)
  }

  /**
    Boot block, super block, 30 blocks of log, inode blocks, bitmap and data follow one another without
    gap or overlap.
   */
  predicate Consecutive(sb: SuperBlock) {
    && sb.logstart == 2 && sb.nlog == 30 && sb.inodestart == sb.logstart + sb.nlog
    && sb.bmapstart == sb.inodestart + sb.ninodes / 16 + 1
    && sb.size - sb.nblocks == sb.bmapstart + sb.size / 8192 + 1
  }

  /** So no inode and no bit of the bitmap is in the log, among each other's blocks, or in the data. */
  lemma RegionsApart(sb: SuperBlock, inum: nat, b: nat)
    requires Consecutive(sb) && WellLaidOut(sb) && inum < sb.ninodes && b < sb.size
    ensures 2 + 30 <= IBLOCK(sb, inum) < sb.bmapstart <= BBLOCK(sb, b) < DataStart(sb)
  {
  }

  /** The blocks before the inodes are as the constructor writes them: the super block, and zeroes. */
  ghost predicate FrontIntact(sb: SuperBlock, disk: Disk) {
    forall b :: 0 <= b < sb.inodestart && b < |disk| ==> disk[b] == if b == 1 then SuperImage(sb) else ZeroBlock()
  }

  const FSMAGIC: uint32 := 0x10203040

  /** Block 1: the super block, magic number first, padded with zeroes. */
  function SuperImage(sb: SuperBlock): (b: Block) {
    Splice(ZeroBlock(), 0,
           EncodeAddrs([FSMAGIC, sb.size, sb.nblocks, sb.ninodes, sb.nlog, sb.logstart, sb.inodestart, sb.bmapstart]))
  }

  /** What the kernel reads back from block 1. */
  lemma SuperRoundTrip(sb: SuperBlock)
    ensures var b := SuperImage(sb);
            && U32(b, 0) == FSMAGIC
            && SuperBlock(U32(b, 4), U32(b, 8), U32(b, 12), U32(b, 16), U32(b, 20), U32(b, 24), U32(b, 28)) == sb
  {
    var words := [FSMAGIC, sb.size, sb.nblocks, sb.ninodes, sb.nlog, sb.logstart, sb.inodestart, sb.bmapstart];
    var s := EncodeAddrs(words);
    var b := SuperImage(sb);
    assert forall k :: 0 <= k < 32 ==> b[k] == s[k];
    forall k | 0 <= k < 8
      ensures U32(b, 4 * k) == words[k]
    {
      assert U32(b, 4 * k) == U32(s, 4 * k);
    }
    assert U32(b, 4 * 0) == words[0] && U32(b, 4 * 1) == words[1] && U32(b, 4 * 2) == words[2] &&
        U32(b, 4 * 3) == words[3];
    assert U32(b, 4 * 4) == words[4] && U32(b, 4 * 5) == words[5] && U32(b, 4 * 6) == words[6] &&
        U32(b, 4 * 7) == words[7];
  }

  lemma BlankInode(b: Block, p: nat)
    requires p + DINODE <= BSIZE && b == ZeroBlock()
    ensures InodeIn(b, p) == Inode(0, 0, 0, 0, 0, NoAddrs())
  {
    assert InodeIn(b, p).addrs == NoAddrs();
  }

  class Builder {
    const sb: SuperBlock
    var disk: Disk
    var freeinode: nat
    var freeblock: nat
    ghost var inodes: seq<Inode>
    ghost var owner: map<nat, Slot>

    /** What the kernel will find on this disk. */
    ghost function Seen(): (d: Disk)
      reads this
      requires WellLaidOut(sb) && |disk| == sb.size && freeblock <= BPB
    {
      Image(sb, disk, freeblock)
    }

    /**
      Every inode is on disk as recorded, has the blocks its size asks for, and those beyond
      `freeinode` are unused.
     */
    ghost predicate Valid()
      reads this
    {
      && Built(sb, disk, freeblock, inodes, owner) && Consecutive(sb) && FrontIntact(sb, disk)
      && 1 <= freeinode
      && forall i :: 0 <= i < |inodes| ==>
           && DiskInode(sb, disk, i) == inodes[i]
           && Tidy(Seen(), inodes[i])
           && (freeinode <= i ==> inodes[i] == Inode(0, 0, 0, 0, 0, NoAddrs()))
    }

    /** The empty file system: super block written, no inode in use, no data block handed out. */
    constructor (fssize: uint32, ninodes: uint32)
      requires MetaBlocks(fssize, ninodes) <= fssize && MetaBlocks(fssize, ninodes) < BPB
      requires fssize + BPB < 0x8000_0000
      ensures Valid() && sb == MakeSuper(fssize, ninodes) && freeinode == 1 && freeblock == DataStart(sb)
      ensures |inodes| == ninodes
      ensures sb.size == fssize && sb.ninodes == ninodes
      ensures disk[1] == SuperImage(sb)
    {
      sb := MakeSuper(fssize, ninodes);
      disk := seq(fssize, _ => ZeroBlock())[1 := SuperImage(MakeSuper(fssize, ninodes))];
      freeinode := 1;
      freeblock := MetaBlocks(fssize, ninodes);
      inodes := seq(ninodes, _ => Inode(0, 0, 0, 0, 0, NoAddrs()));
      owner := map[];
      new;
      hide BitmapBlock, DecodeInode, SuperImage;
      forall x | 0 <= x < sb.size { ImageUsed(sb, disk, freeblock, x); }
      assert Owned(sb, Seen(), inodes, owner, {});
      forall i | 0 <= i < |inodes|
        ensures DiskInode(sb, disk, i) == inodes[i]
      {
        BlankInode(ZeroBlock(), InodeOffset(i));
      }
    }

    /** Fill slot `k` of the inode at hand from the counter, if it is empty. */
    method TakeAddr(inum: nat, din: Inode, k: nat) returns (din': Inode)
      requires Built(sb, disk, freeblock, inodes, owner)
      requires inum < |inodes| && inodes[inum] == din && k <= NDIRECT
      requires din.addrs[k] == 0 ==> freeblock < Limit(sb)
      modifies this`freeblock, this`inodes, this`owner
      ensures Built(sb, disk, freeblock, inodes, owner)
      ensures inodes == old(inodes)[inum := din'] && SameButAddrs(din, din')
      ensures OwnersGained(old(owner), owner, inum)
      ensures freeblock == old(freeblock) + (if din.addrs[k] == 0 then 1 else 0)
      ensures SameFiles(old(Seen()), old(inodes), Seen(), inodes)
      ensures forall j :: 0 <= j < NSLOT ==>
                Addr(Seen(), din', j) == if j == k && din.addrs[k] == 0 then old(freeblock)
                    else Addr(old(Seen()), din, j)
    {
      hide Owned, SameFiles, Allocated, BitmapBlock;
      SameFilesRefl(Seen(), inodes);
      din' := din;
      assert inodes == inodes[inum := din'];
      if din.addrs[k] == 0 {
        TakeBlock(sb, disk, freeblock);
        GrowAddr(sb, Seen(), inodes, owner, inum, k, freeblock, Image(sb, disk, freeblock + 1));
        NotOwned(sb, Seen(), inodes, owner, Image(sb, disk, freeblock + 1), freeblock);
        din' := WithAddr(din, k, freeblock);
        ghost var b, seen := freeblock, Seen();
        freeblock := freeblock + 1;
        inodes := inodes[inum := din'];
        owner := owner[b := Slot(inum, k)];
        forall j | 0 <= j < NSLOT { SlotFilled(sb, seen, old(inodes), old(owner), Seen(), inodes, b, Slot(inum, k),
            inum, j); }
      }
    }

    /** Fill entry `j` of the indirect block from the counter, if it is empty. */
    method TakeEntry(inum: nat, din: Inode, j: nat) returns (x: uint32)
      requires Built(sb, disk, freeblock, inodes, owner)
      requires inum < |inodes| && inodes[inum] == din && j < NINDIRECT && din.addrs[NDIRECT] != 0
      requires Addr(Seen(), din, NDIRECT + 1 + j) == 0 ==> freeblock < Limit(sb)
      modifies this`disk, this`freeblock, this`owner
      ensures Built(sb, disk, freeblock, inodes, owner)
      ensures OwnersGained(old(owner), owner, inum)
      ensures freeblock == old(freeblock) + (if old(Addr(Seen(), din, NDIRECT + 1 + j)) == 0 then 1 else 0)
      ensures SameFiles(old(Seen()), inodes, Seen(), inodes)
      ensures forall b :: 0 <= b < sb.bmapstart ==> disk[b] == old(disk[b])
      ensures x == Addr(Seen(), din, NDIRECT + 1 + j) != 0
      ensures forall k :: 0 <= k < NSLOT && k != NDIRECT + 1 + j ==> Addr(Seen(), din, k) == Addr(old(Seen()), din, k)
      ensures old(Addr(Seen(), din, NDIRECT + 1 + j)) != 0 ==> x == old(Addr(Seen(), din, NDIRECT + 1 + j))
    {
      hide Owned, SameFiles, Allocated, BitmapBlock, Entry, SetEntry, Fresh, ZeroBlock;
      SameFilesRefl(Seen(), inodes);
      var ind := din.addrs[NDIRECT];
      OwnedShape(sb, Seen(), inodes, owner, {});
      assert Addr(Seen(), din, NDIRECT) == ind;
      SlotOwner(sb, Seen(), inodes, owner, {}, inum, NDIRECT);
      var indirect := disk[ind];
      assert Seen()[ind] == indirect;
      x := Entry(indirect, j);
      if x == 0 {
        TakeBlock(sb, disk, freeblock);
        x := freeblock;
        ghost var seen, mid := Seen(), Image(sb, disk, freeblock + 1);
        freeblock := freeblock + 1;
        disk := disk[ind := SetEntry(indirect, j, x)];
        assert Seen() == mid[ind := SetEntry(mid[ind], j, x)];
        GrowEntry(sb, seen, inodes, owner, inum, j, x, mid, Seen());
        NotOwned(sb, seen, inodes, owner, mid, x);
        owner := owner[x := Slot(inum, NDIRECT + 1 + j)];
        OwnedBelow(sb, old(disk), old(freeblock), inodes, old(owner), ind);
        FreshBelow(sb, old(disk), freeblock, ind, disk[ind]);
        forall k | 0 <= k < NSLOT {
          SlotFilled(sb, seen, inodes, old(owner), Seen(), inodes, x, Slot(inum, NDIRECT + 1 + j), inum, k);
        }
      }
    }

    /** The body of the loop of iappend: choose the block of `off`, then write the chunk into it. */
    method AppendChunk(inum: nat, din: Inode, off: nat, chunk: seq<byte>) returns (din': Inode)
      requires Built(sb, disk, freeblock, inodes, owner)
      requires inum < |inodes| && inodes[inum] == din && Exact(Seen(), din, off)
      requires chunk != [] && off % BSIZE + |chunk| <= BSIZE && off + |chunk| <= MAXBYTES
      requires freeblock + BlockCount(off + |chunk|) - BlockCount(off) <= Limit(sb)
      modifies this`disk, this`freeblock, this`inodes, this`owner
      ensures Built(sb, disk, freeblock, inodes, owner)
      ensures inodes == old(inodes)[inum := din'] && SameButAddrs(din, din')
      ensures OwnersGained(old(owner), owner, inum)
      ensures freeblock == old(freeblock) + BlockCount(off + |chunk|) - BlockCount(off)
      ensures Exact(Seen(), din', off + |chunk|)
      ensures Stored(old(Seen()), old(inodes), Seen(), inodes, inum, off, chunk)
      ensures forall b :: 0 <= b < sb.bmapstart ==> disk[b] == old(disk[b])
    {
      hide Owned, SameFiles, Stored, BitmapBlock, BlockCount;
      var fbn := off / BSIZE;
      var x: uint32;
      CountStep(off, |chunk|);
      ghost var seen0, i0 := Seen(), inodes;
      SameFilesRefl(seen0, i0);
      if fbn < NDIRECT {
        assert Addr(Seen(), din, DataSlot(fbn)) == din.addrs[fbn];
        din' := TakeAddr(inum, din, fbn);
        assert Addr(Seen(), din', NDIRECT) == Addr(seen0, din, NDIRECT) && Addr(Seen(), din', fbn) != 0;
        x := din'.addrs[fbn];
      } else {
        din' := TakeAddr(inum, din, NDIRECT);
        assert Addr(Seen(), din', NDIRECT) != 0;
        assert Addr(Seen(), din', DataSlot(fbn)) == Addr(seen0, din, DataSlot(fbn));
        ghost var seen1, i1, o1 := Seen(), inodes, owner;
        x := TakeEntry(inum, din', fbn - NDIRECT);
        SameFilesTrans(seen0, i0, seen1, i1, Seen(), inodes);
        OwnersGainedTrans(old(owner), o1, owner, inum);
      }
      ExactStep(seen0, din, Seen(), din', off, |chunk|);
      ghost var seen2 := Seen();
      WriteBlock(inum, din', off, chunk, x);
      ExactMoved(seen2, din', Seen(), din', off + |chunk|);
      SameThenStored(seen0, i0, seen2, inodes, Seen(), inodes, inum, off, chunk);
    }

    /** bcopy into block `x` at the offset within the block, and write it back. */
    method WriteBlock(inum: nat, din: Inode, off: nat, chunk: seq<byte>, x: uint32)
      requires Built(sb, disk, freeblock, inodes, owner)
      requires inum < |inodes| && inodes[inum] == din
      requires chunk != [] && off % BSIZE + |chunk| <= BSIZE && off + |chunk| <= MAXBYTES
      requires x == Addr(Seen(), din, DataSlot(off / BSIZE)) != 0
      modifies this`disk
      ensures Built(sb, disk, freeblock, inodes, owner)
      ensures Stored(old(Seen()), inodes, Seen(), inodes, inum, off, chunk)
      ensures forall k :: 0 <= k < NSLOT ==> Addr(Seen(), din, k) == Addr(old(Seen()), din, k)
      ensures forall b :: 0 <= b < sb.bmapstart ==> disk[b] == old(disk[b])
    {
      hide Owned, Stored, BitmapBlock;
      OwnedShape(sb, Seen(), inodes, owner, {});
      SlotOwner(sb, Seen(), inodes, owner, {}, inum, DataSlot(off / BSIZE));
      OwnedBelow(sb, disk, freeblock, inodes, owner, x);
      var buf := disk[x];
      disk := disk[x := Splice(buf, off - off / BSIZE * 1024, chunk)];
      assert off - off / BSIZE * 1024 == off % BSIZE;
      assert Seen() == old(Seen())[x := Splice(old(Seen())[x], off % BSIZE, chunk)];
      StoreChunk(sb, old(Seen()), inodes, owner, Seen(), inum, off, chunk);
      ghost var seen0, seen1 := old(Seen()), Seen();
      forall k | 0 <= k < NSLOT
        ensures Addr(seen1, din, k) == Addr(seen0, din, k)
      {
        SlotsFollow(sb, seen0, inodes, owner, seen1, inodes, inum, k);
      }
    }

    /** winode: store an inode whose block numbers are those at hand. */
    method Winode(inum: nat, din: Inode)
      requires Built(sb, disk, freeblock, inodes, owner)
      requires inum < |inodes| && din.addrs == inodes[inum].addrs
      modifies this`disk, this`inodes
      ensures Built(sb, disk, freeblock, inodes, owner)
      ensures inodes == old(inodes)[inum := din]
      ensures SameFiles(old(Seen()), old(inodes), Seen(), inodes)
      ensures forall i :: 0 <= i < |inodes| ==>
              DiskInode(sb, disk, i) == if i == inum then din else DiskInode(sb, old(disk), i)
      ensures forall i, k :: 0 <= i < |inodes| && 0 <= k < NSLOT ==>
              Addr(Seen(), inodes[i], k) == Addr(old(Seen()), old(inodes)[i], k)
      ensures forall b :: 0 <= b < sb.inodestart ==> disk[b] == old(disk[b])
    {
      hide Owned, SameFiles, BitmapBlock, DecodeInode, PutInode;
      OwnedShape(sb, Seen(), inodes, owner, {});
      ghost var seen0, i0, d0 := Seen(), inodes, disk;
      disk := StoreInode(sb, disk, inum, din);
      inodes := inodes[inum := din];
      forall i | 0 <= i < |inodes| { StoreInodeReads(sb, d0, inum, din, i); }
      ghost var seen1 := Seen();
      RecordOwned(sb, seen0, i0, owner, inum, din);
      assert forall b :: sb.bmapstart <= b < sb.size ==> seen1[b] == seen0[b];
      WriteMeta(sb, seen0, inodes, owner, {}, seen1);
      SameFilesTrans(seen0, i0, seen0, inodes, seen1, inodes);
      forall i, k | 0 <= i < |inodes| && 0 <= k < NSLOT
        ensures Addr(seen1, inodes[i], k) == Addr(seen0, i0[i], k)
      {
        SlotsFollow(sb, seen0, i0, owner, seen1, inodes, i, k);
      }
    }

    /** rinode, append, winode: the file grows by exactly `data`, and no other file changes. */
    method Iappend(inum: nat, data: seq<byte>)
      requires Valid() && inum < |inodes| && inum < freeinode
      requires inodes[inum].size + |data| <= MAXBYTES      // otherwise: assert(fbn < MAXFILE) fails
      requires freeblock + BlockCount(inodes[inum].size + |data|) - BlockCount(inodes[inum].size) <= Limit(sb)
      modifies this`disk, this`freeblock, this`inodes, this`owner
      ensures Valid() && |inodes| == |old(inodes)|
      ensures freeblock == old(freeblock) + BlockCount(inodes[inum].size) - old(BlockCount(inodes[inum].size))
      ensures Content(Seen(), inodes[inum]) == old(Content(Seen(), inodes[inum])) + data
      ensures SameButAddrs(WithSize(old(inodes[inum]), inodes[inum].size), inodes[inum])
      ensures forall i :: 0 <= i < |inodes| && i != inum ==>
                inodes[i] == old(inodes)[i] && Content(Seen(), inodes[i]) == Content(old(Seen()), inodes[i])
    {
      hide Owned, Stored, SameFiles, BitmapBlock, BlockCount, Content, Splice, DecodeInode, Exact, ZeroTail,
          OwnersGained, Fresh;
      ghost var seen0, i0, o0 := Seen(), inodes, owner;
      OwnedShape(sb, Seen(), inodes, owner, {});
      var din := DiskInode(sb, disk, inum);
      din := AppendAll(inum, din, data);
      OwnedShape(sb, Seen(), inodes, owner, {});
      ghost var seen1, i1, o1 := Seen(), inodes, owner;
      Winode(inum, din);
      OwnedShape(sb, Seen(), inodes, owner, {});
      StoredThenSame(seen0, i0, seen1, i1, Seen(), inodes, inum, i0[inum].size, data);
      StoredContent(seen0, i0, Seen(), inodes, inum, i0[inum].size, data);
      SpliceEnd(Content(seen0, i0[inum]), data);
      forall i | 0 <= i < |inodes|
        ensures Tidy(Seen(), inodes[i])
      {
        StoredTail(seen0, i0, Seen(), inodes, inum, i, data);
        if i == inum {
          ExactMoved(seen1, i1[i], Seen(), inodes[i], inodes[i].size);
        } else {
          forall k | 0 <= k < NSLOT { OtherSlots(sb, seen0, i0, o0, seen1, i1, o1, inum, i, k); }
          ExactMoved(seen0, i0[i], seen1, i1[i], inodes[i].size);
          ExactMoved(seen1, i1[i], Seen(), inodes[i], inodes[i].size);
        }
      }
    }

    /** The loop of iappend. */
    method AppendAll(inum: nat, din0: Inode, data: seq<byte>) returns (din: Inode)
      requires Built(sb, disk, freeblock, inodes, owner)
      requires inum < |inodes| && inodes[inum] == din0 && Exact(Seen(), din0, din0.size)
      requires din0.size + |data| <= MAXBYTES
      requires freeblock + BlockCount(din0.size + |data|) - BlockCount(din0.size) <= Limit(sb)
      modifies this`disk, this`freeblock, this`inodes, this`owner
      ensures Built(sb, disk, freeblock, inodes, owner) && OwnersGained(old(owner), owner, inum)
      ensures |inodes| == |old(inodes)| && inodes == old(inodes)[inum := inodes[inum]]
      ensures din == WithSize(inodes[inum], din0.size + |data|) && SameButAddrs(din0, inodes[inum])
      ensures Exact(Seen(), inodes[inum], din0.size + |data|)
      ensures freeblock == old(freeblock) + BlockCount(din0.size + |data|) - BlockCount(din0.size)
      ensures Stored(old(Seen()), old(inodes), Seen(), inodes, inum, din0.size, data)
      ensures forall b :: 0 <= b < sb.bmapstart ==> disk[b] == old(disk[b])
    {
      hide Owned, Stored, BitmapBlock, BlockCount, DecodeInode, Exact, OwnersGained, Fresh;
      OwnedShape(sb, Seen(), inodes, owner, {});
      ghost var seen0 := Seen();
      din := din0;
      var off, done := din.size, 0;
      StoredNothing(Seen(), inodes, inum, off);
      OwnersGainedNothing(owner, inum);
      assert data[..0] == [] && inodes == inodes[inum := din];
      while done < |data|
        invariant 0 <= done <= |data| && off == din0.size + done
        invariant Built(sb, disk, freeblock, inodes, owner) && OwnersGained(old(owner), owner, inum)
        invariant inodes == old(inodes)[inum := din] && SameButAddrs(din0, din) && Exact(Seen(), din, off)
        invariant freeblock == old(freeblock) + BlockCount(off) - BlockCount(din0.size)
        invariant Stored(seen0, old(inodes), Seen(), inodes, inum, din0.size, data[..done])
        invariant forall b :: 0 <= b < sb.bmapstart ==> disk[b] == old(disk[b])
      {
        var fbn := off / BSIZE;
        var n1 := Min(|data| - done, (fbn + 1) * 1024 - off);
        ghost var seen1, i1, o1 := Seen(), inodes, owner;
        CountMonotone(off + n1, din0.size + |data|);
        din := AppendChunk(inum, din, off, data[done..done + n1]);
        OwnersGainedTrans(old(owner), o1, owner, inum);
        StoredTwice(seen0, old(inodes), seen1, i1, Seen(), inodes, inum, din0.size, data[..done],
            data[done..done + n1]);
        assert data[..done] + data[done..done + n1] == data[..done + n1];
        off, done := off + n1, done + n1;
      }
      assert data[..done] == data;
      din := WithSize(din, off);
    }

    /** ialloc: the next inode, of the given type, with one link and no contents. */
    method Ialloc(kind: uint16) returns (inum: nat)
      requires Valid() && freeinode < |inodes|
      modifies this`disk, this`freeinode, this`inodes
      ensures Valid()
      ensures inum == old(freeinode) && freeinode == old(freeinode) + 1
      ensures inodes == old(inodes)[inum := Inode(kind, 0, 0, 1, 0, NoAddrs())]
      ensures forall i :: 0 <= i < |inodes| ==> Content(Seen(), inodes[i]) == Content(old(Seen()), old(inodes)[i])
    {
      hide Owned, BitmapBlock, DecodeInode, Exact;
      OwnedShape(sb, Seen(), inodes, owner, {});
      ghost var seen0, i0 := Seen(), inodes;
      inum := freeinode;
      freeinode := freeinode + 1;
      Winode(inum, Inode(kind, 0, 0, 1, 0, NoAddrs()));
      OwnedShape(sb, Seen(), inodes, owner, {});
      forall i | 0 <= i < |inodes|
        ensures Tidy(Seen(), inodes[i]) && Content(Seen(), inodes[i]) == Content(seen0, i0[i])
      {
        assert Tidy(seen0, i0[i]);
        ExactMoved(seen0, i0[i], Seen(), inodes[i], inodes[i].size);
        assert forall p :: 0 <= p < inodes[i].size ==> FileByte(Seen(), inodes[i], p) == FileByte(seen0, i0[i], p);
      }
    }

    /**
      balloc: mark the first `used` blocks in the bitmap, which must fit one block.  From here on the
      disk is what the kernel sees.
     */
    method Balloc(used: nat)
      requires WellLaidOut(sb) && |disk| == sb.size && used == freeblock < BPB
      modifies this`disk
      ensures disk == old(Seen())
    {
      var buf := ZeroBlock();
      var i := 0;
      while i < used
        invariant 0 <= i <= used && buf == BitmapBlock(i)
      {
        buf := buf[i / 8 := OrMask(buf[i / 8], i % 8)];
        i := i + 1;
      }
      disk := disk[sb.bmapstart := buf];
    }

    /** ialloc(T_FILE), an entry in the root directory, then the contents in pieces of at most a block. */
    method AddFile(name: seq<byte>, content: seq<byte>) returns (inum: nat)
      requires Valid() && 2 <= freeinode < |inodes| && freeinode < 0x1_0000 && Readable(name)
      requires inodes[1].size + DENTRY <= MAXBYTES && |content| <= MAXBYTES
      requires freeblock + BlockCount(inodes[1].size + DENTRY) - BlockCount(inodes[1].size) + BlockCount(|content|)
               <= Limit(sb)
      modifies this
      ensures Valid() && |inodes| == |old(inodes)| && inum == old(freeinode) && freeinode == inum + 1
      ensures Content(Seen(), inodes[1]) == old(Content(Seen(), inodes[1])) + DirEntry(inum, NameOf(name))
      ensures Content(Seen(), inodes[inum]) == content && inodes[inum].kind == T_FILE
      ensures inodes[1].kind == old(inodes[1].kind)
      ensures freeblock
              == old(freeblock) + BlockCount(inodes[1].size) - old(BlockCount(inodes[1].size)) + BlockCount(|content|)
      ensures forall i :: 0 <= i < |inodes| && i != 1 && i != inum ==>
                inodes[i] == old(inodes)[i] && Content(Seen(), inodes[i]) == Content(old(Seen()), inodes[i])
    {
      hide BlockCount, Owned, Exact, ZeroTail, Fresh, Content, Image, DiskInode, NameOf;
      ghost var n := |inodes|;
      inum := Ialloc(T_FILE);
      var short := Strncpy(name);
      assert BlockCount(0) == 0 by { CountZero(); }
      CountMonotone(0, |content|);
      Iappend(1, DirEntry(inum, short));
      ghost var f1, c1, i1, seen1 := freeblock, Content(Seen(), inodes[1]), inodes, Seen();
      var done := 0;
      assert content[..0] == [];
      while done < |content|
        invariant 0 <= done <= |content| && Valid() && |inodes| == n && freeinode == inum + 1
        invariant freeblock == f1 + BlockCount(done)
        invariant inodes[inum].kind == T_FILE && inodes[inum].size == done
        invariant Content(Seen(), inodes[inum]) == content[..done]
        invariant forall i :: 0 <= i < |inodes| && i != inum ==>
                    inodes[i] == i1[i] && Content(Seen(), inodes[i]) == Content(seen1, i1[i])
      {
        var cc := Min(|content| - done, BSIZE);
        CountMonotone(done + cc, |content|);
        Iappend(inum, content[done..done + cc]);
        assert content[..done] + content[done..done + cc] == content[..done + cc];
        done := done + cc;
      }
      assert content[..done] == content;
    }

    /** main: root directory, files, the rounded-up size of the root, the bitmap. */
    method Build(files: seq<FileSpec>)
      requires Valid() && freeinode == 1 && freeblock == DataStart(sb)
      requires 2 + |files| <= |inodes| && 2 + |files| < 0x1_0000 && 16 * (2 + |files|) < MAXBYTES
      requires forall i :: 0 <= i < |files| ==> Readable(files[i].name) && |files[i].content| <= MAXBYTES
      requires DataStart(sb) + BlockCount(16 * (2 + |files|)) + SumBlocks(files) <= Limit(sb)
      modifies this
      ensures |inodes| == |old(inodes)|
      ensures Owned(sb, disk, inodes, owner, {}) && SizesFit(inodes)
      ensures forall i :: 0 <= i < |inodes| ==> DiskInode(sb, disk, i) == inodes[i]
      ensures forall b :: 0 <= b < sb.size ==> (Used(sb, disk, b) <==> b < freeblock)
      ensures freeblock == DataStart(sb) + BlockCount(16 * (2 + |files|)) + SumBlocks(files)
      ensures Consecutive(sb) && |disk| == sb.size && FrontIntact(sb, disk)
      ensures inodes[1].kind == T_DIR
      ensures Content(disk, inodes[1]) == RootEntries(files) + Zeroes(1024 - 16 * (2 + |files|) % 1024)
      ensures forall i :: 2 <= i < 2 + |files| ==>
                inodes[i].kind == T_FILE && Content(disk, inodes[i]) == files[i - 2].content && NoHoles(disk, inodes[i])
      ensures Exact(disk, inodes[1], 16 * (2 + |files|)) && (NoHoles(disk, inodes[1]) <==> |files| % 64 != 62)
      ensures DistinctNames(files) ==>
                var c := Content(disk, inodes[1]); IsDirectory(c) && DotsFirst(c) && Bindings(c) == RootMap(files)
    {
      hide DistinctNames, UniqueNames, Bindings, RootEntries, SlotName, SlotInum, RootMap;
      hide BlockCount, Owned, Exact, ZeroTail, Fresh, Content, Image, DiskInode, NameOf, DirEntry, NoHoles, Used;
      CountMonotone(32, 16 * (2 + |files|));
      MakeRoot();
      AddFiles(files);
      Finish();
      RootHole(|files|);
      if DistinctNames(files) {
        RootIsDirectory(files);
        PaddedDirectory(RootEntries(files), 1024 - 16 * (2 + |files|) % 1024);
      }
    }

    /** The root directory with its two entries. */
    method MakeRoot()
      requires Valid() && freeinode == 1 && 2 <= |inodes|
      requires freeblock + BlockCount(32) <= Limit(sb)
      modifies this
      ensures Valid() && |inodes| == |old(inodes)| && freeinode == 2
      ensures inodes[1].kind == T_DIR && Content(Seen(), inodes[1]) == RootEntries([])
      ensures freeblock == old(freeblock) + BlockCount(32)
    {
      hide BlockCount, Owned, Exact, ZeroTail, Fresh, Content, Image, DiskInode, NameOf, DirEntry;
      CountZero();
      CountMonotone(16, 32);
      var rootino := Ialloc(T_DIR);
      var dot := Strncpy(DotString());
      Iappend(rootino, DirEntry(rootino, dot));
      var dotdot := Strncpy(DotDotString());
      Iappend(rootino, DirEntry(rootino, dotdot));
    }

    /** The loop over the files given on the command line. */
    method AddFiles(files: seq<FileSpec>)
      requires Valid() && freeinode == 2 && 2 + |files| <= |inodes| && 2 + |files| < 0x1_0000 &&
              16 * (2 + |files|) < MAXBYTES
      requires inodes[1].kind == T_DIR && Content(Seen(), inodes[1]) == RootEntries([])
      requires forall i :: 0 <= i < |files| ==> Readable(files[i].name) && |files[i].content| <= MAXBYTES
      requires freeblock - BlockCount(32) + BlockCount(16 * (2 + |files|)) + SumBlocks(files) <= Limit(sb)
      modifies this
      ensures Valid() && |inodes| == |old(inodes)| && freeinode == 2 + |files|
      ensures inodes[1].kind == T_DIR && Content(Seen(), inodes[1]) == RootEntries(files)
      ensures freeblock == old(freeblock) - BlockCount(32) + BlockCount(16 * (2 + |files|)) + SumBlocks(files)
      ensures forall i :: 2 <= i < 2 + |files| ==>
              inodes[i].kind == T_FILE && Content(Seen(), inodes[i]) == files[i - 2].content
    {
      hide BlockCount, Owned, Exact, ZeroTail, Fresh, Content, Image, DiskInode, NameOf, DirEntry, SizesFit;
      var n := |files|;
      assert files[..0] == [];
      var i := 0;
      while i < n
        invariant 0 <= i <= n && Valid() && |inodes| == |old(inodes)| && freeinode == 2 + i
        invariant inodes[1].kind == T_DIR && Content(Seen(), inodes[1]) == RootEntries(files[..i])
        invariant freeblock == old(freeblock) - BlockCount(32) + BlockCount(16 * (2 + i)) + SumBlocks(files[..i])
        invariant forall j :: 2 <= j < 2 + i ==>
                inodes[j].kind == T_FILE && Content(Seen(), inodes[j]) == files[j - 2].content
      {
        assert files[..i + 1][..i] == files[..i];
        SumMonotone(files, i + 1);
        CountMonotone(16 * (3 + i), 16 * (2 + n));
        var inum := AddFile(files[i].name, files[i].content);
        i := i + 1;
      }
      assert files[..n] == files;
    }

    /** The end of main: round the size of the root up to the next block, then write the bitmap. */
    method Finish()
      requires Valid() && 1 < |inodes| && 1 < freeinode && inodes[1].size < MAXBYTES
      modifies this
      ensures Owned(sb, disk, inodes, owner, {}) && freeblock == old(freeblock)
      ensures |inodes| == |old(inodes)| &&
              inodes == old(inodes)[1 := WithSize(old(inodes[1]), RoundUp(old(inodes[1].size)))]
      ensures SizesFit(inodes)
      ensures forall i :: 0 <= i < |inodes| ==> DiskInode(sb, disk, i) == inodes[i]
      ensures forall b :: 0 <= b < sb.size ==> (Used(sb, disk, b) <==> b < freeblock)
      ensures Content(disk, inodes[1]) ==
              Content(old(Seen()), old(inodes)[1]) + Zeroes(1024 - old(inodes[1].size) % 1024)
      ensures forall i :: 0 <= i < |inodes| && i != 1 ==>
              Content(disk, inodes[i]) == Content(old(Seen()), old(inodes)[i])
      ensures forall i :: 0 <= i < |inodes| && i != 1 ==> NoHoles(disk, inodes[i])
      ensures Exact(disk, inodes[1], old(inodes[1].size))
      ensures NoHoles(disk, inodes[1]) <==> old(inodes[1].size) % 1024 != 0
      ensures |disk| == sb.size && FrontIntact(sb, disk)
    {
      hide Owned, Exact, ZeroTail, Content, BitmapBlock, NoHoles, Used, SameFiles, DiskInode, Fresh, ZeroBlock, Zeroes;
      OwnedShape(sb, Seen(), inodes, owner, {});
      ghost var seen0, i0 := Seen(), inodes;
      var din := DiskInode(sb, disk, 1);
      var off := (din.size / BSIZE + 1) * 1024;
      Winode(1, WithSize(din, off));
      OwnedShape(sb, Seen(), inodes, owner, {});
      ghost var seen1 := Seen();
      forall b | 0 <= b < sb.size { ImageUsed(sb, disk, freeblock, b); }
      ghost var d1 := disk;
      Balloc(freeblock);
      assert disk == seen1;
      ImageInodes(sb, d1, freeblock, |inodes|);
      forall i | 0 <= i < |inodes|
        ensures i != 1 ==> Content(disk, inodes[i]) == Content(seen0, i0[i]) && NoHoles(disk, inodes[i])
        ensures i == 1 ==> Content(disk, inodes[i]) == Content(seen0, i0[i]) + Zeroes(1024 - i0[i].size % 1024)
        ensures i == 1 ==> Exact(disk, inodes[i], i0[i].size) && (NoHoles(disk, inodes[i]) <==> i0[i].size % 1024 != 0)
      {
        FinishFile(seen0, i0, seen1, inodes, i);
      }
    }
  }

  /** ((off / BSIZE) + 1) * BSIZE */
  function RoundUp(size: nat): (n: nat) { (size / 1024 + 1) * 1024 }

  /** Files keep their contents and have no holes; the root gains zeroes, and a hole if it ended on a block boundary. */
  lemma FinishFile(seen0: Disk, i0: seq<Inode>, seen1: Disk, i1: seq<Inode>, i: nat)
    requires 1 < |i0| && i < |i0| && Tidy(seen0, i0[i]) && SameFiles(seen0, i0, seen1, i1)
    requires i1[i] == if i == 1 then WithSize(i0[i], RoundUp(i0[i].size)) else i0[i]
    requires i == 1 ==> i0[i].size < MAXBYTES
    requires forall k :: 0 <= k < NSLOT ==> Addr(seen1, i1[i], k) == Addr(seen0, i0[i], k)
    ensures i1[i].size <= MAXBYTES
    ensures i != 1 ==> Content(seen1, i1[i]) == Content(seen0, i0[i]) && NoHoles(seen1, i1[i])
    ensures i == 1 ==> Content(seen1, i1[i]) == Content(seen0, i0[i]) + Zeroes(1024 - i0[i].size % 1024)
    ensures i == 1 ==> Exact(seen1, i1[i], i0[i].size) && (NoHoles(seen1, i1[i]) <==> i0[i].size % 1024 != 0)
  {
    assert Addr(seen1, i1[i], NDIRECT) == Addr(seen0, i0[i], NDIRECT);
    assert forall p :: 0 <= p < MAXBYTES ==> FileByte(seen1, i1[i], p) == FileByte(seen0, i0[i], p);
    var bn := i0[i].size / 1024;
    assert bn < MAXFILE ==> (Addr(seen0, i0[i], DataSlot(bn)) != 0 <==> bn * 1024 < i0[i].size);
  }

  /** Writing the bitmap does not touch the inode blocks. */
  lemma ImageInodes(sb: SuperBlock, disk: Disk, freeblock: nat, n: nat)
    requires WellLaidOut(sb) && |disk| == sb.size && freeblock <= BPB && n == sb.ninodes
    ensures forall i :: 0 <= i < n ==> DiskInode(sb, Image(sb, disk, freeblock), i) == DiskInode(sb, disk, i)
  {
  }

  const T_FILE: uint16 := 2

  datatype FileSpec = FileSpec(name: seq<byte>, content: seq<byte>)

  function SumBlocks(files: seq<FileSpec>): (n: nat) {
    if files == [] then 0 else SumBlocks(files[..|files| - 1]) + BlockCount(|files[|files| - 1].content|)
  }

  /** The root directory after adding `files`: ".", "..", then one entry for each file. */
  ghost function RootEntries(files: seq<FileSpec>): (s: seq<byte>)
    ensures |s| == 16 * (2 + |files|)
  {
    if files == [] then DirEntry(1, NameOf(DotString())) + DirEntry(1, NameOf(DotDotString()))
    else RootEntries(files[..|files| - 1]) + DirEntry((1 + |files|) % 0x1_0000, NameOf(files[|files| - 1].name))
  }

  function Zeroes(n: nat): (s: seq<byte>)
    ensures |s| == n
  {
    seq(n, _ => 0)
  }

  lemma CountZero()
    ensures BlockCount(0) == 0
  {
  }

  lemma {:induction false} SumMonotone(files: seq<FileSpec>, n: nat)
    requires n <= |files|
    ensures SumBlocks(files[..n]) <= SumBlocks(files)
    decreases |files|
  {
    if n == |files| {
      assert files[..n] == files;
    } else {
      assert files[..|files| - 1][..n] == files[..n];
      SumMonotone(files[..|files| - 1], n);
    }
  }

  lemma ExactMoved(disk: Disk, i: Inode, disk': Disk, i': Inode, size: nat)
    requires Exact(disk, i, size) && forall k :: 0 <= k < NSLOT ==> Addr(disk', i', k) == Addr(disk, i, k)
    ensures Exact(disk', i', size)
  {
    assert Addr(disk', i', NDIRECT) == Addr(disk, i, NDIRECT);
  }

  lemma StoredTail(disk: Disk, inodes: seq<Inode>, disk': Disk, inodes': seq<Inode>, inum: nat, i: nat, data: seq<byte>)
    requires i < |inodes| && inum < |inodes| && Stored(disk, inodes, disk', inodes', inum, inodes[inum].size, data)
    requires ZeroTail(disk, inodes[i])
    requires inodes'[i].size == inodes[i].size + (if i == inum then |data| else 0)
    ensures ZeroTail(disk', inodes'[i])
  {
  }

  lemma OwnersGainedNothing(owner: map<nat, Slot>, inum: nat)
    ensures OwnersGained(owner, owner, inum)
  {
  }

  lemma CountMonotone(a: nat, b: nat)
    requires a <= b
    ensures BlockCount(a) <= BlockCount(b)
  {
  }

  lemma SpliceEnd(c: seq<byte>, data: seq<byte>)
    ensures Splice(c, |c|, data) == c + data
  {
  }

  /** When a chunk goes to a block of its own, and when an indirect block comes with it. */
  lemma CountStep(off: nat, m: nat)
    requires 0 < m && off % BSIZE + m <= BSIZE
    ensures BlockCount(off + m) - BlockCount(off)
            == (if off % BSIZE == 0 then 1 else 0) + (if off == 12288 then 1 else 0)
  {
  }

  lemma ExactStep(disk: Disk, i: Inode, disk': Disk, i': Inode, off: nat, m: nat)
    requires Exact(disk, i, off) && 0 < m && off % BSIZE + m <= BSIZE && off + m <= MAXBYTES
    requires forall k :: 0 <= k < NSLOT && k != NDIRECT && k != DataSlot(off / BSIZE) ==>
            Addr(disk', i', k) == Addr(disk, i, k)
    requires Addr(disk', i', DataSlot(off / BSIZE)) != 0
    requires off / BSIZE < NDIRECT ==> i'.addrs[NDIRECT] == i.addrs[NDIRECT]
    requires off / BSIZE >= NDIRECT ==> i'.addrs[NDIRECT] != 0
    ensures Exact(disk', i', off + m)
  {
    forall bn | 0 <= bn < MAXFILE
      ensures Addr(disk', i', DataSlot(bn)) != 0 <==> bn * 1024 < off + m
    {
      assert Addr(disk, i, DataSlot(bn)) != 0 <==> bn * 1024 < off;
      assert bn != off / BSIZE ==> DataSlot(bn) != DataSlot(off / BSIZE);
    }
  }

  lemma SameThenStored(d0: Disk, i0: seq<Inode>, d1: Disk, i1: seq<Inode>, d2: Disk, i2: seq<Inode>,
                       inum: nat, off: nat, data: seq<byte>)
    requires SameFiles(d0, i0, d1, i1) && Stored(d1, i1, d2, i2, inum, off, data)
    ensures Stored(d0, i0, d2, i2, inum, off, data)
  {
  }

  lemma NotOwned(sb: SuperBlock, disk: Disk, inodes: seq<Inode>, owner: map<nat, Slot>, disk': Disk, b: nat)
    requires Owned(sb, disk, inodes, owner, {}) && Allocated(sb, disk, disk', b)
    ensures b !in owner
  {
  }

  /** A write to a block handed out earlier leaves the rest zero. */
  lemma FreshBelow(sb: SuperBlock, disk: Disk, freeblock: nat, b: nat, blk: Block)
    requires WellLaidOut(sb) && |disk| == sb.size && DataStart(sb) <= b < freeblock <= sb.size &&
            Fresh(sb, disk, freeblock)
    ensures Fresh(sb, disk[b := blk], freeblock)
  {
  }

  lemma OwnedBelow(sb: SuperBlock, disk: Disk, freeblock: nat, inodes: seq<Inode>, owner: map<nat, Slot>, b: nat)
    requires Built(sb, disk, freeblock, inodes, owner) && b in owner
    ensures DataStart(sb) <= b < freeblock
  {
    ImageUsed(sb, disk, freeblock, b);
  }

  /** The root ends on a block boundary, and so gets a hole, when mkfs is given 62 files, or 126, and so on. */
  lemma RootHole(n: nat)
    ensures 16 * (2 + n) % 1024 == 0 <==> n % 64 == 62
  {
  }

  // ---------------------------------------------------------------------------
  // The root directory as a map
  // ---------------------------------------------------------------------------

  ghost predicate DistinctNames(files: seq<FileSpec>) {
    && (forall i :: 0 <= i < |files| ==>
          NameOf(files[i].name) != NameOf(DotString()) && NameOf(files[i].name) != NameOf(DotDotString()))
    && (forall i, j :: 0 <= i < j < |files| ==> NameOf(files[i].name) != NameOf(files[j].name))
  }

  /** File number `i` on the command line gets inode `2 + i`. */
  ghost function RootMap(files: seq<FileSpec>): (m: map<Name, uint16>) {
    if files == [] then map[NameOf(DotString()) := 1, NameOf(DotDotString()) := 1]
    else RootMap(files[..|files| - 1])[NameOf(files[|files| - 1].name) := (1 + |files|) % 0x1_0000]
  }

  lemma {:induction false} RootMapNames(files: seq<FileSpec>, n: Name)
    ensures n in RootMap(files) <==>
              n == NameOf(DotString()) || n == NameOf(DotDotString())
              || exists i :: 0 <= i < |files| && NameOf(files[i].name) == n
  {
    hide NameOf;
    if files != [] {
      var k := |files| - 1;
      RootMapNames(files[..k], n);
      if i :| 0 <= i < |files| && NameOf(files[i].name) == n {
        assert i < k ==> files[..k][i] == files[i];
      }
    }
  }

  /** With distinct names the root directory is a proper directory, and maps each name to its file. */
  /** The dots lead to the root, and each name to its file. */
  lemma {:induction false} RootMapAt(files: seq<FileSpec>)
    requires DistinctNames(files) && 2 + |files| < 0x1_0000
    ensures NameOf(DotString()) in RootMap(files) && RootMap(files)[NameOf(DotString())] == 1
    ensures NameOf(DotDotString()) in RootMap(files) && RootMap(files)[NameOf(DotDotString())] == 1
    ensures forall i :: 0 <= i < |files| ==>
              NameOf(files[i].name) in RootMap(files) && RootMap(files)[NameOf(files[i].name)] == 2 + i
  {
    hide NameOf;
    if files != [] {
      var n := |files| - 1;
      RootMapAt(files[..n]);
      forall i | 0 <= i < |files|
        ensures NameOf(files[i].name) in RootMap(files) && RootMap(files)[NameOf(files[i].name)] == 2 + i
      {
        if i < n {
          assert files[..n][i] == files[i];
        }
      }
    }
  }

  lemma {:induction false} RootIsDirectory(files: seq<FileSpec>)
    requires DistinctNames(files) && 2 + |files| < 0x1_0000
    ensures IsDirectory(RootEntries(files)) && DotsFirst(RootEntries(files))
    ensures Bindings(RootEntries(files)) == RootMap(files)
  {
    hide NameOf, Bindings, UniqueNames, SlotName, SlotInum, DirEntry;
    if files == [] {
      var a, b := NameOf(DotString()), NameOf(DotDotString());
      NoBindings();
      DotsDiffer();
      NameOfName(DotString());
      NameOfName(DotDotString());
      AppendEntry([], 1, a);
      AppendEntry([] + DirEntry(1, a), 1, b);
      assert [] + DirEntry(1, a) + DirEntry(1, b) == RootEntries(files);
      assert map[][a := 1 as uint16][b := 1] == RootMap(files);
    } else {
      var k := |files| - 1;
      var n := NameOf(files[k].name);
      assert DistinctNames(files[..k]) by {
        assert forall i :: 0 <= i < k ==> files[..k][i] == files[i];
      }
      RootIsDirectory(files[..k]);
      RootMapNames(files[..k], n);
      NameOfName(files[k].name);
      AppendEntry(RootEntries(files[..k]), (2 + k) % 0x1_0000, n);
    }
  }

  lemma AppendEntry(c: seq<byte>, inum: uint16, name: Name)
    requires IsDirectory(c) && NameOf(name) == name && name !in Bindings(c) && inum != 0
    ensures var c' := c + DirEntry(inum, name);
            && IsDirectory(c') && Bindings(c') == Bindings(c)[name := inum]
            && NSlots(c') == NSlots(c) + 1 && Live(c', NSlots(c)) && SlotName(c', NSlots(c)) == name
            && forall t :: 0 <= t < NSlots(c) ==> SlotInum(c', t) == SlotInum(c, t) && SlotName(c', t) == SlotName(c, t)
  {
    hide NameOf, Bindings, UniqueNames, SlotName, SlotInum, DirEntry;
    assert Splice(c, 16 * NSlots(c), DirEntry(inum, name)) == c + DirEntry(inum, name);
    LinkFilled(c, NSlots(c), inum, name);
  }

  /** Rounding the size up adds slots that hold nothing. */
  lemma PaddedDirectory(c: seq<byte>, n: nat)
    requires IsDirectory(c) && n % 16 == 0
    ensures IsDirectory(c + Zeroes(n)) && Bindings(c + Zeroes(n)) == Bindings(c)
    ensures DotsFirst(c) ==> DotsFirst(c + Zeroes(n))
    ensures forall t :: NSlots(c) <= t < NSlots(c + Zeroes(n)) ==> !Live(c + Zeroes(n), t)
  {
    hide NameOf, Bindings;
    var c' := c + Zeroes(n);
    forall t | 0 <= t < NSlots(c')
      ensures if t < NSlots(c) then SlotInum(c', t) == SlotInum(c, t) && SlotName(c', t) == SlotName(c, t)
              else !Live(c', t)
    {
      if t < NSlots(c) {
        assert c'[16 * t + 2..16 * t + 16] == c[16 * t + 2..16 * t + 16];
      }
    }
    PaddedSlots(c, c');
  }

  lemma PaddedSlots(c: seq<byte>, c': seq<byte>)
    requires UniqueNames(c) && NSlots(c) <= NSlots(c')
    requires forall t :: 0 <= t < NSlots(c') ==>
               if t < NSlots(c) then SlotInum(c', t) == SlotInum(c, t) && SlotName(c', t) == SlotName(c, t)
                   else !Live(c', t)
    ensures UniqueNames(c') && Bindings(c') == Bindings(c)
  {
    hide NameOf, Bindings, SlotName, SlotInum;
    forall n | n in Bindings(c)
      ensures n in Bindings(c') && Bindings(c')[n] == Bindings(c)[n]
    {
      var t := SlotOf(c, n);
      BindingOf(c', t);
    }
    forall n | n in Bindings(c')
      ensures n in Bindings(c)
    {
      var t := SlotOf(c', n);
      BindingOf(c, t);
    }
  }

  // ---------------------------------------------------------------------------
  // Looking up a name in the root of a new disk
  // ---------------------------------------------------------------------------

  /** The zeroes by which mkfs rounds up a root of n entries. */
  function Pad(n: nat): (k: nat) { 1024 - 16 * n % 1024 }

  /** The root directory as `Build` leaves it. */
  ghost predicate RootImage(fs: Xv6fs, files: seq<FileSpec>)
    reads fs
  {
    var size := 16 * (2 + |files|);
    && fs.Valid() && 1 < |fs.inodes| && fs.inodes[1].kind == T_DIR && size < MAXBYTES && 2 + |files| < 0x1_0000
    && Content(fs.disk, fs.inodes[1]) == RootEntries(files) + Zeroes(Pad(2 + |files|))
    && Exact(fs.disk, fs.inodes[1], size)
  }

  lemma {:induction false} ScannedAll(c: seq<byte>, s: nat, name: Name)
    requires s <= NSlots(c) && forall t :: 0 <= t < NSlots(c) && Live(c, t) ==> SlotName(c, t) != name
    ensures Scanned(c, s, name) == NSlots(c)
    decreases NSlots(c) - s
  {
    hide SlotName;
    if s < NSlots(c) {
      ScannedAll(c, s + 1, name);
    }
  }

  lemma {:induction false} ScannedUpTo(c: seq<byte>, s: nat, t: nat, name: Name)
    requires s <= t < NSlots(c) && Live(c, t) && SlotName(c, t) == name
    ensures Scanned(c, s, name) <= t + 1
    decreases t - s
  {
    hide SlotName;
    if s < t && !(Live(c, s) && SlotName(c, s) == name) {
      ScannedUpTo(c, s + 1, t, name);
    }
  }

  /** How far a search of the root goes: to the entry, which lies before the zeroes, or to the end. */
  lemma RootScan(files: seq<FileSpec>, pad: nat, name: Name)
    requires DistinctNames(files) && 2 + |files| < 0x1_0000 && pad % 16 == 0
    ensures var c := RootEntries(files) + Zeroes(pad);
            && IsDirectory(c) && Bindings(c) == RootMap(files)
            && (name in RootMap(files) ==> Scanned(c, 0, name) <= 2 + |files|)
            && (name !in RootMap(files) ==> Scanned(c, 0, name) == NSlots(c))
  {
    hide DistinctNames, UniqueNames, Bindings, RootEntries, SlotName, SlotInum, RootMap, NameOf, Scanned, Zeroes;
    var e := RootEntries(files);
    RootIsDirectory(files);
    PaddedDirectory(e, pad);
    var c := e + Zeroes(pad);
    hide DotsFirst;
    if name in RootMap(files) {
      var t := SlotOf(c, name);
      ScannedUpTo(c, 0, t, name);
    } else {
      forall t | 0 <= t < NSlots(c) && Live(c, t) ensures SlotName(c, t) != name {
        BindingOf(c, t);
      }
      ScannedAll(c, 0, name);
    }
  }

  /** The blocks of the root that are there, and the one that is not if mkfs rounded its size up by a whole block. */
  lemma RootMissing(disk: Disk, i: Inode, n: nat, b: nat)
    requires Exact(disk, i, 16 * n) && 16 * n < MAXBYTES && b <= n / 64 + 1
    ensures b <= MAXFILE
    ensures Missing(disk, i, 0, b) == if 64 * (b - 1) < n then 0 else if n == 768 then 2 else 1
  {
    if 64 * (b - 1) < n {
      NoHolesNoNeed(disk, i, 0, b);
    } else {
      NoHolesNoNeed(disk, i, 0, b - 1);
      assert forall bn :: 0 <= bn < b - 1 ==> Addr(disk, i, DataSlot(bn)) != 0;
      assert Present(disk, i, 0, b - 1);
      MissingSkip(disk, i, b - 1, b);
      assert Addr(disk, i, DataSlot(b - 1)) == 0;
      OneBlock(disk, i, b - 1);
    }
  }

  /** What a search of the first k slots needs, k being the end of the root or not behind its last entry. */
  lemma RootCost(disk: Disk, i: Inode, n: nat, k: nat)
    requires Exact(disk, i, 16 * n) && 16 * n < MAXBYTES && (k <= n || k == 64 * (n / 64 + 1))
    ensures SlotBlocks(k) <= MAXFILE
    ensures Missing(disk, i, 0, SlotBlocks(k)) == if k <= n || n % 64 != 0 then 0 else if n == 768 then 2 else 1
  {
    hide Missing, Exact;
    RootSlots(n, k);
    RootMissing(disk, i, n, SlotBlocks(k));
  }

  /**
    On a new disk the kernel panics in looking up a name in the root if and only if mkfs was given 62
    files, or 126, and so on, the name is none of theirs, and no block is left for the hole (or not
    also one for the indirect block, when the hole is the first block behind it).
   */
  lemma RootLookup(fs: Xv6fs, files: seq<FileSpec>, name: Name)
    requires RootImage(fs, files) && DistinctNames(files)
    ensures DirReady(fs, 1) && Scanned(DirContent(fs, 1), 0, name) <= NSlots(DirContent(fs, 1))
    ensures OutOfSpace(fs, 1, Scanned(DirContent(fs, 1), 0, name)) <==>
            && |files| % 64 == 62 && name !in RootMap(files)
            && FreeBlocks(fs.sb, fs.disk) < if |files| == 766 then 2 else 1
  {
    hide Owned, DistinctNames, UniqueNames, Bindings, RootEntries, RootMap, Scanned, FreeBlocks, Missing, Content,
        Exact, OutOfSpace;
    hide SlotBlocks, Zeroes, Pad;
    var c, n := DirContent(fs, 1), 2 + |files|;
    TotalSlots(n);
    RootScan(files, Pad(n), name);
    assert |c| == 16 * n + Pad(n);
    OutIs(fs, 1, Scanned(c, 0, name));
    EveryBlock(|files|);
    RootCost(fs.disk, fs.inodes[1], n, Scanned(c, 0, name));
  }

  ghost function Between(lo: nat, hi: nat): (s: set<nat>)
    requires lo <= hi
    ensures |s| == hi - lo && forall b: nat :: b in s <==> lo <= b < hi
    decreases hi - lo
  {
    if lo == hi then {} else {lo} + Between(lo + 1, hi)
  }

  lemma FreeInImage(sb: SuperBlock, disk: Disk, freeblock: nat)
    requires WellLaidOut(sb) && |disk| == sb.size && freeblock <= sb.size
    requires forall b :: 0 <= b < sb.size ==> (Used(sb, disk, b) <==> b < freeblock)
    ensures FreeBlocks(sb, disk) == sb.size - freeblock
  {
    hide Used;
    assert Unmarked(sb, disk) == Between(freeblock, sb.size);
  }

  /**
    mkfs builds an image, the kernel loads its inodes and looks up a name in the root. That finds
    exactly the files given to mkfs, unless it panics, and when it does depends on the files alone.
   */
  method BuildAndLookup(b: Builder, fs: Xv6fs, files: seq<FileSpec>, name: seq<byte>)
    returns (panics: bool, found: bool, inum: uint16)
    requires fs.sb == b.sb && b.Valid() && b.freeinode == 1 && b.freeblock == DataStart(b.sb)
    requires 2 + |files| <= |b.inodes| && 2 + |files| < 0x1_0000 && 16 * (2 + |files|) < MAXBYTES
    requires forall i :: 0 <= i < |files| ==> Readable(files[i].name) && |files[i].content| <= MAXBYTES
    requires DataStart(b.sb) + BlockCount(16 * (2 + |files|)) + SumBlocks(files) <= Limit(b.sb)
    requires DistinctNames(files) && Readable(name)
    modifies b, fs
    ensures panics <==>
              && |files| % 64 == 62 && NameOf(name) !in RootMap(files)
              && fs.sb.nblocks < BlockCount(16 * (2 + |files|)) + SumBlocks(files) + if |files| == 766 then 2 else 1
    ensures !panics ==> (found <==> NameOf(name) in RootMap(files))
    ensures !panics && found ==> inum == RootMap(files)[NameOf(name)]
    ensures fs.Valid() && |fs.inodes| >= 2 + |files|
    ensures forall i :: 0 <= i < |files| && NameOf(files[i].name) == NameOf(name) ==>
              !panics && found && inum == 2 + i && fs.inodes[inum].kind == T_FILE
    ensures NameOf(name) == NameOf(DotString()) || NameOf(name) == NameOf(DotDotString()) ==>
              !panics && found && inum == 1 && fs.inodes[1].kind == T_DIR
    ensures forall i :: 0 <= i < |files| ==> Content(fs.disk, fs.inodes[2 + i]) == files[i].content
  {
    hide DistinctNames, UniqueNames, Bindings, RootEntries, RootMap, NameOf, Scanned, BlockCount, SumBlocks,
        Owned, Exact;
    hide Content, DiskInode, NoHoles, Used, FreeBlocks, OutOfSpace, Missing, Present, Budget, SameFiles, SlotBlocks;
    hide Zeroes;
    b.Build(files);
    OwnedShape(b.sb, b.disk, b.inodes, b.owner, {});
    var sb, disk := b.sb, b.disk;
    fs.disk := disk;
    fs.inodes := seq(sb.ninodes, i requires 0 <= i < sb.ninodes => DiskInode(sb, disk, i));
    fs.owner := b.owner;
    assert fs.inodes == b.inodes;
    FreeInImage(b.sb, b.disk, b.freeblock);
    RootLookup(fs, files, NameOf(name));
    RootMapAt(files);
    label Loaded:
    var off;
    panics, found, inum, off := DirLookup(fs, 1, name);
    forall i | 0 <= i < |files| ensures Content(fs.disk, fs.inodes[2 + i]) == files[i].content {
      SameContent(old@Loaded(fs.disk), old@Loaded(fs.inodes), fs.disk, fs.inodes, 2 + i);
    }
  }

  /** 62 empty files, each with a name of one letter. */
  function OneLetterFiles(): (files: seq<FileSpec>) {
    seq(62, k requires 0 <= k < 62 => FileSpec([65 + k, 0], []))
  }

  lemma FirstLetter(s: seq<byte>)
    requires s != []
    ensures NameOf(s)[0] == s[0]
  {
    NameAt(s, 0);
  }

  lemma {:induction false} NothingToStore(files: seq<FileSpec>)
    requires forall i :: 0 <= i < |files| ==> files[i].content == []
    ensures SumBlocks(files) == 0
  {
    if files != [] {
      NothingToStore(files[..|files| - 1]);
    }
  }

  lemma OneLetterNames()
    ensures DistinctNames(OneLetterFiles()) && NameOf([33, 0]) !in RootMap(OneLetterFiles())
  {
    hide NameOf, RootMap;
    var files := OneLetterFiles();
    forall i | 0 <= i < |files| ensures NameOf(files[i].name)[0] == 65 + i {
      FirstLetter(files[i].name);
    }
    FirstLetter(DotString());
    FirstLetter(DotDotString());
    FirstLetter([33, 0]);
    RootMapNames(files, NameOf([33, 0]));
  }

  /**
    The panic is real: on a disk of 39 blocks with 64 inodes, mkfs given 62 empty files leaves a root
    that fills the one data block, and looking up "!" in it panics.
   */
  method FullRootPanics(fs: Xv6fs) returns (panics: bool)
    requires fs.sb == MakeSuper(39, 64)
    modifies fs
    ensures panics
  {
    hide NameOf, RootMap, DistinctNames, Builder.Valid;
    OneLetterNames();
    NothingToStore(OneLetterFiles());
    var b := new Builder(39, 64);
    var found, inum;
    panics, found, inum := BuildAndLookup(b, fs, OneLetterFiles(), [33, 0]);
  }

  /** The root has been rounded up to whole blocks, and by a whole block if it filled the last one. */
  lemma TotalSlots(n: nat)
    ensures Pad(n) % 16 == 0 && (16 * n + Pad(n)) / 16 == 64 * (n / 64 + 1) > n
  {
    assert 16 * n % 1024 == 16 * (n % 64);
    assert n == 64 * (n / 64) + n % 64;
  }

  lemma EveryBlock(files: nat)
    ensures (2 + files) % 64 == 0 <==> files % 64 == 62
  {
  }

  lemma RootSlots(n: nat, k: nat)
    requires k <= 64 * (n / 64 + 1)
    ensures SlotBlocks(k) <= n / 64 + 1
    ensures k <= n ==> 64 * (SlotBlocks(k) - 1) < n
    ensures k == 64 * (n / 64 + 1) ==> SlotBlocks(k) == n / 64 + 1
    ensures 64 * (n / 64) < n <==> n % 64 != 0
  {
  }
}
