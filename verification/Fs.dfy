/**
  The block and inode layer of `kernel/fs/xv6fs/fs.c`: balloc, bfree, bmap, itrunc,
  readi and writei, over a disk of raw blocks.

  The buffer cache is transparent here: `bread` and `bwrite` read and write the disk
  block (module BufferCache shows why).  `inodes[i]` is the in-memory copy of inode `i`.
 */
module Fs {
  import opened Codec
  import opened FsLayout
  import opened FsOwnership
  import opened FsSpace

  /** All data blocks are marked: `balloc` has nothing to hand out. */
  ghost predicate DiskFull(sb: SuperBlock, disk: Disk)
    requires WellLaidOut(sb) && |disk| == sb.size
  {
    MarkedBelow(sb, disk, sb.size)
  }

  ghost predicate MarkedBelow(sb: SuperBlock, disk: Disk, n: nat)
    requires WellLaidOut(sb) && |disk| == sb.size
  {
    forall b :: 0 <= b < n && b < sb.size ==> Used(sb, disk, b)
  }

  /** Every block of the file up to its size has been allocated. */
  ghost predicate NoHoles(disk: Disk, i: Inode)
    requires i.size <= MAXBYTES
  {
    forall bn :: 0 <= bn < MAXFILE && bn * 1024 < i.size ==> Addr(disk, i, DataSlot(bn)) != 0
  }

  ghost predicate SizesFit(inodes: seq<Inode>) {
    forall i :: 0 <= i < |inodes| ==> inodes[i].size <= MAXBYTES
  }

  /** Only the block numbers of inode `inum` may differ. */
  ghost predicate OnlyAddrs(inodes: seq<Inode>, inodes': seq<Inode>, inum: nat)
    requires inum < |inodes|
  {
    && |inodes'| == |inodes|
    && (forall i :: 0 <= i < |inodes| && i != inum ==> inodes'[i] == inodes[i])
    && SameButAddrs(inodes[inum], inodes'[inum])
  }

  /** The slots of the other inodes name the blocks they named. */
  ghost predicate OtherFilesKept(disk: Disk, inodes: seq<Inode>, disk': Disk, inodes': seq<Inode>, inum: nat) {
    && |inodes'| == |inodes|
    && forall i, k :: 0 <= i < |inodes| && i != inum && 0 <= k < NSLOT ==>
        Addr(disk', inodes'[i], k) == Addr(disk, inodes[i], k)
  }

  lemma OtherFilesRefl(disk: Disk, inodes: seq<Inode>, inum: nat)
    ensures OtherFilesKept(disk, inodes, disk, inodes, inum)
  {
  }

  lemma OtherFilesTrans(d0: Disk, n0: seq<Inode>, d1: Disk, n1: seq<Inode>, d2: Disk, n2: seq<Inode>, inum: nat)
    requires OtherFilesKept(d0, n0, d1, n1, inum) && OtherFilesKept(d1, n1, d2, n2, inum)
    ensures OtherFilesKept(d0, n0, d2, n2, inum)
  {
  }

  ghost predicate SameButAddrs(i: Inode, i': Inode) {
    i'.kind == i.kind && i'.major == i.major && i'.minor == i.minor && i'.nlink == i.nlink && i'.size == i.size
  }

  /** The files are as in `disk`, `inodes`, except that `data` has been stored in file `inum` from `off` on. */
  ghost predicate Stored(disk: Disk, inodes: seq<Inode>, disk': Disk, inodes': seq<Inode>,
                         inum: nat, off: nat, data: seq<byte>)
  {
    && |inodes'| == |inodes|
    && forall i, p {:trigger FileByte(disk', inodes'[i], p)} :: 0 <= i < |inodes| && 0 <= p < MAXBYTES ==>
         FileByte(disk', inodes'[i], p)
         == if i == inum && off <= p < off + |data| then data[p - off] else FileByte(disk, inodes[i], p)
  }

  /** Blocks keep their owners. */
  ghost predicate OwnersGrow(owner: map<nat, Slot>, owner': map<nat, Slot>) {
    forall b :: b in owner ==> b in owner' && owner'[b] == owner[b]
  }

  lemma OwnersGrowRefl(owner: map<nat, Slot>)
    ensures OwnersGrow(owner, owner)
  {
  }

  lemma OwnersGrowTrans(o0: map<nat, Slot>, o1: map<nat, Slot>, o2: map<nat, Slot>)
    requires OwnersGrow(o0, o1) && OwnersGrow(o1, o2)
    ensures OwnersGrow(o0, o2)
  {
  }

  lemma CoveredNone(disk: Disk, i: Inode, lo: nat)
    ensures Covered(disk, i, lo, lo)
  {
  }

  /** The block behind the last one that a read of `want` bytes touches. */
  function EndBlock(off: nat, want: nat): (b: nat) { (off + want + 1023) / 1024 }

  /**
    A read comes up short if and only if there are too few free blocks for the holes it covers; if
    it does not, it takes just as many as it needs.
   */
  ghost predicate ReadSpace(sb: SuperBlock, d0: Disk, i0: Inode, d: Disk, i: Inode, off: nat, want: nat, r: int)
    requires WellLaidOut(sb) && |d0| == sb.size && |d| == sb.size && off + want <= MAXBYTES
  {
    && (r == want <==> FreeBlocks(sb, d0) >= Missing(d0, i0, off / BSIZE, EndBlock(off, want)))
    && (r == want ==> Budget(sb, d0, i0, d, i, off / BSIZE, EndBlock(off, want)))
    && (r == want ==> Present(d, i, off / BSIZE, EndBlock(off, want)))
  }

  /**
    A write of `n` bytes is complete if and only if there are enough free blocks for those it lacks,
    and takes just as many; otherwise it goes on for as many blocks as can be paid for.
   */
  ghost predicate WriteSpace(sb: SuperBlock, d0: Disk, i0: Inode, d: Disk, off: nat, n: nat, r: nat)
    requires WellLaidOut(sb) && |d0| == sb.size && |d| == sb.size && off + n <= MAXBYTES && r <= n
  {
    && (r == n <==> FreeBlocks(sb, d0) >= Missing(d0, i0, off / BSIZE, EndBlock(off, n)))
    && (r == n ==> FreeBlocks(sb, d) == FreeBlocks(sb, d0) - Missing(d0, i0, off / BSIZE, EndBlock(off, n)))
    && (r < n ==>
          && Missing(d0, i0, off / BSIZE, (off + r) / BSIZE) <= FreeBlocks(sb, d0)
          && FreeBlocks(sb, d0) < Missing(d0, i0, off / BSIZE, (off + r) / BSIZE + 1))
  }

  /** Slot `k` is one that bmap may fill for the data blocks from `lo` up to `hi`. */
  predicate InRange(k: nat, lo: nat, hi: nat) {
    if k < NDIRECT then lo <= k < hi else if k == NDIRECT then NDIRECT < hi else lo <= k - 1 < hi
  }

  /** Only empty slots in that range have been filled. */
  ghost predicate OnlyIn(d0: Disk, i0: Inode, d: Disk, i: Inode, lo: nat, hi: nat) {
    forall k :: 0 <= k < NSLOT && Addr(d, i, k) != Addr(d0, i0, k) ==> Addr(d0, i0, k) == 0 && InRange(k, lo, hi)
  }

  lemma OnlyInRefl(d: Disk, i: Inode, lo: nat, hi: nat)
    ensures OnlyIn(d, i, d, i, lo, hi)
  {
  }

  lemma OnlyInTrans(d0: Disk, i0: Inode, d1: Disk, i1: Inode, d2: Disk, i2: Inode, lo: nat, b: nat)
    requires OnlyIn(d0, i0, d1, i1, lo, b) && OnlyIn(d1, i1, d2, i2, b, b + 1) && lo <= b
    ensures OnlyIn(d0, i0, d2, i2, lo, b + 1)
  {
  }

  /** A read has filled slots up to the block at which it ends, and all those before it. */
  ghost predicate ReadFills(d0: Disk, i0: Inode, d: Disk, i: Inode, off: nat, want: nat, r: nat) {
    var b := if r < want then (off + r) / BSIZE else EndBlock(off, want);
    Present(d, i, off / BSIZE, b) && OnlyIn(d0, i0, d, i, off / BSIZE, if r < want then b + 1 else b)
  }

  /** The data blocks from `lo` up to `hi` are there. */
  ghost predicate Present(disk: Disk, i: Inode, lo: nat, hi: nat) {
    forall bn :: lo <= bn < hi && bn < MAXFILE ==> Addr(disk, i, DataSlot(bn)) != 0
  }

  lemma PresentGrows(sb: SuperBlock, disk: Disk, inodes: seq<Inode>, owner: map<nat, Slot>,
                     disk': Disk, inodes': seq<Inode>, owner': map<nat, Slot>, i: nat, lo: nat, hi: nat)
    requires Owned(sb, disk, inodes, owner, {}) && Owned(sb, disk', inodes', owner', {}) && OwnersGrow(owner, owner')
    requires i < |inodes| && Present(disk, inodes[i], lo, hi)
    ensures i < |inodes'| && Present(disk', inodes'[i], lo, hi)
  {
    hide Owned;
    OwnedShape(sb, disk, inodes, owner, {});
    OwnedShape(sb, disk', inodes', owner', {});
    forall bn | lo <= bn < hi && bn < MAXFILE
      ensures Addr(disk', inodes'[i], DataSlot(bn)) != 0
    {
      SlotsGrow(sb, disk, inodes, owner, disk', inodes', owner', i, DataSlot(bn));
    }
  }

  /** A file without holes has the blocks of any part of it. */
  lemma PresentPart(disk: Disk, i: Inode, off: nat, want: nat, n: nat)
    requires off + want <= i.size <= MAXBYTES && want <= n
    ensures NoHoles(disk, i) ==> Present(disk, i, off / BSIZE, EndBlock(off, want))
    ensures Present(disk, i, off / BSIZE, EndBlock(off, n)) ==> Present(disk, i, off / BSIZE, EndBlock(off, want))
  {
    assert EndBlock(off, want) <= EndBlock(off, n);
    if NoHoles(disk, i) {
      forall bn | off / BSIZE <= bn < EndBlock(off, want) && bn < MAXFILE ensures Addr(disk, i, DataSlot(bn)) != 0 {
        assert bn * 1024 < i.size;
      }
    }
  }

  lemma PresentNone(disk: Disk, i: Inode, lo: nat)
    ensures Present(disk, i, lo, lo)
  {
  }

  lemma PresentMore(disk: Disk, i: Inode, lo: nat, b: nat)
    requires Present(disk, i, lo, b) && (b < MAXFILE ==> Addr(disk, i, DataSlot(b)) != 0)
    ensures Present(disk, i, lo, b + 1)
  {
  }

  /** After `tot` of `want` bytes, the loop of readi goes on at data block `b`. */
  ghost predicate AtBlock(off: nat, want: nat, tot: nat, b: nat) {
    && b == (if tot == 0 then off / BSIZE else EndBlock(off, tot))
    && (0 < tot < want ==> (off + tot) % BSIZE == 0)
  }

  lemma NextBlock(off: nat, want: nat, tot: nat, b: nat)
    requires AtBlock(off, want, tot, b) && tot < want
    ensures (off + tot) / BSIZE == b < EndBlock(off, want)
    ensures AtBlock(off, want, tot + Min(want - tot, BSIZE - (off + tot) % BSIZE), b + 1)
  {
  }

  /** The loop has read the blocks before `b`, and paid for them. */
  ghost predicate Progress(sb: SuperBlock, d0: Disk, i0: Inode, d: Disk, i: Inode, off: nat, want: nat, tot: nat,
                           b: nat)
    requires WellLaidOut(sb) && |d0| == sb.size && |d| == sb.size
  {
    AtBlock(off, want, tot, b) && Budget(sb, d0, i0, d, i, off / BSIZE, b) && Present(d, i, off / BSIZE, b)
  }

  lemma ProgressStart(sb: SuperBlock, d: Disk, i: Inode, off: nat, want: nat)
    requires WellLaidOut(sb) && |d| == sb.size
    ensures Progress(sb, d, i, d, i, off, want, 0, off / BSIZE)
  {
    BudgetStart(sb, d, i, off / BSIZE);
  }

  lemma AtPos(sb: SuperBlock, d0: Disk, i0: Inode, d: Disk, i: Inode, off: nat, want: nat, tot: nat, b: nat)
    requires WellLaidOut(sb) && |d0| == sb.size && |d| == sb.size && tot < want && off + want <= MAXBYTES
    requires Progress(sb, d0, i0, d, i, off, want, tot, b)
    ensures (off + tot) / BSIZE == b < MAXFILE && off / BSIZE <= b < EndBlock(off, want)
  {
    hide Budget, Present;
    NextBlock(off, want, tot, b);
  }

  lemma ProgressStep(sb: SuperBlock, d0: Disk, i0: Inode, d1: Disk, n1: seq<Inode>, o1: map<nat, Slot>,
                     d2: Disk, n2: seq<Inode>, o2: map<nat, Slot>, inum: nat, off: nat, want: nat, tot: nat, b: nat)
    requires Owned(sb, d1, n1, o1, {}) && Owned(sb, d2, n2, o2, {}) && OwnersGrow(o1, o2) && inum < |n1| &&
            |d0| == sb.size
    requires Progress(sb, d0, i0, d1, n1[inum], off, want, tot, b) && tot < want && off + want <= MAXBYTES
    requires Budget(sb, d1, n1[inum], d2, n2[inum], b, b + 1) && b < MAXFILE && Addr(d2, n2[inum], DataSlot(b)) != 0
    ensures Progress(sb, d0, i0, d2, n2[inum], off, want, tot + Min(want - tot, BSIZE - (off + tot) % BSIZE), b + 1)
  {
    hide Owned, OwnersGrow, Budget, Present, AtBlock;
    OwnedShape(sb, d1, n1, o1, {});
    OwnedShape(sb, d2, n2, o2, {});
    NextBlock(off, want, tot, b);
    BudgetTrans(sb, d0, i0, d1, n1[inum], d2, n2[inum], off / BSIZE, b, b + 1);
    PresentGrows(sb, d1, n1, o1, d2, n2, o2, inum, off / BSIZE, b);
    PresentMore(d2, n2[inum], off / BSIZE, b);
  }

  lemma ProgressShort(sb: SuperBlock, d0: Disk, i0: Inode, d1: Disk, i1: Inode, d: Disk, i: Inode,
                      off: nat, want: nat, tot: nat, b: nat)
    requires WellLaidOut(sb) && |d0| == sb.size && |d1| == sb.size && |d| == sb.size && off + want <= MAXBYTES
    requires Progress(sb, d0, i0, d1, i1, off, want, tot, b) && tot < want
    requires b < MAXFILE && FreeBlocks(sb, d1) < Need(d1, i1, b)
    ensures ReadSpace(sb, d0, i0, d, i, off, want, tot)
  {
    hide Budget, Present, AtBlock, FreeBlocks, Missing, Need;
    NextBlock(off, want, tot, b);
    OverBudget(sb, d0, i0, d1, i1, off / BSIZE, b, EndBlock(off, want));
  }

  lemma ProgressEnd(sb: SuperBlock, d0: Disk, i0: Inode, d: Disk, i: Inode, off: nat, want: nat, b: nat)
    requires WellLaidOut(sb) && |d0| == sb.size && |d| == sb.size && off + want <= MAXBYTES && 0 < want
    requires Progress(sb, d0, i0, d, i, off, want, want, b)
    ensures ReadSpace(sb, d0, i0, d, i, off, want, want)
  {
    hide Budget, Present, FreeBlocks, Missing;
    InBudget(sb, d0, i0, d, i, off / BSIZE, EndBlock(off, want));
  }

  lemma FilledShort(sb: SuperBlock, d0: Disk, i0: Inode, d1: Disk, n1: seq<Inode>, o1: map<nat, Slot>,
                    d: Disk, n: seq<Inode>, o: map<nat, Slot>, inum: nat, off: nat, want: nat, tot: nat, b: nat)
    requires Owned(sb, d1, n1, o1, {}) && Owned(sb, d, n, o, {}) && OwnersGrow(o1, o) && inum < |n1| && |d0| == sb.size
    requires Progress(sb, d0, i0, d1, n1[inum], off, want, tot, b) && tot < want && inum < |n|
    requires OnlyIn(d0, i0, d, n[inum], off / BSIZE, b + 1)
    ensures ReadFills(d0, i0, d, n[inum], off, want, tot)
  {
    hide Owned, OwnersGrow, Budget, Present, OnlyIn, AtBlock;
    OwnedShape(sb, d1, n1, o1, {});
    NextBlock(off, want, tot, b);
    PresentGrows(sb, d1, n1, o1, d, n, o, inum, off / BSIZE, b);
  }

  lemma FilledAll(sb: SuperBlock, d0: Disk, i0: Inode, d: Disk, i: Inode, off: nat, want: nat, b: nat)
    requires WellLaidOut(sb) && |d0| == sb.size && |d| == sb.size && 0 < want
    requires Progress(sb, d0, i0, d, i, off, want, want, b) && OnlyIn(d0, i0, d, i, off / BSIZE, b)
    ensures ReadFills(d0, i0, d, i, off, want, want)
  {
    hide Budget, Present, OnlyIn;
  }

  /** A write stops only at a block that the file did not have. */
  lemma WriteStops(sb: SuperBlock, d0: Disk, n0: seq<Inode>, o0: map<nat, Slot>, d: Disk, n: seq<Inode>,
                   o: map<nat, Slot>, inum: nat, off: nat, tot: nat, want: nat)
    requires Owned(sb, d0, n0, o0, {}) && Owned(sb, d, n, o, {}) && OwnersGrow(o0, o) && inum < |n0| == |n|
    requires off + want <= MAXBYTES && n0[inum].size <= MAXBYTES
    requires tot < want ==> Addr(d, n[inum], DataSlot((off + tot) / BSIZE)) == 0
    ensures tot < want ==> Addr(d0, n0[inum], DataSlot((off + tot) / BSIZE)) == 0
    ensures tot < want && NoHoles(d0, n0[inum]) ==> off + tot >= n0[inum].size
  {
    hide Owned, OwnersGrow, NoHoles, Addr;
    if tot < want {
      if Addr(d0, n0[inum], DataSlot((off + tot) / BSIZE)) != 0 {
        SlotsGrow(sb, d0, n0, o0, d, n, o, inum, DataSlot((off + tot) / BSIZE));
      }
      if NoHoles(d0, n0[inum]) && off + tot < n0[inum].size {
        NoHoleAt(d0, n0[inum], off + tot);
      }
    }
  }

  /** What has been stored is there, also when the size has been recorded, and has left no hole. */
  lemma WriteDone(sb: SuperBlock, d0: Disk, n0: seq<Inode>, o0: map<nat, Slot>, d1: Disk, n1: seq<Inode>,
                  d: Disk, n: seq<Inode>, o: map<nat, Slot>, inum: nat, off: nat, data: seq<byte>)
    requires Owned(sb, d0, n0, o0, {}) && Owned(sb, d1, n1, o, {}) && Owned(sb, d, n, o, {}) && OwnersGrow(o0, o)
    requires inum < |n0| && SizesFit(n0) && off <= n0[inum].size && off + |data| <= MAXBYTES
    requires Stored(d0, n0, d1, n1, inum, off, data) && OnlyAddrs(n0, n1, inum)
    requires n == n1[inum := WithSize(n1[inum], Max(n0[inum].size, off + |data|))] && SameFiles(d1, n1, d, n)
    requires Covered(d1, n1[inum], off, off + |data|)
    ensures SizesFit(n) && Content(d, n[inum]) == Splice(Content(d0, n0[inum]), off, data)
    ensures forall i :: 0 <= i < |n0| && i != inum ==> n[i] == n0[i] && Content(d, n[i]) == Content(d0, n0[i])
    ensures NoHoles(d0, n0[inum]) ==> NoHoles(d, n[inum])
  {
    hide Owned, OwnersGrow, Stored, SameFiles, Content, Splice, NoHoles, Covered;
    StoredThenSame(d0, n0, d1, n1, d, n, inum, off, data);
    StoredContent(d0, n0, d, n, inum, off, data);
    OwnersGrowRefl(o);
    CoveredGrows(sb, d1, n1, o, d, n, o, inum, off, off + |data|);
    if NoHoles(d0, n0[inum]) {
      WriteLeavesNoHole(sb, d0, n0, o0, d, n, o, inum, off, off + |data|);
    }
  }

  lemma WriteShort(sb: SuperBlock, d0: Disk, i0: Inode, d1: Disk, i1: Inode, d: Disk, off: nat, want: nat, tot: nat,
                   b: nat)
    requires WellLaidOut(sb) && |d0| == sb.size && |d1| == sb.size && |d| == sb.size && off + want <= MAXBYTES
    requires Progress(sb, d0, i0, d1, i1, off, want, tot, b) && tot < want
    requires b < MAXFILE && FreeBlocks(sb, d1) < Need(d1, i1, b)
    ensures WriteSpace(sb, d0, i0, d, off, want, tot)
  {
    hide Budget, Present, AtBlock, FreeBlocks, Missing, Need;
    NextBlock(off, want, tot, b);
    OverBudget(sb, d0, i0, d1, i1, off / BSIZE, b, EndBlock(off, want));
    OverBudget(sb, d0, i0, d1, i1, off / BSIZE, b, b + 1);
    InBudget(sb, d0, i0, d1, i1, off / BSIZE, b);
  }

  lemma WriteEnd(sb: SuperBlock, d0: Disk, i0: Inode, d: Disk, i: Inode, off: nat, want: nat, b: nat)
    requires WellLaidOut(sb) && |d0| == sb.size && |d| == sb.size && off + want <= MAXBYTES && 0 < want
    requires Progress(sb, d0, i0, d, i, off, want, want, b)
    ensures WriteSpace(sb, d0, i0, d, off, want, want)
  {
    hide Budget, Present, FreeBlocks, Missing;
    Spent(sb, d0, i0, d, i, off / BSIZE, EndBlock(off, want));
  }

  /** What a write records of the inode takes no block. */
  lemma WriteRecorded(sb: SuperBlock, d0: Disk, i0: Inode, d: Disk, d': Disk, off: nat, n: nat, r: nat)
    requires WellLaidOut(sb) && |d0| == sb.size && |d| == sb.size && |d'| == sb.size && off + n <= MAXBYTES && r <= n
    requires WriteSpace(sb, d0, i0, d, off, n, r) && FreeBlocks(sb, d') == FreeBlocks(sb, d)
    ensures WriteSpace(sb, d0, i0, d', off, n, r)
  {
    hide FreeBlocks, Missing;
  }

  lemma SameContent(disk: Disk, inodes: seq<Inode>, disk': Disk, inodes': seq<Inode>, i: nat)
    requires SameFiles(disk, inodes, disk', inodes') && i < |inodes| && inodes'[i].size == inodes[i].size <= MAXBYTES
    ensures Content(disk', inodes'[i]) == Content(disk, inodes[i])
  {
    assert forall p :: 0 <= p < inodes[i].size ==> FileByte(disk', inodes'[i], p) == FileByte(disk, inodes[i], p);
  }

  lemma OverBudget(sb: SuperBlock, d0: Disk, i0: Inode, d: Disk, i: Inode, lo: nat, b: nat, hi: nat)
    requires WellLaidOut(sb) && |d0| == sb.size && |d| == sb.size && b < hi <= MAXFILE
    requires Budget(sb, d0, i0, d, i, lo, b) && FreeBlocks(sb, d) < Need(d, i, b)
    ensures FreeBlocks(sb, d0) < Missing(d0, i0, lo, hi)
  {
    hide FreeBlocks, Missing, Need;
    NeedFirst(d, i, b, hi);
  }

  lemma InBudget(sb: SuperBlock, d0: Disk, i0: Inode, d: Disk, i: Inode, lo: nat, hi: nat)
    requires WellLaidOut(sb) && |d0| == sb.size && |d| == sb.size && hi <= MAXFILE
    requires Budget(sb, d0, i0, d, i, lo, hi)
    ensures FreeBlocks(sb, d0) >= Missing(d0, i0, lo, hi)
  {
    hide FreeBlocks;
    Spent(sb, d0, i0, d, i, lo, hi);
  }

  lemma Spent(sb: SuperBlock, d0: Disk, i0: Inode, d: Disk, i: Inode, lo: nat, hi: nat)
    requires WellLaidOut(sb) && |d0| == sb.size && |d| == sb.size && hi <= MAXFILE
    requires Budget(sb, d0, i0, d, i, lo, hi)
    ensures FreeBlocks(sb, d) == FreeBlocks(sb, d0) - Missing(d0, i0, lo, hi)
  {
    hide FreeBlocks;
    assert Missing(d, i, hi, hi) == 0;
  }

  /** The disk is full exactly when no block is free. */
  lemma FullIsNone(sb: SuperBlock, disk: Disk)
    requires WellLaidOut(sb) && |disk| == sb.size
    ensures DiskFull(sb, disk) <==> FreeBlocks(sb, disk) == 0
  {
    FreeNone(sb, disk);
  }

  /** When one block gets an owner, no other slot changes. */
  lemma SlotsElsewhere(sb: SuperBlock, disk: Disk, inodes: seq<Inode>, owner: map<nat, Slot>,
                   disk': Disk, inodes': seq<Inode>, b: nat, s: Slot, i: nat, k: nat)
    requires Owned(sb, disk, inodes, owner, {}) && Owned(sb, disk', inodes', owner[b := s], {}) && b !in owner
    requires i < |inodes| && k < NSLOT && Slot(i, k) != s
    ensures Addr(disk', inodes'[i], k) == Addr(disk, inodes[i], k)
  {
    if Addr(disk, inodes[i], k) != 0 {
      SlotOwner(sb, disk, inodes, owner, {}, i, k);
    }
    if Addr(disk', inodes'[i], k) != 0 {
      SlotOwner(sb, disk', inodes', owner[b := s], {}, i, k);
    }
    hide MetaUsed, SlotsOwn, BitsAgree;
  }

  lemma NewOwner(sb: SuperBlock, disk: Disk, inodes: seq<Inode>, owner: map<nat, Slot>, disk': Disk, b: nat)
    requires Owned(sb, disk, inodes, owner, {}) && Allocated(sb, disk, disk', b)
    ensures b !in owner
  {
  }

  /** As long as blocks keep their owners, slots in use keep their blocks. */
  lemma SlotsGrow(sb: SuperBlock, disk: Disk, inodes: seq<Inode>, owner: map<nat, Slot>,
                  disk': Disk, inodes': seq<Inode>, owner': map<nat, Slot>, i: nat, k: nat)
    requires Owned(sb, disk, inodes, owner, {}) && Owned(sb, disk', inodes', owner', {}) && OwnersGrow(owner, owner')
    requires i < |inodes| && k < NSLOT && Addr(disk, inodes[i], k) != 0
    ensures Addr(disk', inodes'[i], k) == Addr(disk, inodes[i], k)
  {
    SlotOwner(sb, disk, inodes, owner, {}, i, k);
  }

  lemma SlotsSame(sb: SuperBlock, disk: Disk, disk': Disk, inodes: seq<Inode>, owner: map<nat, Slot>, i: nat)
    requires Owned(sb, disk, inodes, owner, {}) && Owned(sb, disk', inodes, owner, {}) && i < |inodes|
    ensures SameAddrs(disk, inodes[i], disk', inodes[i])
  {
    hide Owned;
    OwnersGrowRefl(owner);
    forall k | 0 <= k < NSLOT ensures Addr(disk', inodes[i], k) == Addr(disk, inodes[i], k) {
      if Addr(disk, inodes[i], k) != 0 {
        SlotsGrow(sb, disk, inodes, owner, disk', inodes, owner, i, k);
      } else if Addr(disk', inodes[i], k) != 0 {
        SlotsGrow(sb, disk', inodes, owner, disk, inodes, owner, i, k);
      }
    }
  }

  lemma ReloadOwned(sb: SuperBlock, disk: Disk, inodes: seq<Inode>, owner: map<nat, Slot>, inum: nat, din: Inode)
    requires Owned(sb, disk, inodes, owner, {}) && inum < |inodes|
    ensures Owned(sb, disk, inodes[inum := din], owner, {}) <==> din.addrs == inodes[inum].addrs
  {
    hide Owned;
    var inodes' := inodes[inum := din];
    if din.addrs == inodes[inum].addrs {
      RecordOwned(sb, disk, inodes, owner, inum, din);
    }
    if Owned(sb, disk, inodes', owner, {}) {
      OwnersGrowRefl(owner);
      forall k | 0 <= k <= NDIRECT ensures din.addrs[k] == inodes[inum].addrs[k] {
        if Addr(disk, inodes[inum], k) != 0 {
          SlotsGrow(sb, disk, inodes, owner, disk, inodes', owner, inum, k);
        } else if Addr(disk, din, k) != 0 {
          SlotsGrow(sb, disk, inodes', owner, disk, inodes, owner, inum, k);
        }
      }
    }
  }

  /** The blocks that start between `lo` and `hi` have been allocated. */
  ghost predicate Covered(disk: Disk, i: Inode, lo: nat, hi: nat) {
    forall bn :: 0 <= bn < MAXFILE && lo <= bn * 1024 < hi ==> Addr(disk, i, DataSlot(bn)) != 0
  }

  lemma CoveredGrows(sb: SuperBlock, disk: Disk, inodes: seq<Inode>, owner: map<nat, Slot>,
                     disk': Disk, inodes': seq<Inode>, owner': map<nat, Slot>, i: nat, lo: nat, hi: nat)
    requires Owned(sb, disk, inodes, owner, {}) && Owned(sb, disk', inodes', owner', {}) && OwnersGrow(owner, owner')
    requires i < |inodes| && Covered(disk, inodes[i], lo, hi)
    ensures Covered(disk', inodes'[i], lo, hi)
  {
    hide Owned;
    OwnedShape(sb, disk, inodes, owner, {});
    OwnedShape(sb, disk', inodes', owner', {});
    forall bn | 0 <= bn < MAXFILE && lo <= bn * 1024 < hi
      ensures Addr(disk', inodes'[i], DataSlot(bn)) != 0
    {
      SlotsGrow(sb, disk, inodes, owner, disk', inodes', owner', i, DataSlot(bn));
    }
  }

  /** Going from one block to the next, or staying within a block. */
  lemma CoveredChunk(disk: Disk, i: Inode, lo: nat, pos: nat, m: nat)
    requires Covered(disk, i, lo, pos) && pos % BSIZE + m <= BSIZE && pos + m <= MAXBYTES
    requires m > 0 ==> Addr(disk, i, DataSlot(pos / BSIZE)) != 0
    ensures Covered(disk, i, lo, pos + m)
  {
    forall bn | 0 <= bn < MAXFILE && pos <= bn * 1024 < pos + m
      ensures bn == pos / BSIZE
    {
    }
  }

  /** A write that starts within the file and allocates as it goes leaves no hole. */
  lemma WriteLeavesNoHole(sb: SuperBlock, disk: Disk, inodes: seq<Inode>, owner: map<nat, Slot>,
                          disk': Disk, inodes': seq<Inode>, owner': map<nat, Slot>, i: nat, off: nat, end: nat)
    requires Owned(sb, disk, inodes, owner, {}) && Owned(sb, disk', inodes', owner', {}) && OwnersGrow(owner, owner')
    requires i < |inodes| && off <= inodes[i].size <= MAXBYTES && inodes'[i].size <= MAXBYTES
    requires NoHoles(disk, inodes[i]) && Covered(disk', inodes'[i], off, end)
    requires inodes'[i].size <= Max(inodes[i].size, end)
    ensures NoHoles(disk', inodes'[i])
  {
    hide Owned;
    OwnedShape(sb, disk, inodes, owner, {});
    OwnedShape(sb, disk', inodes', owner', {});
    forall bn | 0 <= bn < MAXFILE && bn * 1024 < inodes'[i].size
      ensures Addr(disk', inodes'[i], DataSlot(bn)) != 0
    {
      if bn * 1024 < inodes[i].size {
        assert Addr(disk, inodes[i], DataSlot(bn)) != 0;
        SlotsGrow(sb, disk, inodes, owner, disk', inodes', owner', i, DataSlot(bn));
      }
    }
  }

  lemma SameFilesRefl(disk: Disk, inodes: seq<Inode>)
    ensures SameFiles(disk, inodes, disk, inodes)
  {
  }

  lemma SameFilesTrans(d0: Disk, i0: seq<Inode>, d1: Disk, i1: seq<Inode>, d2: Disk, i2: seq<Inode>)
    requires SameFiles(d0, i0, d1, i1) && SameFiles(d1, i1, d2, i2)
    ensures SameFiles(d0, i0, d2, i2)
  {
  }

  lemma StoredNothing(disk: Disk, inodes: seq<Inode>, inum: nat, off: nat)
    ensures Stored(disk, inodes, disk, inodes, inum, off, [])
  {
  }

  lemma StoredThenSame(d0: Disk, i0: seq<Inode>, d1: Disk, i1: seq<Inode>, d2: Disk, i2: seq<Inode>,
                       inum: nat, off: nat, data: seq<byte>)
    requires Stored(d0, i0, d1, i1, inum, off, data) && SameFiles(d1, i1, d2, i2)
    ensures Stored(d0, i0, d2, i2, inum, off, data)
  {
  }

  lemma StoredTwice(d0: Disk, i0: seq<Inode>, d1: Disk, i1: seq<Inode>, d2: Disk, i2: seq<Inode>,
                    inum: nat, off: nat, data: seq<byte>, more: seq<byte>)
    requires Stored(d0, i0, d1, i1, inum, off, data) && Stored(d1, i1, d2, i2, inum, off + |data|, more)
    ensures Stored(d0, i0, d2, i2, inum, off, data + more)
  {
  }

  /** Storing a chunk that lies within one block. */
  lemma StoreChunk(sb: SuperBlock, disk: Disk, inodes: seq<Inode>, owner: map<nat, Slot>,
                   disk': Disk, inum: nat, pos: nat, chunk: seq<byte>)
    requires Owned(sb, disk, inodes, owner, {})
    requires inum < |inodes| && chunk != [] && pos + |chunk| <= MAXBYTES && pos % BSIZE + |chunk| <= BSIZE
    requires var a := Addr(disk, inodes[inum], DataSlot(pos / BSIZE));
             0 < a < |disk| && disk' == disk[a := Splice(disk[a], pos % BSIZE, chunk)]
    ensures Owned(sb, disk', inodes, owner, {})
    ensures Stored(disk, inodes, disk', inodes, inum, pos, chunk)
  {
    hide Owned;
    OwnedShape(sb, disk, inodes, owner, {});
    var bn := pos / BSIZE;
    var a := Addr(disk, inodes[inum], DataSlot(bn));
    var blk: Block := Splice(disk[a], pos % BSIZE, chunk);
    WriteData(sb, disk, inodes, owner, {}, inum, bn, disk', blk);
    forall i, p {:trigger FileByte(disk', inodes[i], p)} | 0 <= i < |inodes| && 0 <= p < MAXBYTES
      ensures FileByte(disk', inodes[i], p)
              == if i == inum && pos <= p < pos + |chunk| then chunk[p - pos] else FileByte(disk, inodes[i], p)
    {
      if i == inum && p / BSIZE == bn {
        assert p == bn * 1024 + p % BSIZE && pos == bn * 1024 + pos % BSIZE;
        assert blk[p % BSIZE] == if pos <= p < pos + |chunk| then chunk[p - pos] else disk[a][p % BSIZE];
      } else if i == inum {
        assert !(pos <= p < pos + |chunk|);
      }
    }
  }

  /** Storing at or before the end of a file splices its contents. */
  lemma StoredContent(disk: Disk, inodes: seq<Inode>, disk': Disk, inodes': seq<Inode>, inum: nat, off: nat,
                      data: seq<byte>)
    requires Stored(disk, inodes, disk', inodes', inum, off, data)
    requires SizesFit(inodes) && SizesFit(inodes')
    requires inum < |inodes| && off <= inodes[inum].size
    requires inodes'[inum].size == Max(inodes[inum].size, off + |data|)
    requires forall i :: 0 <= i < |inodes| && i != inum ==> inodes'[i].size == inodes[i].size
    ensures Content(disk', inodes'[inum]) == Splice(Content(disk, inodes[inum]), off, data)
    ensures forall i :: 0 <= i < |inodes| && i != inum ==> Content(disk', inodes'[i]) == Content(disk, inodes[i])
  {
    var c, c' := Content(disk, inodes[inum]), Content(disk', inodes'[inum]);
    assert |c'| == |Splice(c, off, data)|;
    forall p | 0 <= p < |c'|
      ensures c'[p] == Splice(c, off, data)[p]
    {
      assert c'[p] == FileByte(disk', inodes'[inum], p);
    }
    forall i | 0 <= i < |inodes| && i != inum
      ensures Content(disk', inodes'[i]) == Content(disk, inodes[i])
    {
      assert forall p :: 0 <= p < inodes[i].size ==> FileByte(disk', inodes'[i], p) == FileByte(disk, inodes[i], p);
    }
  }

  class Xv6fs {
    const sb: SuperBlock
    var disk: Disk
    var inodes: seq<Inode>
    ghost var owner: map<nat, Slot>

    ghost predicate Valid()
      reads this
    {
      Owned(sb, disk, inodes, owner, {}) && SizesFit(inodes)
    }

    /** The disk holds the current copy of inode `inum`. */
    ghost predicate Synced(inum: nat)
      reads this
      requires WellLaidOut(sb) && |disk| == sb.size && inum < |inodes| == sb.ninodes
    {
      DiskInode(sb, disk, inum) == inodes[inum]
    }

    /** Allocate a zeroed disk block; 0 if out of space. */
    method Balloc() returns (r: uint32)
      requires WellLaidOut(sb) && |disk| == sb.size && MetaUsed(sb, disk)
      modifies this`disk
      ensures r == 0 ==> disk == old(disk) && DiskFull(sb, disk)
      ensures r != 0 ==> Allocated(sb, old(disk), disk, r)
    {
      hide Allocated, MetaUsed, MarkedBelow, Bit;
      Marked(sb, disk, 0, 0);
      var b := 0;
      while b < sb.size
        invariant 0 <= b < sb.size + BPB && b % BPB == 0
        invariant disk == old(disk) && MarkedBelow(sb, disk, b)
      {
        var bp := disk[BBLOCK(sb, b)];
        var bi := 0;
        while bi < BPB && b + bi < sb.size
          invariant 0 <= bi <= BPB
          invariant disk == old(disk) && MarkedBelow(sb, disk, b + bi)
        {
          BitPosition(b, bi);
          if !Bit(bp[bi / 8], bi % 8) {
            bp := bp[bi / 8 := OrMask(bp[bi / 8], bi % 8)];
            disk := disk[BBLOCK(sb, b) := bp];
            disk := disk[b + bi := ZeroBlock()];
            BallocDone(sb, old(disk), b, bi, disk);
            return b + bi;
          }
          Marked(sb, disk, b + bi, b + bi + 1);
          bi := bi + 1;
        }
        Marked(sb, disk, b + bi, b + BPB);
        b := b + BPB;
      }
      Marked(sb, disk, b, sb.size);
      return 0;
    }

    /** Free a disk block.  The caller never frees a free block. */
    method Bfree(b: uint32)
      requires WellLaidOut(sb) && |disk| == sb.size
      requires DataStart(sb) <= b < sb.size && Used(sb, disk, b)
      modifies this`disk
      ensures Freed(sb, old(disk), disk, b)
    {
      var bp := disk[BBLOCK(sb, b)];
      var bi := b % BPB;
      assert bi % 8 == b % 8;
      assert Bit(bp[bi / 8], bi % 8);     // otherwise: panic "freeing free block"
      bp := bp[bi / 8 := AndNotMask(bp[bi / 8], bi % 8)];
      disk := disk[BBLOCK(sb, b) := bp];
      forall x | 0 <= x < sb.size { BitmapClear(sb, old(disk), b, x); }
    }

    /**
      The block holding the `bn`-th block of file `inum`, allocated if there is none.
      Allocation is invisible to every reader: no file changes.
     */
    method Bmap(inum: nat, bn: nat) returns (addr: uint32)
      requires Owned(sb, disk, inodes, owner, {})
      requires inum < |inodes|
      requires bn < MAXFILE       // otherwise: panic "bmap: out of range"
      modifies this
      ensures Owned(sb, disk, inodes, owner, {})
      ensures addr == Addr(disk, inodes[inum], DataSlot(bn))
      ensures SameFiles(old(disk), old(inodes), disk, inodes)
      ensures OnlyAddrs(old(inodes), inodes, inum)
      ensures forall x :: 0 <= x < sb.bmapstart ==> disk[x] == old(disk[x])
      ensures OwnersGrow(old(owner), owner)
      ensures addr == 0 ==> DiskFull(sb, disk)
      ensures addr == 0 <==> old(FreeBlocks(sb, disk) < Need(disk, inodes[inum], bn))
      ensures addr != 0 ==> Budget(sb, old(disk), old(inodes)[inum], disk, inodes[inum], bn, bn + 1)
      ensures OnlyIn(old(disk), old(inodes)[inum], disk, inodes[inum], bn, bn + 1)
      ensures OtherFilesKept(old(disk), old(inodes), disk, inodes, inum)
      ensures old(Addr(disk, inodes[inum], DataSlot(bn))) != 0 ==>
                disk == old(disk) && inodes == old(inodes) && owner == old(owner)
    {
      hide MetaUsed, SlotsOwn, OwnersName, BitsAgree, MarkedBelow, OwnersGrow, FreeBlocks, Budget, OtherFilesKept;
      OwnersGrowRefl(owner);
      if bn < NDIRECT {
        addr := BmapAddr(inum, bn);
        if addr != 0 {
          assert Addr(disk, inodes[inum], NDIRECT) == Addr(old(disk), old(inodes)[inum], NDIRECT);
          BudgetStep(sb, old(disk), old(inodes)[inum], disk, inodes[inum], bn);
        }
        return;
      }
      var ind := BmapAddr(inum, NDIRECT);
      if ind == 0 {
        return 0;
      }
      label Loaded:
      ghost var o1 := owner;
      addr := BmapEntry(inum, bn - NDIRECT);
      if addr != 0 {
        BudgetStep(sb, old(disk), old(inodes)[inum], disk, inodes[inum], bn);
      }
      OwnersGrowTrans(old(owner), o1, owner);
      SameFilesTrans(old(disk), old(inodes), old@Loaded(disk), old@Loaded(inodes), disk, inodes);
      OtherFilesTrans(old(disk), old(inodes), old@Loaded(disk), old@Loaded(inodes), disk, inodes, inum);
    }

    /** The part of bmap that fills an entry of the indirect block. */
    method BmapEntry(inum: nat, j: nat) returns (addr: uint32)
      requires Owned(sb, disk, inodes, owner, {})
      requires inum < |inodes| && j < NINDIRECT && inodes[inum].addrs[NDIRECT] != 0
      modifies this`disk, this`owner
      ensures Owned(sb, disk, inodes, owner, {})
      ensures addr == Addr(disk, inodes[inum], NDIRECT + 1 + j)
      ensures SameFiles(old(disk), inodes, disk, inodes)
      ensures forall x :: 0 <= x < sb.bmapstart ==> disk[x] == old(disk[x])
      ensures OwnersGrow(old(owner), owner)
      ensures addr == 0 ==> DiskFull(sb, disk) && old(FreeBlocks(sb, disk)) == 0
      ensures addr != 0 ==>
                FreeBlocks(sb, disk) ==
                    old(FreeBlocks(sb, disk) - if Addr(disk, inodes[inum], NDIRECT + 1 + j) == 0 then 1 else 0)
      ensures forall k :: 0 <= k < NSLOT && k != NDIRECT + 1 + j ==>
                Addr(disk, inodes[inum], k) == Addr(old(disk), inodes[inum], k)
      ensures OtherFilesKept(old(disk), inodes, disk, inodes, inum)
      ensures old(Addr(disk, inodes[inum], NDIRECT + 1 + j)) != 0 ==> disk == old(disk) && owner == old(owner)
    {
      hide MetaUsed, SlotsOwn, OwnersName, BitsAgree, MarkedBelow, OwnersGrow, FreeBlocks;
      OwnersGrowRefl(owner);
      FullIsNone(sb, disk);
      var ind := inodes[inum].addrs[NDIRECT];
      assert Addr(disk, inodes[inum], NDIRECT) == ind;
      SlotOwner(sb, disk, inodes, owner, {}, inum, NDIRECT);
      addr := Entry(disk[ind], j);
      if addr == 0 {
        addr := Balloc();
        if addr != 0 {
          ghost var mid := disk;
          disk := disk[ind := SetEntry(disk[ind], j, addr)];
          GrowEntry(sb, old(disk), inodes, owner, inum, j, addr, mid, disk);
          NewOwner(sb, old(disk), inodes, owner, mid, addr);
          FreeTaken(sb, old(disk), mid, addr);
          EntryBits(sb, mid, ind, disk);
          forall i, k | 0 <= i < |inodes| && 0 <= k < NSLOT && !(i == inum && k == NDIRECT + 1 + j)
            ensures Addr(disk, inodes[i], k) == Addr(old(disk), inodes[i], k)
          {
            SlotsElsewhere(sb, old(disk), inodes, owner, disk, inodes, addr, Slot(inum, NDIRECT + 1 + j), i, k);
          }
          owner := owner[addr := Slot(inum, NDIRECT + 1 + j)];
        }
      }
    }

    /** The part of bmap that fills a slot of the inode itself. */
    method BmapAddr(inum: nat, k: nat) returns (addr: uint32)
      requires Owned(sb, disk, inodes, owner, {})
      requires inum < |inodes| && k <= NDIRECT
      modifies this
      ensures Owned(sb, disk, inodes, owner, {})
      ensures addr == inodes[inum].addrs[k]
      ensures SameFiles(old(disk), old(inodes), disk, inodes)
      ensures OnlyAddrs(old(inodes), inodes, inum)
      ensures forall x :: 0 <= x < sb.bmapstart ==> disk[x] == old(disk[x])
      ensures OwnersGrow(old(owner), owner)
      ensures addr == 0 ==> DiskFull(sb, disk) && old(FreeBlocks(sb, disk)) == 0
      ensures addr != 0 ==>
                FreeBlocks(sb, disk) == old(FreeBlocks(sb, disk) - if inodes[inum].addrs[k] == 0 then 1 else 0)
      ensures forall l :: 0 <= l < NSLOT && l != k ==>
                Addr(disk, inodes[inum], l) == Addr(old(disk), old(inodes)[inum], l)
      ensures OtherFilesKept(old(disk), old(inodes), disk, inodes, inum)
      ensures old(inodes[inum].addrs[k]) != 0 ==>
                disk == old(disk) && inodes == old(inodes) && owner == old(owner)
    {
      hide MetaUsed, SlotsOwn, OwnersName, BitsAgree, MarkedBelow, OwnersGrow, FreeBlocks;
      OwnersGrowRefl(owner);
      FullIsNone(sb, disk);
      addr := inodes[inum].addrs[k];
      if addr == 0 {
        addr := Balloc();
        if addr == 0 {
          return;
        }
        GrowAddr(sb, old(disk), inodes, owner, inum, k, addr, disk);
        NewOwner(sb, old(disk), inodes, owner, disk, addr);
        FreeTaken(sb, old(disk), disk, addr);
        inodes := inodes[inum := WithAddr(inodes[inum], k, addr)];
        forall i, l | 0 <= i < |inodes| && 0 <= l < NSLOT && !(i == inum && l == k)
          ensures Addr(disk, inodes[i], l) == Addr(old(disk), old(inodes)[i], l)
        {
          SlotsElsewhere(sb, old(disk), old(inodes), owner, disk, inodes, addr, Slot(inum, k), i, l);
        }
        owner := owner[addr := Slot(inum, k)];
      }
    }

    /** Write the in-memory inode back to its place in the inode blocks. */
    method Iupdate(inum: nat)
      requires Owned(sb, disk, inodes, owner, {}) && inum < |inodes|
      modifies this`disk
      ensures Owned(sb, disk, inodes, owner, {})
      ensures Synced(inum)
      ensures forall i :: 0 <= i < |inodes| && i != inum ==> DiskInode(sb, disk, i) == DiskInode(sb, old(disk), i)
      ensures SameFiles(old(disk), inodes, disk, inodes)
      ensures DiskFull(sb, old(disk)) ==> DiskFull(sb, disk)
      ensures FreeBlocks(sb, disk) == old(FreeBlocks(sb, disk))
    {
      disk := StoreInode(sb, disk, inum, inodes[inum]);
      WriteMeta(sb, old(disk), inodes, owner, {}, disk);
      BitsStable(sb, old(disk), disk);
      FreeSame(sb, old(disk), disk);
      forall i | 0 <= i < |inodes| { StoreInodeReads(sb, old(disk), inum, inodes[inum], i); }
    }

    /**
      Load an inode from disk, unless it is loaded.  Panics on an inode that is not in use.
      Reloading a synced inode changes nothing.  Otherwise the blocks are still owned as before if and
      only if the disk's copy names the same ones.
     */
    method ReadBlock(inum: nat, loaded: bool) returns (panics: bool)
      requires WellLaidOut(sb) && |disk| == sb.size && inum < |inodes| == sb.ninodes
      modifies this`inodes
      ensures |inodes| == |old(inodes)| && forall i :: 0 <= i < |inodes| && i != inum ==> inodes[i] == old(inodes)[i]
      ensures if loaded then inodes == old(inodes) else Synced(inum)
      ensures panics <==> !loaded && inodes[inum].kind == 0
      ensures old(Synced(inum)) ==> inodes == old(inodes)
      ensures !loaded && old(Valid()) ==>
                (Valid() <==> inodes[inum].addrs == old(inodes[inum].addrs) && inodes[inum].size <= MAXBYTES)
    {
      hide Owned, DecodeInode;
      if old(Valid()) {
        ReloadOwned(sb, disk, inodes, owner, inum, DiskInode(sb, disk, inum));
      }
      panics := false;
      if !loaded {
        inodes := inodes[inum := DiskInode(sb, disk, inum)];
        if inodes[inum].kind == 0 {
          panics := true;
        }
      }
    }

    /**
      Read up to `n` bytes from offset `off`.  A read that would wrap around 32 bits returns nothing.
      Copying into the reader's memory fails beyond `room` bytes.
     */
    method Readi(inum: nat, off: uint32, n: uint32, room: nat) returns (r: int, out: seq<byte>)
      requires Valid() && inum < |inodes|
      modifies this
      ensures Valid()
      ensures SameFiles(old(disk), old(inodes), disk, inodes) && OnlyAddrs(old(inodes), inodes, inum)
      ensures forall x :: 0 <= x < sb.bmapstart ==> disk[x] == old(disk[x])
      ensures r == -1 || r == |out|
      ensures out <= ReadRange(old(Content(disk, inodes[inum])), off, n)
      ensures r == -1 ==> room < |ReadRange(old(Content(disk, inodes[inum])), off, n)|
      ensures r != -1 ==>
                |out| <= room && (out == ReadRange(old(Content(disk, inodes[inum])), off, n) || DiskFull(sb, disk))
      ensures var want := |ReadRange(old(Content(disk, inodes[inum])), off, n)|;
              0 < want <= room ==>
                && ReadSpace(sb, old(disk), old(inodes)[inum], disk, inodes[inum], off, want, r)
                && ReadFills(old(disk), old(inodes)[inum], disk, inodes[inum], off, want, r)
      ensures OwnersGrow(old(owner), owner) && OtherFilesKept(old(disk), old(inodes), disk, inodes, inum)
      ensures old(Present(disk, inodes[inum], off / BSIZE, EndBlock(off, n))) ==>
                disk == old(disk) && inodes == old(inodes) && owner == old(owner)
      ensures old(NoHoles(disk, inodes[inum])) ==>
                && disk == old(disk) && inodes == old(inodes) && owner == old(owner)
                && (r != -1 ==> out == ReadRange(Content(disk, inodes[inum]), off, n))
    {
      hide Owned, MarkedBelow, NoHoles, SameFiles, Content, OwnersGrow, ReadSpace, OtherFilesKept, Present, EndBlock,
          ReadFills;
      SameFilesRefl(disk, inodes);
      OwnersGrowRefl(owner);
      OtherFilesRefl(disk, inodes, inum);
      if off > inodes[inum].size || Add32(off, n) < off {
        return 0, [];
      }
      var want := n;
      if Add32(off, n) > inodes[inum].size {
        want := inodes[inum].size - off;
      }
      PresentPart(disk, inodes[inum], off, want, n);
      ghost var all := Content(disk, inodes[inum]);
      assert ReadRange(all, off, n) == all[off..off + want];
      r, out := ReadBlocks(inum, off, want, room);
    }

    /** The loop of readi: `want` bytes that all lie within the file. */
    method ReadBlocks(inum: nat, off: nat, want: nat, room: nat) returns (r: int, out: seq<byte>)
      requires Valid() && inum < |inodes| && off + want <= inodes[inum].size
      modifies this
      ensures Valid()
      ensures SameFiles(old(disk), old(inodes), disk, inodes) && OnlyAddrs(old(inodes), inodes, inum)
      ensures forall x :: 0 <= x < sb.bmapstart ==> disk[x] == old(disk[x])
      ensures r == -1 || r == |out|
      ensures |out| <= want && out == old(Content(disk, inodes[inum]))[off..off + |out|]
      ensures r == -1 ==> room < want
      ensures r != -1 ==> |out| <= room && (|out| == want || DiskFull(sb, disk))
      ensures 0 < want <= room ==>
                && ReadSpace(sb, old(disk), old(inodes)[inum], disk, inodes[inum], off, want, r)
                && ReadFills(old(disk), old(inodes)[inum], disk, inodes[inum], off, want, |out|)
      ensures OwnersGrow(old(owner), owner) && OtherFilesKept(old(disk), old(inodes), disk, inodes, inum)
      ensures old(Present(disk, inodes[inum], off / BSIZE, EndBlock(off, want))) ==>
                && disk == old(disk) && inodes == old(inodes) && owner == old(owner)
                && (r != -1 ==> |out| == want)
    {
      hide Owned, MarkedBelow, SameFiles, Content, OwnersGrow, Budget, FreeBlocks, Missing, Need, Progress, ReadSpace,
          EndBlock;
      hide OtherFilesKept, ReadFills, OnlyIn;
      OwnedShape(sb, disk, inodes, owner, {});
      SameFilesRefl(disk, inodes);
      OnlyInRefl(disk, inodes[inum], off / BSIZE, off / BSIZE);
      OwnersGrowRefl(owner);
      OtherFilesRefl(disk, inodes, inum);
      ProgressStart(sb, disk, inodes[inum], off, want);
      ghost var all := Content(disk, inodes[inum]);
      ghost var solid := Present(disk, inodes[inum], off / BSIZE, EndBlock(off, want));
      ghost var b: nat := off / BSIZE;
      out := [];
      var tot, pos := 0, off;
      while tot < want
        invariant 0 <= tot <= want && pos == off + tot && tot <= room
        invariant Owned(sb, disk, inodes, owner, {}) && inum < |inodes| && |disk| == sb.size
        invariant SameFiles(old(disk), old(inodes), disk, inodes) && OnlyAddrs(old(inodes), inodes, inum)
        invariant forall x :: 0 <= x < sb.bmapstart ==> disk[x] == old(disk[x])
        invariant OwnersGrow(old(owner), owner) && OtherFilesKept(old(disk), old(inodes), disk, inodes, inum)
        invariant Progress(sb, old(disk), old(inodes)[inum], disk, inodes[inum], off, want, tot, b)
        invariant off / BSIZE <= b && OnlyIn(old(disk), old(inodes)[inum], disk, inodes[inum], off / BSIZE, b)
        invariant solid ==> disk == old(disk) && inodes == old(inodes) && owner == old(owner)
        invariant out == all[off..pos]
      {
        ghost var d1, i1, o1 := disk, inodes, owner;
        AtPos(sb, old(disk), old(inodes)[inum], disk, inodes[inum], off, want, tot, b);
        var m := Min(want - tot, BSIZE - pos % BSIZE);
        SameContent(old(disk), old(inodes), disk, inodes, inum);
        var ok, chunk := ReadChunk(inum, pos, m);
        OwnedShape(sb, disk, inodes, owner, {});
        SameFilesTrans(old(disk), old(inodes), d1, i1, disk, inodes);
        OwnersGrowTrans(old(owner), o1, owner);
        OtherFilesTrans(old(disk), old(inodes), d1, i1, disk, inodes, inum);
        OnlyInTrans(old(disk), old(inodes)[inum], d1, i1[inum], disk, inodes[inum], off / BSIZE, b);
        if !ok {
          ProgressShort(sb, old(disk), old(inodes)[inum], d1, i1[inum], disk, inodes[inum], off, want, tot, b);
          FilledShort(sb, old(disk), old(inodes)[inum], d1, i1, o1, disk, inodes, owner, inum, off, want, tot, b);
          return tot, out;
        }
        ProgressStep(sb, old(disk), old(inodes)[inum], d1, i1, o1, disk, inodes, owner, inum, off, want, tot, b);
        b := b + 1;
        if tot + m > room {
          return -1, out;
        }
        out := out + chunk;
        assert all[off..pos] + all[pos..pos + m] == all[off..pos + m];
        tot, pos := tot + m, pos + m;
      }
      if 0 < want {
        ProgressEnd(sb, old(disk), old(inodes)[inum], disk, inodes[inum], off, want, b);
        FilledAll(sb, old(disk), old(inodes)[inum], disk, inodes[inum], off, want, b);
      }
      return tot, out;
    }

    /** The body of that loop: find the block of `pos`, allocating it if it is a hole, and read the chunk. */
    method ReadChunk(inum: nat, pos: nat, m: nat) returns (ok: bool, chunk: seq<byte>)
      requires Valid() && inum < |inodes| && 0 < m && pos % BSIZE + m <= BSIZE && pos + m <= inodes[inum].size
      modifies this
      ensures Valid()
      ensures SameFiles(old(disk), old(inodes), disk, inodes) && OnlyAddrs(old(inodes), inodes, inum)
      ensures forall x :: 0 <= x < sb.bmapstart ==> disk[x] == old(disk[x])
      ensures OwnersGrow(old(owner), owner) && OtherFilesKept(old(disk), old(inodes), disk, inodes, inum)
      ensures ok ==> chunk == old(Content(disk, inodes[inum]))[pos..pos + m]
      ensures ok ==> Budget(sb, old(disk), old(inodes)[inum], disk, inodes[inum], pos / BSIZE, pos / BSIZE + 1)
      ensures ok ==> Addr(disk, inodes[inum], DataSlot(pos / BSIZE)) != 0
      ensures OnlyIn(old(disk), old(inodes)[inum], disk, inodes[inum], pos / BSIZE, pos / BSIZE + 1)
      ensures !ok ==> DiskFull(sb, disk) && old(FreeBlocks(sb, disk) < Need(disk, inodes[inum], pos / BSIZE))
      ensures old(Addr(disk, inodes[inum], DataSlot(pos / BSIZE))) != 0 ==>
                ok && disk == old(disk) && inodes == old(inodes) && owner == old(owner)
    {
      hide Owned, MarkedBelow, SameFiles, Content, OwnersGrow, Budget, FreeBlocks, Missing, Need, OtherFilesKept,
          OnlyIn;
      OwnedShape(sb, disk, inodes, owner, {});
      var addr := Bmap(inum, pos / BSIZE);
      OwnedShape(sb, disk, inodes, owner, {});
      if addr == 0 {
        return false, [];
      }
      SlotOwner(sb, disk, inodes, owner, {}, inum, DataSlot(pos / BSIZE));
      ChunkRead(disk, inodes, old(disk), old(inodes), inum, pos, m);
      return true, disk[addr][pos % BSIZE..pos % BSIZE + m];
    }

    /**
      Write `src` at offset `off`.  Returns the number of bytes written, or -1 when the write
      would leave a gap, wrap around or exceed the largest file.
     */
    method Writei(inum: nat, src: seq<byte>, off: uint32) returns (r: int)
      requires Valid() && inum < |inodes| && |src| < 0x1_0000_0000
      modifies this
      ensures Valid()
      ensures |inodes| == |old(inodes)|
      ensures r == -1 <==> off > old(inodes[inum].size) || off + |src| > MAXBYTES
      ensures r == -1 ==> disk == old(disk) && inodes == old(inodes) && owner == old(owner)
      ensures r != -1 ==>
                && 0 <= r <= |src|
                && Content(disk, inodes[inum]) == Splice(old(Content(disk, inodes[inum])), off, src[..r])
                && (r < |src| ==> DiskFull(sb, disk))
                && (0 < r < |src| ==> (off + r) % BSIZE == 0)
                && Synced(inum)
      ensures r != -1 && src != [] ==> WriteSpace(sb, old(disk), old(inodes)[inum], disk, off, |src|, r)
      ensures 0 <= r < |src| ==> old(Addr(disk, inodes[inum], DataSlot((off + r) / BSIZE))) == 0
      ensures r != -1 && old(NoHoles(disk, inodes[inum])) ==>
                NoHoles(disk, inodes[inum]) && (off + |src| <= old(inodes[inum].size) ==> r == |src|)
      ensures SameButAddrs(WithSize(old(inodes[inum]), inodes[inum].size), inodes[inum])
      ensures forall i :: 0 <= i < |inodes| && i != inum ==>
                && inodes[i] == old(inodes)[i]
                && Content(disk, inodes[i]) == Content(old(disk), inodes[i])
                && DiskInode(sb, disk, i) == DiskInode(sb, old(disk), i)
    {
      hide Owned, MarkedBelow, Stored, SameFiles, Content, DecodeInode, Splice, StoreInode, NoHoles, Covered,
          OwnersGrow, WriteSpace, FreeBlocks, Addr, Missing, EndBlock;
      OwnedShape(sb, disk, inodes, owner, {});
      var n: uint32 := |src|;
      if off > inodes[inum].size || Add32(off, n) < off {
        return -1;
      }
      if Add32(off, n) > MAXBYTES {
        return -1;
      }
      var tot := WriteBlocks(inum, src, off);
      OwnedShape(sb, disk, inodes, owner, {});
      ghost var d1, i1 := disk, inodes;
      WriteStops(sb, old(disk), old(inodes), old(owner), disk, inodes, owner, inum, off, tot, n);
      UpdateSize(inum, off + tot);
      OwnedShape(sb, disk, inodes, owner, {});
      if 0 < n {
        WriteRecorded(sb, old(disk), old(inodes)[inum], d1, disk, off, n, tot);
      }
      WriteDone(sb, old(disk), old(inodes), old(owner), d1, i1, disk, inodes, owner, inum, off, src[..tot]);
      return tot;
    }

    /** The end of writei: record a larger size and write the inode back. */
    method UpdateSize(inum: nat, end: nat)
      requires Owned(sb, disk, inodes, owner, {}) && inum < |inodes| && end <= MAXBYTES
      modifies this
      ensures Owned(sb, disk, inodes, owner, {}) && owner == old(owner)
      ensures inodes == old(inodes)[inum := WithSize(old(inodes[inum]), Max(old(inodes[inum].size), end))]
      ensures SameFiles(old(disk), old(inodes), disk, inodes)
      ensures DiskFull(sb, old(disk)) ==> DiskFull(sb, disk)
      ensures FreeBlocks(sb, disk) == old(FreeBlocks(sb, disk))
      ensures Synced(inum)
      ensures forall i :: 0 <= i < |inodes| && i != inum ==> DiskInode(sb, disk, i) == DiskInode(sb, old(disk), i)
    {
      hide Owned, SameFiles, MarkedBelow, DecodeInode, FreeBlocks;
      SameFilesRefl(disk, inodes);
      if end > inodes[inum].size {
        inodes := inodes[inum := WithSize(inodes[inum], end)];
        RecordOwned(sb, disk, old(inodes), owner, inum, WithSize(old(inodes)[inum], end));
      }
      Iupdate(inum);
      SameFilesTrans(old(disk), old(inodes), old(disk), inodes, disk, inodes);
    }

    /** The loop of writei. */
    method WriteBlocks(inum: nat, src: seq<byte>, off: nat) returns (tot: nat)
      requires Valid() && inum < |inodes| && off + |src| <= MAXBYTES
      modifies this
      ensures Owned(sb, disk, inodes, owner, {})
      ensures tot <= |src|
      ensures Stored(old(disk), old(inodes), disk, inodes, inum, off, src[..tot]) &&
              OnlyAddrs(old(inodes), inodes, inum)
      ensures forall x :: 0 <= x < sb.bmapstart ==> disk[x] == old(disk[x])
      ensures OwnersGrow(old(owner), owner) && Covered(disk, inodes[inum], off, off + tot)
      ensures tot < |src| ==> DiskFull(sb, disk) && Addr(disk, inodes[inum], DataSlot((off + tot) / BSIZE)) == 0
      ensures 0 < tot < |src| ==> (off + tot) % BSIZE == 0
      ensures src != [] ==> WriteSpace(sb, old(disk), old(inodes)[inum], disk, off, |src|, tot)
    {
      hide Owned, MarkedBelow, Stored, Covered, OwnersGrow, Progress, WriteSpace, Budget, FreeBlocks, Need, EndBlock;
      OwnedShape(sb, disk, inodes, owner, {});
      OwnersGrowRefl(owner);
      CoveredNone(disk, inodes[inum], off);
      StoredNothing(disk, inodes, inum, off);
      ProgressStart(sb, disk, inodes[inum], off, |src|);
      ghost var b: nat := off / BSIZE;
      var pos := off;
      tot := 0;
      while tot < |src|
        invariant 0 <= tot <= |src| && pos == off + tot
        invariant Owned(sb, disk, inodes, owner, {}) && inum < |inodes| && |disk| == sb.size
        invariant Stored(old(disk), old(inodes), disk, inodes, inum, off, src[..tot]) &&
                OnlyAddrs(old(inodes), inodes, inum)
        invariant forall x :: 0 <= x < sb.bmapstart ==> disk[x] == old(disk[x])
        invariant OwnersGrow(old(owner), owner) && Covered(disk, inodes[inum], off, pos)
        invariant 0 < tot < |src| ==> pos % BSIZE == 0
        invariant Progress(sb, old(disk), old(inodes)[inum], disk, inodes[inum], off, |src|, tot, b)
      {
        ghost var d1, i1, o1 := disk, inodes, owner;
        AtPos(sb, old(disk), old(inodes)[inum], disk, inodes[inum], off, |src|, tot, b);
        var m := Min(|src| - tot, BSIZE - pos % BSIZE);
        var ok := WriteChunk(inum, src[tot..tot + m], pos);
        OwnedShape(sb, disk, inodes, owner, {});
        OwnersGrowTrans(old(owner), o1, owner);
        CoveredGrows(sb, d1, i1, o1, disk, inodes, owner, inum, off, pos);
        var done := if ok then src[tot..tot + m] else [];
        StoredTwice(old(disk), old(inodes), d1, i1, disk, inodes, inum, off, src[..tot], done);
        if !ok {
          assert src[..tot] + [] == src[..tot];
          WriteShort(sb, old(disk), old(inodes)[inum], d1, i1[inum], disk, off, |src|, tot, b);
          return;
        }
        ProgressStep(sb, old(disk), old(inodes)[inum], d1, i1, o1, disk, inodes, owner, inum, off, |src|, tot, b);
        b := b + 1;
        assert src[..tot] + src[tot..tot + m] == src[..tot + m];
        CoveredChunk(disk, inodes[inum], off, pos, m);
        tot, pos := tot + m, pos + m;
      }
      if src != [] {
        WriteEnd(sb, old(disk), old(inodes)[inum], disk, inodes[inum], off, |src|, b);
      }
    }

    /** The body of that loop: find the block of `pos`, copy the chunk into it, write it. */
    method WriteChunk(inum: nat, chunk: seq<byte>, pos: nat) returns (ok: bool)
      requires Owned(sb, disk, inodes, owner, {}) && inum < |inodes|
      requires chunk != [] && pos + |chunk| <= MAXBYTES && pos % BSIZE + |chunk| <= BSIZE
      modifies this
      ensures Owned(sb, disk, inodes, owner, {})
      ensures OnlyAddrs(old(inodes), inodes, inum) && OwnersGrow(old(owner), owner)
      ensures Stored(old(disk), old(inodes), disk, inodes, inum, pos, if ok then chunk else [])
      ensures forall x :: 0 <= x < sb.bmapstart ==> disk[x] == old(disk[x])
      ensures ok <==> Addr(disk, inodes[inum], DataSlot(pos / BSIZE)) != 0
      ensures !ok ==> DiskFull(sb, disk) && old(FreeBlocks(sb, disk) < Need(disk, inodes[inum], pos / BSIZE))
      ensures ok ==> Budget(sb, old(disk), old(inodes)[inum], disk, inodes[inum], pos / BSIZE, pos / BSIZE + 1)
    {
      hide Owned, MarkedBelow, Stored, SameFiles, OwnersGrow, Budget, FreeBlocks, Need;
      OwnedShape(sb, disk, inodes, owner, {});
      StoredNothing(disk, inodes, inum, pos);
      var addr := Bmap(inum, pos / BSIZE);
      OwnedShape(sb, disk, inodes, owner, {});
      StoredThenSame(old(disk), old(inodes), old(disk), old(inodes), disk, inodes, inum, pos, []);
      if addr == 0 {
        return false;
      }
      SlotOwner(sb, disk, inodes, owner, {}, inum, DataSlot(pos / BSIZE));
      ghost var d1, o := disk, owner;
      disk := disk[addr := Splice(disk[addr], pos % BSIZE, chunk)];
      StoreChunk(sb, d1, inodes, owner, disk, inum, pos, chunk);
      StoredTwice(old(disk), old(inodes), d1, inodes, disk, inodes, inum, pos, [], chunk);
      assert [] + chunk == chunk;
      OwnersGrowRefl(owner);
      SlotsGrow(sb, d1, inodes, owner, disk, inodes, owner, inum, DataSlot(pos / BSIZE));
      SlotsSame(sb, d1, disk, inodes, owner, inum);
      EntryBits(sb, d1, addr, disk);
      BudgetStays(sb, old(disk), old(inodes)[inum], d1, inodes[inum], disk, inodes[inum], pos / BSIZE, pos / BSIZE + 1);
      return true;
    }

    /** Discard the contents of a file: exactly its blocks become free. */
    method Itrunc(inum: nat)
      requires Valid() && inum < |inodes|
      modifies this
      ensures Valid()
      ensures inodes == old(inodes)[inum := Truncated(old(inodes[inum]))]
      ensures Content(disk, inodes[inum]) == [] && Synced(inum)
      ensures forall b :: 0 <= b < sb.size ==>
                (Used(sb, disk, b) <==> Used(sb, old(disk), b) && !(b in old(owner) && old(owner)[b].inum == inum))
      ensures owner == map b | b in old(owner) && old(owner)[b].inum != inum :: old(owner)[b]
      ensures forall i :: 0 <= i < |inodes| && i != inum ==>
                && Content(disk, inodes[i]) == Content(old(disk), inodes[i])
                && DiskInode(sb, disk, i) == DiskInode(sb, old(disk), i)
    {
      hide Content, SlotsOwn, DecodeInode, StoreInode;
      TruncDirect(inum);
      TruncIndirect(inum);
      ghost var i1 := inodes;
      inodes := inodes[inum := WithSize(inodes[inum], 0)];
      RecordOwned(sb, disk, i1, owner, inum, WithSize(i1[inum], 0));
      assert inodes[inum].addrs == NoAddrs();
      FilesStable(sb, old(disk), old(inodes), old(owner), {}, disk);
      ghost var d1 := disk;
      Iupdate(inum);
      TruncDone(sb, old(disk), old(inodes), d1, disk, inodes, inum);
      WithoutAll(old(owner), inum, old(inodes), sb, old(disk));
      BitsFollow(sb, old(disk), old(inodes), old(owner), disk, inodes, owner, inum);
    }

    /** The first loop of itrunc. */
    method TruncDirect(inum: nat)
      requires Owned(sb, disk, inodes, owner, {}) && inum < |inodes|
      modifies this
      ensures Owned(sb, disk, inodes, owner, {})
      ensures OnlyAddrs(old(inodes), inodes, inum)
      ensures forall k :: 0 <= k < NDIRECT ==> inodes[inum].addrs[k] == 0
      ensures inodes[inum].addrs[NDIRECT] == old(inodes[inum].addrs[NDIRECT])
      ensures forall x :: DataStart(sb) <= x < sb.size || 0 <= x < sb.bmapstart ==> disk[x] == old(disk[x])
      ensures owner == Without(old(owner), inum, 0, NDIRECT)
    {
      hide MetaUsed, SlotsOwn, OwnersName, BitsAgree, Without;
      WithoutNone(owner, inum);
      var k := 0;
      while k < NDIRECT
        invariant 0 <= k <= NDIRECT
        invariant Owned(sb, disk, inodes, owner, {}) && inum < |inodes|
        invariant OnlyAddrs(old(inodes), inodes, inum)
        invariant forall j :: 0 <= j < k ==> inodes[inum].addrs[j] == 0
        invariant forall j :: k <= j <= NDIRECT ==> inodes[inum].addrs[j] == old(inodes[inum].addrs[j])
        invariant forall x :: DataStart(sb) <= x < sb.size || 0 <= x < sb.bmapstart ==> disk[x] == old(disk[x])
        invariant owner == Without(old(owner), inum, 0, k)
      {
        assert Addr(disk, inodes[inum], k) == inodes[inum].addrs[k];
        WithoutStep(sb, disk, inodes, owner, old(owner), inum, 0, k);
        if inodes[inum].addrs[k] != 0 {
          ghost var d1, b := disk, inodes[inum].addrs[k];
          SlotOwner(sb, disk, inodes, owner, {}, inum, k);
          Bfree(inodes[inum].addrs[k]);
          DropDirect(sb, d1, inodes, owner, inum, k, disk);
          inodes := inodes[inum := WithAddr(inodes[inum], k, 0)];
          owner := owner - {b};
        }
        k := k + 1;
      }
    }

    /** The second half of itrunc: the blocks listed by the indirect block, then that block itself. */
    method TruncIndirect(inum: nat)
      requires Owned(sb, disk, inodes, owner, {}) && inum < |inodes|
      modifies this
      ensures Owned(sb, disk, inodes, owner, {})
      ensures inodes == old(inodes)[inum := WithAddr(old(inodes[inum]), NDIRECT, 0)]
      ensures forall x :: DataStart(sb) <= x < sb.size || 0 <= x < sb.bmapstart ==> disk[x] == old(disk[x])
      ensures owner == Without(old(owner), inum, NDIRECT, NSLOT)
    {
      hide MetaUsed, SlotsOwn, OwnersName, BitsAgree, Without, BlocksFrom, Pending;
      var ind := inodes[inum].addrs[NDIRECT];
      assert Addr(disk, inodes[inum], NDIRECT) == ind;
      ghost var owner0, without := owner, inodes[inum := WithAddr(inodes[inum], NDIRECT, 0)];
      DropIndirect(sb, disk, inodes, owner, inum);
      owner := Without(owner, inum, NDIRECT, NSLOT);
      if ind != 0 {
        SlotOwner(sb, disk, inodes, owner0, {}, inum, NDIRECT);
        var a := disk[ind];
        PendingStart(disk, inodes, owner0, inum);
        var j := 0;
        while j < NINDIRECT
          invariant 0 <= j <= NINDIRECT && inodes == old(inodes) && owner == Without(owner0, inum, NDIRECT, NSLOT)
          invariant Owned(sb, disk, without, owner, Pending(old(disk), inodes[inum], j))
          invariant forall x :: DataStart(sb) <= x < sb.size || 0 <= x < sb.bmapstart ==> disk[x] == old(disk[x])
        {
          PendingStep(old(disk), inodes, owner0, inum, j);
          if Entry(a, j) != 0 {
            ghost var d1 := disk;
            ExtraUsed(sb, disk, without, owner, Pending(old(disk), inodes[inum], j), Entry(a, j));
            Bfree(Entry(a, j));
            FreeOwned(sb, d1, without, owner, Pending(old(disk), inodes[inum], j), disk, Entry(a, j));
          }
          j := j + 1;
        }
        PendingEnd(old(disk), inodes[inum]);
        ghost var d2 := disk;
        ExtraUsed(sb, disk, without, owner, {ind}, ind);
        Bfree(ind);
        FreeOwned(sb, d2, without, owner, {ind}, disk, ind);
        assert {ind} - {ind} == {};
        inodes := inodes[inum := WithAddr(inodes[inum], NDIRECT, 0)];
      } else {
        assert inodes[inum].addrs == inodes[inum].addrs[NDIRECT := 0];
        assert inodes == without;
        BlocksNone(disk, inodes[inum]);
      }
    }
  }

  function Truncated(i: Inode): (i': Inode) {
    Inode(i.kind, i.major, i.minor, i.nlink, 0, NoAddrs())
  }

  /** Ownership without the slots `lo <= k < hi` of one inode. */
  ghost function Without(owner: map<nat, Slot>, inum: nat, lo: nat, hi: nat): (o: map<nat, Slot>) {
    map b | b in owner && !(owner[b].inum == inum && lo <= owner[b].k < hi) :: owner[b]
  }

  lemma WithoutNone(owner: map<nat, Slot>, inum: nat)
    ensures Without(owner, inum, 0, 0) == owner
  {
  }

  /** One more slot: the block it names, if any, is the only one to go. */
  lemma WithoutStep(sb: SuperBlock, disk: Disk, inodes: seq<Inode>, owner: map<nat, Slot>, owner0: map<nat, Slot>,
                    inum: nat, lo: nat, k: nat)
    requires Owned(sb, disk, inodes, owner, {}) && inum < |inodes| && lo <= k < NSLOT
    requires owner == Without(owner0, inum, lo, k)
    ensures var a := Addr(disk, inodes[inum], k);
            Without(owner0, inum, lo, k + 1) == if a == 0 then owner else owner - {a}
  {
    hide MetaUsed, BitsAgree;
    var a := Addr(disk, inodes[inum], k);
    assert forall b :: b in owner && owner[b] == Slot(inum, k) ==> b == a;
  }

  lemma DropDirect(sb: SuperBlock, disk: Disk, inodes: seq<Inode>, owner: map<nat, Slot>, inum: nat, k: nat,
                   disk': Disk)
    requires Owned(sb, disk, inodes, owner, {}) && inum < |inodes| && k < NDIRECT && inodes[inum].addrs[k] != 0
    requires Freed(sb, disk, disk', inodes[inum].addrs[k])
    ensures Owned(sb, disk', inodes[inum := WithAddr(inodes[inum], k, 0)], owner - {inodes[inum].addrs[k]}, {})
  {
    var b := inodes[inum].addrs[k];
    RemoveDirect(sb, disk, inodes, owner, {}, inum, k);
    assert {} + {b} == {b};
    FreeOwned(sb, disk, inodes[inum := WithAddr(inodes[inum], k, 0)], owner - {b}, {b}, disk', b);
    assert {b} - {b} == {};
  }

  lemma DropIndirect(sb: SuperBlock, disk: Disk, inodes: seq<Inode>, owner: map<nat, Slot>, inum: nat)
    requires Owned(sb, disk, inodes, owner, {}) && inum < |inodes|
    ensures Owned(sb, disk, inodes[inum := WithAddr(inodes[inum], NDIRECT, 0)], Without(owner, inum, NDIRECT, NSLOT),
                  BlocksFrom(disk, inodes[inum], NDIRECT))
  {
    var gone := BlocksFrom(disk, inodes[inum], NDIRECT);
    RemoveIndirect(sb, disk, inodes, owner, {}, inum);
    assert {} + gone == gone;
    assert owner - gone == Without(owner, inum, NDIRECT, NSLOT);
  }

  lemma ExtraUsed(sb: SuperBlock, disk: Disk, inodes: seq<Inode>, owner: map<nat, Slot>, extra: set<nat>, b: nat)
    requires Owned(sb, disk, inodes, owner, extra) && b in extra
    ensures DataStart(sb) <= b < sb.size && Used(sb, disk, b)
  {
  }

  lemma BlocksNone(disk: Disk, i: Inode)
    requires i.addrs[NDIRECT] == 0
    ensures BlocksFrom(disk, i, NDIRECT) == {}
  {
  }

  lemma WithoutAll(o0: map<nat, Slot>, inum: nat, inodes: seq<Inode>, sb: SuperBlock, disk: Disk)
    requires Shaped(sb, disk, inodes) && OwnersName(sb, disk, inodes, o0)
    ensures Without(Without(o0, inum, 0, NDIRECT), inum, NDIRECT, NSLOT) == map b | b in o0 &&
            o0[b].inum != inum :: o0[b]
  {
  }

  /** The bitmap follows the owners. */
  lemma BitsFollow(sb: SuperBlock, d0: Disk, i0: seq<Inode>, o0: map<nat, Slot>, d: Disk, i: seq<Inode>,
                   o: map<nat, Slot>,
                   inum: nat)
    requires Owned(sb, d0, i0, o0, {}) && Owned(sb, d, i, o, {})
    requires o == map b | b in o0 && o0[b].inum != inum :: o0[b]
    ensures forall b :: 0 <= b < sb.size ==>
              (Used(sb, d, b) <==> Used(sb, d0, b) && !(b in o0 && o0[b].inum == inum))
  {
    hide SlotsOwn, Bit;
  }

  /** The blocks still to be freed before entry `j`: the indirect block and what it lists from `j` on. */
  ghost function Pending(disk: Disk, i: Inode, j: nat): (s: set<nat>) {
    {i.addrs[NDIRECT] as nat} + BlocksFrom(disk, i, NDIRECT + 1 + j)
  }

  lemma PendingStart(disk: Disk, inodes: seq<Inode>, owner: map<nat, Slot>, inum: nat)
    requires SlotsOwn(disk, inodes, owner) && inum < |inodes| && inodes[inum].addrs[NDIRECT] != 0
    ensures BlocksFrom(disk, inodes[inum], NDIRECT) == Pending(disk, inodes[inum], 0)
  {
    assert Addr(disk, inodes[inum], NDIRECT) == inodes[inum].addrs[NDIRECT];
  }

  /** The entries of an indirect block are distinct from each other and from the block itself. */
  lemma PendingStep(disk: Disk, inodes: seq<Inode>, owner: map<nat, Slot>, inum: nat, j: nat)
    requires SlotsOwn(disk, inodes, owner) && inum < |inodes| && j < NINDIRECT
    requires 0 < inodes[inum].addrs[NDIRECT] < |disk|
    ensures var a := Entry(disk[inodes[inum].addrs[NDIRECT]], j);
            if a == 0 then Pending(disk, inodes[inum], j + 1) == Pending(disk, inodes[inum], j)
            else a in Pending(disk, inodes[inum], j)
                 && Pending(disk, inodes[inum], j + 1) == Pending(disk, inodes[inum], j) - {a}
  {
    var ino, k := inodes[inum], NDIRECT + 1 + j;
    assert Addr(disk, ino, NDIRECT) == ino.addrs[NDIRECT];
    assert forall b :: b in BlocksFrom(disk, ino, k) <==>
        b in BlocksFrom(disk, ino, k + 1) || (b == Addr(disk, ino, k) && b != 0);
    if Addr(disk, ino, k) != 0 {
      assert owner[Addr(disk, ino, k)] == Slot(inum, k);
    }
  }

  lemma PendingEnd(disk: Disk, i: Inode)
    ensures Pending(disk, i, NINDIRECT) == {i.addrs[NDIRECT] as nat}
  {
    assert BlocksFrom(disk, i, NSLOT) == {};
  }

  lemma TruncDone(sb: SuperBlock, d0: Disk, i0: seq<Inode>, d1: Disk, d2: Disk, i2: seq<Inode>, inum: nat)
    requires inum < |i0| && SizesFit(i0) && i2 == i0[inum := Truncated(i0[inum])]
    requires SameFiles(d0, i0, d1, i0) && SameFiles(d1, i2, d2, i2)
    ensures Content(d2, i2[inum]) == []
    ensures forall i :: 0 <= i < |i0| && i != inum ==> Content(d2, i2[i]) == Content(d0, i0[i])
  {
    forall i | 0 <= i < |i0| && i != inum
      ensures Content(d2, i2[i]) == Content(d0, i0[i])
    {
      assert forall p :: 0 <= p < i0[i].size ==> FileByte(d2, i2[i], p) == FileByte(d0, i0[i], p);
    }
  }

  /** What a read returns: the bytes from `off`, up to the end of the file. */
  ghost function ReadRange(c: seq<byte>, off: uint32, n: uint32): (s: seq<byte>) {
    if off > |c| || off + n >= 0x1_0000_0000 then [] else c[off..Min(off + n, |c|)]
  }

  lemma OwnedShape(sb: SuperBlock, disk: Disk, inodes: seq<Inode>, owner: map<nat, Slot>, extra: set<nat>)
    requires Owned(sb, disk, inodes, owner, extra)
    ensures Shaped(sb, disk, inodes)
  {
  }

  lemma NoHoleAt(disk: Disk, i: Inode, pos: nat)
    requires pos < i.size <= MAXBYTES && NoHoles(disk, i)
    ensures Addr(disk, i, DataSlot(pos / BSIZE)) != 0
  {
    assert pos / BSIZE * 1024 <= pos;
  }

  /** The bytes of one block of a file, as part of its contents. */
  lemma ChunkRead(disk: Disk, inodes: seq<Inode>, disk0: Disk, inodes0: seq<Inode>, inum: nat, pos: nat, m: nat)
    requires SameFiles(disk0, inodes0, disk, inodes) && inum < |inodes|
    requires inodes0[inum].size <= MAXBYTES && 0 < m && pos + m <= inodes0[inum].size && pos % BSIZE + m <= BSIZE
    requires 0 < Addr(disk, inodes[inum], DataSlot(pos / BSIZE)) < |disk|
    ensures disk[Addr(disk, inodes[inum], DataSlot(pos / BSIZE))][pos % BSIZE..pos % BSIZE + m]
            == Content(disk0, inodes0[inum])[pos..pos + m]
  {
    var base := pos - pos % BSIZE;
    var blk, c := disk[Addr(disk, inodes[inum], DataSlot(pos / BSIZE))], Content(disk0, inodes0[inum]);
    forall p | pos <= p < pos + m
      ensures blk[p - base] == c[p]
    {
      assert p / BSIZE == pos / BSIZE && p % BSIZE == p - base;
      assert FileByte(disk, inodes[inum], p) == FileByte(disk0, inodes0[inum], p);
    }
    SliceEqual(blk, pos - base, c, pos, m);
  }

  lemma {:induction false} SliceEqual(a: seq<byte>, i: nat, b: seq<byte>, j: nat, m: nat)
    requires i + m <= |a| && j + m <= |b|
    requires forall p :: j <= p < j + m ==> a[p - (j - i)] == b[p]
    ensures a[i..i + m] == b[j..j + m]
  {
    if m != 0 {
      SliceEqual(a, i, b, j, m - 1);
      assert a[j + m - 1 - (j - i)] == b[j + m - 1];
      assert a[i..i + m] == a[i..i + m - 1] + [a[i + m - 1]];
      assert b[j..j + m] == b[j..j + m - 1] + [b[j + m - 1]];
    }
  }

  function WithSize(i: Inode, size: uint32): (i': Inode) {
    Inode(i.kind, i.major, i.minor, i.nlink, size, i.addrs)
  }

  /** The other fields of an inode play no part in who owns which block. */
  lemma RecordOwned(sb: SuperBlock, disk: Disk, inodes: seq<Inode>, owner: map<nat, Slot>, inum: nat, din: Inode)
    requires Owned(sb, disk, inodes, owner, {}) && inum < |inodes| && din.addrs == inodes[inum].addrs
    ensures Owned(sb, disk, inodes[inum := din], owner, {})
    ensures SameFiles(disk, inodes, disk, inodes[inum := din])
  {
    assert forall k :: 0 <= k < NSLOT ==> Addr(disk, din, k) == Addr(disk, inodes[inum], k);
    assert forall p :: 0 <= p < MAXBYTES ==> FileByte(disk, din, p) == FileByte(disk, inodes[inum], p);
  }

  /** A newly allocated block is put in an empty slot of the inode. */
  lemma GrowAddr(sb: SuperBlock, disk: Disk, inodes: seq<Inode>, owner: map<nat, Slot>,
                 inum: nat, k: nat, b: nat, disk': Disk)
    requires Owned(sb, disk, inodes, owner, {}) && Allocated(sb, disk, disk', b)
    requires inum < |inodes| && k <= NDIRECT && inodes[inum].addrs[k] == 0
    ensures var inodes' := inodes[inum := WithAddr(inodes[inum], k, b)];
            && Owned(sb, disk', inodes', owner[b := Slot(inum, k)], {})
            && SameFiles(disk, inodes, disk', inodes')
    ensures OwnersGrow(owner, owner[b := Slot(inum, k)])
  {
    AllocateOwned(sb, disk, inodes, owner, {}, disk', b);
    InstallAddr(sb, disk', inodes, owner, {b}, inum, k, b);
    assert {b} - {b} == {};
    SameFilesTrans(disk, inodes, disk', inodes, disk', inodes[inum := WithAddr(inodes[inum], k, b)]);
  }

  /** A newly allocated block is put in an empty entry of the indirect block. */
  lemma GrowEntry(sb: SuperBlock, disk: Disk, inodes: seq<Inode>, owner: map<nat, Slot>,
                  inum: nat, j: nat, b: nat, mid: Disk, disk': Disk)
    requires Owned(sb, disk, inodes, owner, {}) && Allocated(sb, disk, mid, b)
    requires inum < |inodes| && j < NINDIRECT && 0 < inodes[inum].addrs[NDIRECT] < |disk|
    requires var ind := inodes[inum].addrs[NDIRECT];
             Entry(disk[ind], j) == 0 && disk' == mid[ind := SetEntry(mid[ind], j, b)]
    ensures Owned(sb, disk', inodes, owner[b := Slot(inum, NDIRECT + 1 + j)], {})
    ensures SameFiles(disk, inodes, disk', inodes)
    ensures Addr(disk', inodes[inum], NDIRECT + 1 + j) == b
    ensures OwnersGrow(owner, owner[b := Slot(inum, NDIRECT + 1 + j)])
  {
    AllocateOwned(sb, disk, inodes, owner, {}, mid, b);
    assert Addr(mid, inodes[inum], NDIRECT + 1 + j) == Addr(disk, inodes[inum], NDIRECT + 1 + j);
    InstallEntry(sb, mid, inodes, owner, {b}, inum, j, b, disk');
    assert {b} - {b} == {};
    SameFilesTrans(disk, inodes, mid, inodes, disk', inodes);
  }

  /** Writing a data block leaves the bitmap alone. */
  lemma EntryBits(sb: SuperBlock, disk: Disk, b: nat, disk': Disk)
    requires WellLaidOut(sb) && |disk| == sb.size && DataStart(sb) <= b < sb.size && |disk'| == |disk| &&
            disk' == disk[b := disk'[b]]
    ensures FreeBlocks(sb, disk') == FreeBlocks(sb, disk)
  {
    BitsStable(sb, disk, disk');
    FreeSame(sb, disk, disk');
  }

  /** The position of a block's bit, found by counting blocks of the bitmap and bits within a block. */
  lemma BitPosition(b: nat, bi: nat)
    requires b % BPB == 0 && bi < BPB
    ensures (b + bi) / BPB == b / BPB && (b + bi) % BPB == bi && (b + bi) % 8 == bi % 8
  {
  }

  lemma Marked(sb: SuperBlock, disk: Disk, n: nat, m: nat)
    requires WellLaidOut(sb) && |disk| == sb.size
    requires n > 0 ==> MarkedBelow(sb, disk, n)
    requires m <= n || n >= sb.size || (m == n + 1 && Used(sb, disk, n))
    ensures MarkedBelow(sb, disk, m)
  {
  }

  lemma BallocDone(sb: SuperBlock, disk: Disk, b: nat, bi: nat, disk': Disk)
    requires WellLaidOut(sb) && |disk| == sb.size && MetaUsed(sb, disk)
    requires b % BPB == 0 && bi < BPB && b + bi < sb.size && !Used(sb, disk, b + bi)
    requires var bp := disk[BBLOCK(sb, b)];
             disk' == disk[BBLOCK(sb, b) := bp[bi / 8 := OrMask(bp[bi / 8], bi % 8)]][b + bi := ZeroBlock()]
    ensures Allocated(sb, disk, disk', b + bi)
  {
    BitPosition(b, bi);
    var n := b + bi;
    var mid := BitmapStore(sb, disk, n, OrMask(disk[BBLOCK(sb, n)][n % BPB / 8], n % 8));
    assert disk' == mid[n := ZeroBlock()];
    BitsStable(sb, mid, disk');
    forall x | 0 <= x < sb.size { BitmapSet(sb, disk, n, x); }
  }
}
