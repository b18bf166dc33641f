/**
  readi allocates a block for every hole it reads, but does not write the inode back
  (`kernel/fs/xv6fs/fs.c`), and iget may drop the copy in memory (`kernel/fs/vfs.c`).  What the next
  load makes of that.
 */
module FsReload {
  import opened Codec
  import opened FsLayout
  import opened FsOwnership
  import opened FsSpace
  import opened Fs

  /** A read of the data blocks from `lo` up to `hi` needs an address that the inode itself lacks. */
  predicate InodeHole(i: Inode, lo: nat, hi: nat) {
    || (exists k :: lo <= k < hi && k < NDIRECT && i.addrs[k] == 0)
    || (lo < hi && NDIRECT < hi && i.addrs[NDIRECT] == 0)
  }

  /** A data block is marked in use, and no inode names it. */
  ghost predicate Lost(sb: SuperBlock, disk: Disk, inodes: seq<Inode>, b: nat)
    requires WellLaidOut(sb) && |disk| == sb.size
  {
    && DataStart(sb) <= b < sb.size && Used(sb, disk, b)
    && forall i, k :: 0 <= i < |inodes| && 0 <= k < NSLOT ==> Addr(disk, inodes[i], k) != b
  }

  /** On a full disk no slot can be filled. */
  lemma FullStays(sb: SuperBlock, d0: Disk, n0: seq<Inode>, o0: map<nat, Slot>,
                  d: Disk, n: seq<Inode>, o: map<nat, Slot>, inum: nat)
    requires Owned(sb, d0, n0, o0, {}) && Owned(sb, d, n, o, {}) && OwnersGrow(o0, o) && inum < |n0|
    requires FreeBlocks(sb, d0) == 0
    ensures inum < |n| && n[inum].addrs == n0[inum].addrs
  {
    FreeNone(sb, d0);
    hide MetaUsed, SlotsOwn, FreeBlocks, Used;
    forall k | 0 <= k <= NDIRECT ensures n[inum].addrs[k] == n0[inum].addrs[k] {
      if Addr(d0, n0[inum], k) != 0 {
        SlotsGrow(sb, d0, n0, o0, d, n, o, inum, k);
      } else if Addr(d, n[inum], k) != 0 {
        SlotOwner(sb, d, n, o, {}, inum, k);
      }
    }
  }

  /** What the inode has is not moved. */
  lemma WholeStays(d0: Disk, i0: Inode, d: Disk, i: Inode, off: nat, want: nat, r: nat)
    requires ReadFills(d0, i0, d, i, off, want, r) && r <= want && 0 < want
    requires !InodeHole(i0, off / BSIZE, EndBlock(off, want))
    ensures i.addrs == i0.addrs
  {
    hide Present;
    forall k | 0 <= k <= NDIRECT ensures i.addrs[k] == i0.addrs[k] {
      assert Addr(d, i, k) == i.addrs[k] && Addr(d0, i0, k) == i0.addrs[k];
    }
  }

  /** A read that gets to the end has filled the inode's own slots. */
  lemma FilledMoves(d0: Disk, i0: Inode, d: Disk, i: Inode, off: nat, want: nat)
    requires ReadFills(d0, i0, d, i, off, want, want) && off + want <= MAXBYTES
    requires InodeHole(i0, off / BSIZE, EndBlock(off, want))
    ensures i.addrs != i0.addrs
  {
    hide OnlyIn;
    var lo, hi := off / BSIZE, EndBlock(off, want);
    if k :| lo <= k < hi && k < NDIRECT && i0.addrs[k] == 0 {
      assert Addr(d, i, DataSlot(k)) != 0;
    } else {
      var bn := if lo < NDIRECT then NDIRECT else lo;
      assert Addr(d, i, DataSlot(bn)) != 0;
    }
  }

  lemma FreeBlock(sb: SuperBlock, disk: Disk, inodes: seq<Inode>, owner: map<nat, Slot>, x: nat)
    requires Owned(sb, disk, inodes, owner, {}) && x < sb.size && !Used(sb, disk, x)
    ensures DataStart(sb) <= x && x !in owner
  {
    hide Used, SlotsOwn, OwnersName;
  }

  lemma UsedBlock(sb: SuperBlock, disk: Disk, inodes: seq<Inode>, owner: map<nat, Slot>, x: nat)
    requires Owned(sb, disk, inodes, owner, {}) && DataStart(sb) <= x < sb.size && Used(sb, disk, x)
    ensures x in owner && IsSlot(inodes, owner[x]) && Addr(disk, inodes[owner[x].inum], owner[x].k) == x
  {
    hide Used, SlotsOwn, MetaUsed, Addr;
  }

  /** A block that was free and is not any more belongs to the one file that was read. */
  lemma NewBlock(sb: SuperBlock, d0: Disk, n0: seq<Inode>, o0: map<nat, Slot>,
                 d: Disk, n: seq<Inode>, o: map<nat, Slot>, inum: nat) returns (k: nat)
    requires Owned(sb, d0, n0, o0, {}) && Owned(sb, d, n, o, {}) && inum < |n0|
    requires OtherFilesKept(d0, n0, d, n, inum) && FreeBlocks(sb, d0) > 0 && DiskFull(sb, d)
    ensures inum < |n| && k < NSLOT && Addr(d, n[inum], k) != Addr(d0, n0[inum], k)
  {
    OwnedShape(sb, d0, n0, o0, {});
    OwnedShape(sb, d, n, o, {});
    hide Owned, FreeBlocks, Used, Addr, MarkedBelow;
    var x := AnyFree(sb, d0);
    FreeBlock(sb, d0, n0, o0, x);
    Full(sb, d, x);
    UsedBlock(sb, d, n, o, x);
    k := o[x].k;
    NotNamed(sb, d0, n0, o0, x, o[x].inum, k);
  }

  lemma AnyFree(sb: SuperBlock, disk: Disk) returns (x: nat)
    requires WellLaidOut(sb) && |disk| == sb.size && FreeBlocks(sb, disk) > 0
    ensures x < sb.size && !Used(sb, disk, x)
  {
    hide Used;
    FreeNone(sb, disk);
    x :| x < sb.size && !Used(sb, disk, x);
  }

  lemma Full(sb: SuperBlock, disk: Disk, x: nat)
    requires WellLaidOut(sb) && |disk| == sb.size && DiskFull(sb, disk) && x < sb.size
    ensures Used(sb, disk, x)
  {
    hide Used;
  }

  lemma NotNamed(sb: SuperBlock, disk: Disk, inodes: seq<Inode>, owner: map<nat, Slot>, x: nat, i: nat, k: nat)
    requires Owned(sb, disk, inodes, owner, {}) && 0 < x && x !in owner && i < |inodes| && k < NSLOT
    ensures Addr(disk, inodes[i], k) != x
  {
    hide Used, Addr, OwnersName, MetaUsed, BitsAgree;
  }

  /** One that stops because the disk is full has filled the first of them, or none was in its way. */
  lemma ShortMoves(sb: SuperBlock, d0: Disk, n0: seq<Inode>, o0: map<nat, Slot>,
                   d: Disk, n: seq<Inode>, o: map<nat, Slot>, inum: nat, off: nat, want: nat, r: nat)
    requires Owned(sb, d0, n0, o0, {}) && Owned(sb, d, n, o, {}) && inum < |n0| == |n|
    requires OtherFilesKept(d0, n0, d, n, inum) && FreeBlocks(sb, d0) > 0 && DiskFull(sb, d)
    requires ReadFills(d0, n0[inum], d, n[inum], off, want, r) && r < want && off + want <= MAXBYTES
    requires InodeHole(n0[inum], off / BSIZE, EndBlock(off, want))
    ensures n[inum].addrs != n0[inum].addrs
  {
    hide Owned, FreeBlocks, MarkedBelow, OtherFilesKept;
    var k := NewBlock(sb, d0, n0, o0, d, n, o, inum);
    var b := (off + r) / BSIZE;
    if k > NDIRECT && n[inum].addrs[NDIRECT] == n0[inum].addrs[NDIRECT] {
      assert n[inum].addrs[NDIRECT] != 0 && NDIRECT <= b;
      var l :| off / BSIZE <= l < EndBlock(off, want) && l < NDIRECT && n0[inum].addrs[l] == 0;
      assert Addr(d, n[inum], DataSlot(l)) != 0;
    }
  }

  /** Reading changes the inode in memory if and only if it fills one of its own slots. */
  lemma ReadMoves(sb: SuperBlock, d0: Disk, n0: seq<Inode>, o0: map<nat, Slot>,
                  d: Disk, n: seq<Inode>, o: map<nat, Slot>, inum: nat, off: nat, want: nat, r: nat)
    requires Owned(sb, d0, n0, o0, {}) && Owned(sb, d, n, o, {}) && OwnersGrow(o0, o) && inum < |n0| == |n|
    requires OtherFilesKept(d0, n0, d, n, inum) && (r < want ==> DiskFull(sb, d))
    requires ReadFills(d0, n0[inum], d, n[inum], off, want, r) && r <= want && 0 < want && off + want <= MAXBYTES
    ensures WellLaidOut(sb) && |d0| == sb.size
    ensures n[inum].addrs == n0[inum].addrs <==>
            FreeBlocks(sb, d0) == 0 || !InodeHole(n0[inum], off / BSIZE, EndBlock(off, want))
  {
    hide Owned, FreeBlocks, MarkedBelow, OtherFilesKept, ReadFills, InodeHole, OwnersGrow, EndBlock;
    OwnedShape(sb, d0, n0, o0, {});
    if FreeBlocks(sb, d0) == 0 {
      FullStays(sb, d0, n0, o0, d, n, o, inum);
    } else if !InodeHole(n0[inum], off / BSIZE, EndBlock(off, want)) {
      WholeStays(d0, n0[inum], d, n[inum], off, want, r);
    } else if r == want {
      FilledMoves(d0, n0[inum], d, n[inum], off, want);
    } else {
      ShortMoves(sb, d0, n0, o0, d, n, o, inum, off, want, r);
    }
  }

  /** Going back to an inode that lacks one of its blocks loses that block. */
  lemma LosesBlock(sb: SuperBlock, disk: Disk, inodes: seq<Inode>, owner: map<nat, Slot>, inum: nat, d0: Disk,
                   din: Inode, lo: nat, hi: nat) returns (b: nat)
    requires Owned(sb, disk, inodes, owner, {}) && inum < |inodes|
    requires OnlyIn(d0, din, disk, inodes[inum], lo, hi) && din.addrs != inodes[inum].addrs
    ensures WellLaidOut(sb) && |disk| == sb.size && Lost(sb, disk, inodes[inum := din], b)
  {
    hide Used, Entry;
    var l: nat :| l <= NDIRECT && din.addrs[l] != inodes[inum].addrs[l];
    b := inodes[inum].addrs[l];
    assert Addr(disk, inodes[inum], l) == b && Addr(d0, din, l) == din.addrs[l];
    SlotOwner(sb, disk, inodes, owner, {}, inum, l);
    var inodes' := inodes[inum := din];
    forall i, k | 0 <= i < |inodes'| && 0 <= k < NSLOT ensures Addr(disk, inodes'[i], k) != b {
      if i != inum && Addr(disk, inodes[i], k) != 0 {
        SlotOwner(sb, disk, inodes, owner, {}, i, k);
      }
      if i == inum && Addr(disk, din, k) != 0 {
        KeptSlot(d0, din, disk, inodes[inum], lo, hi, k);
        SlotOwner(sb, disk, inodes, owner, {}, inum, k);
      }
    }
  }

  /** Slots that the older inode has, the newer one has too. */
  lemma KeptSlot(d0: Disk, din: Inode, disk: Disk, i: Inode, lo: nat, hi: nat, k: nat)
    requires OnlyIn(d0, din, disk, i, lo, hi) && k < NSLOT && Addr(disk, din, k) != 0
    ensures Addr(disk, i, k) == Addr(disk, din, k)
  {
    var j := if k <= NDIRECT then k else NDIRECT;
    assert Addr(d0, din, j) == din.addrs[j] && Addr(disk, i, j) == i.addrs[j];
  }

  /**
    A file that the disk holds as it is in memory is read, and then loaded again.  The blocks are still
    owned if and only if the read filled no slot of the inode itself, which can be told beforehand;
    otherwise a block is lost.
   */
  method ReadThenLoad(fs: Xv6fs, inum: nat, off: uint32, n: uint32, room: nat)
    returns (r: int, out: seq<byte>, panics: bool)
    requires fs.Valid() && inum < |fs.inodes| && fs.Synced(inum)
    modifies fs
    ensures fs.inodes == old(fs.inodes) && |fs.disk| == fs.sb.size
    ensures var want := |ReadRange(old(Content(fs.disk, fs.inodes[inum])), off, n)|;
            0 < want <= room ==>
              && (fs.Valid() <==>
                  old(FreeBlocks(fs.sb, fs.disk) == 0 ||
                      !InodeHole(fs.inodes[inum], off / BSIZE, EndBlock(off, want))))
              && (!fs.Valid() ==> exists b :: Lost(fs.sb, fs.disk, fs.inodes, b))
  {
    hide Owned, FreeBlocks, MarkedBelow, Content, OtherFilesKept, ReadFills, InodeHole, OwnersGrow, EndBlock, ReadSpace,
        NoHoles, Present, SameFiles, DecodeInode, Lost, InodeIn;
    ghost var d0, n0, o0 := fs.disk, fs.inodes, fs.owner;
    OwnedShape(fs.sb, d0, n0, o0, {});
    ghost var want := |ReadRange(Content(d0, n0[inum]), off, n)|;
    r, out := fs.Readi(inum, off, n, room);
    ghost var n1 := fs.inodes;
    OwnedShape(fs.sb, fs.disk, fs.inodes, fs.owner, {});
    panics := fs.ReadBlock(inum, false);
    assert fs.inodes[inum] == n0[inum];
    assert fs.inodes == n0;
    if 0 < want <= room {
      ReadMoves(fs.sb, d0, n0, o0, fs.disk, n1, fs.owner, inum, off, want, r);
      if n1[inum].addrs != n0[inum].addrs {
        FilledPart(d0, n0[inum], fs.disk, n1[inum], off, want, r);
        ghost var b := LosesBlock(fs.sb, fs.disk, n1, fs.owner, inum, d0, n0[inum], off / BSIZE,
                                  EndBlock(off, want));
        assert n1[inum := n0[inum]] == fs.inodes;
      }
    }
  }

  lemma FilledPart(d0: Disk, i0: Inode, d: Disk, i: Inode, off: nat, want: nat, r: nat)
    requires ReadFills(d0, i0, d, i, off, want, r) && r <= want
    ensures OnlyIn(d0, i0, d, i, off / BSIZE, EndBlock(off, want))
  {
    hide Present;
  }
}
