/**
  How many blocks are free, and how many a reader of a file with holes makes bmap allocate.
 */
module FsSpace {
  import opened Codec
  import opened FsLayout
  import opened FsOwnership

  /** The blocks whose bit in the bitmap is clear. */
  ghost function Unmarked(sb: SuperBlock, disk: Disk): (s: set<nat>)
    requires WellLaidOut(sb) && |disk| == sb.size
  {
    set b: nat | b < sb.size && !Used(sb, disk, b)
  }

  ghost function FreeBlocks(sb: SuperBlock, disk: Disk): (n: nat)
    requires WellLaidOut(sb) && |disk| == sb.size
  {
    |Unmarked(sb, disk)|
  }

  lemma FreeTaken(sb: SuperBlock, disk: Disk, disk': Disk, b: nat)
    requires WellLaidOut(sb) && |disk| == sb.size && Allocated(sb, disk, disk', b)
    ensures |disk'| == sb.size && FreeBlocks(sb, disk') == FreeBlocks(sb, disk) - 1
  {
    assert Unmarked(sb, disk') == Unmarked(sb, disk) - {b};
    assert b in Unmarked(sb, disk);
  }

  lemma FreeSame(sb: SuperBlock, disk: Disk, disk': Disk)
    requires WellLaidOut(sb) && |disk| == sb.size && |disk'| == sb.size
    requires forall b: nat :: b < sb.size ==> (Used(sb, disk', b) <==> Used(sb, disk, b))
    ensures FreeBlocks(sb, disk') == FreeBlocks(sb, disk)
  {
    assert Unmarked(sb, disk') == Unmarked(sb, disk);
  }

  lemma FreeNone(sb: SuperBlock, disk: Disk)
    requires WellLaidOut(sb) && |disk| == sb.size
    ensures FreeBlocks(sb, disk) == 0 <==> forall b: nat :: b < sb.size ==> Used(sb, disk, b)
  {
    if FreeBlocks(sb, disk) == 0 {
      forall b: nat | b < sb.size ensures Used(sb, disk, b) {
        assert b !in Unmarked(sb, disk);
      }
    } else {
      var b :| b in Unmarked(sb, disk);
    }
  }

  // ---------------------------------------------------------------------------
  // What a file with holes needs
  // ---------------------------------------------------------------------------

  /** What bmap has to allocate for data block `bn`: nothing, the block, or the indirect block too. */
  function Need(disk: Disk, i: Inode, bn: nat): (n: nat)
    requires bn < MAXFILE
  {
    if Addr(disk, i, DataSlot(bn)) != 0 then 0 else if bn >= NDIRECT && i.addrs[NDIRECT] == 0 then 2 else 1
  }

  function Holes(disk: Disk, i: Inode, lo: nat, hi: nat): (n: nat)
    requires hi <= MAXFILE
    decreases hi - lo
  {
    if lo >= hi then 0 else (if Addr(disk, i, DataSlot(lo)) == 0 then 1 else 0) + Holes(disk, i, lo + 1, hi)
  }

  /** What a reader of the data blocks from `lo` up to `hi` makes bmap allocate. */
  function Missing(disk: Disk, i: Inode, lo: nat, hi: nat): (n: nat)
    requires hi <= MAXFILE
  {
    Holes(disk, i, lo, hi) + if lo < hi && NDIRECT < hi && i.addrs[NDIRECT] == 0 then 1 else 0
  }

  /** bmap's effect on the slots: it fills that of block `bn`, and that of the indirect block if it needs to. */
  ghost predicate Fills(disk: Disk, i: Inode, disk': Disk, i': Inode, bn: nat)
    requires bn < MAXFILE
  {
    && (forall k :: 0 <= k < NSLOT && k != DataSlot(bn) && k != NDIRECT ==> Addr(disk', i', k) == Addr(disk, i, k))
    && (bn < NDIRECT || i.addrs[NDIRECT] != 0 ==> i'.addrs[NDIRECT] == i.addrs[NDIRECT])
    && Addr(disk', i', DataSlot(bn)) != 0
  }

  lemma {:induction false} HolesSame(disk: Disk, i: Inode, disk': Disk, i': Inode, bn: nat, lo: nat, hi: nat)
    requires bn < lo && bn < MAXFILE && hi <= MAXFILE && Fills(disk, i, disk', i', bn)
    ensures Holes(disk', i', lo, hi) == Holes(disk, i, lo, hi)
    decreases hi - lo
  {
    if lo < hi {
      assert DataSlot(lo) != DataSlot(bn) && DataSlot(lo) != NDIRECT;
      HolesSame(disk, i, disk', i', bn, lo + 1, hi);
    }
  }

  /**
    Reading up to block `b` has cost what it needed, no more and no less: whatever is still to be read
    can be read if and only if it could have been to begin with.
   */
  ghost predicate Budget(sb: SuperBlock, d0: Disk, i0: Inode, d: Disk, i: Inode, lo: nat, b: nat)
    requires WellLaidOut(sb) && |d0| == sb.size && |d| == sb.size
  {
    forall hi {:trigger Missing(d, i, b, hi)} :: b <= hi <= MAXFILE ==>
      FreeBlocks(sb, d0) - Missing(d0, i0, lo, hi) == FreeBlocks(sb, d) - Missing(d, i, b, hi)
  }

  lemma BudgetStart(sb: SuperBlock, d: Disk, i: Inode, lo: nat)
    requires WellLaidOut(sb) && |d| == sb.size
    ensures Budget(sb, d, i, d, i, lo, lo)
  {
  }

  lemma BudgetTrans(sb: SuperBlock, d0: Disk, i0: Inode, d1: Disk, i1: Inode, d2: Disk, i2: Inode, lo: nat, b: nat,
                    c: nat)
    requires WellLaidOut(sb) && |d0| == sb.size && |d1| == sb.size && |d2| == sb.size && b <= c
    requires Budget(sb, d0, i0, d1, i1, lo, b) && Budget(sb, d1, i1, d2, i2, b, c)
    ensures Budget(sb, d0, i0, d2, i2, lo, c)
  {
    forall hi {:trigger Missing(d2, i2, c, hi)} | c <= hi <= MAXFILE
      ensures FreeBlocks(sb, d0) - Missing(d0, i0, lo, hi) == FreeBlocks(sb, d2) - Missing(d2, i2, c, hi)
    {
      assert FreeBlocks(sb, d0) - Missing(d0, i0, lo, hi) == FreeBlocks(sb, d1) - Missing(d1, i1, b, hi);
    }
  }

  lemma BudgetStep(sb: SuperBlock, disk: Disk, i: Inode, disk': Disk, i': Inode, bn: nat)
    requires WellLaidOut(sb) && |disk| == sb.size && |disk'| == sb.size && bn < MAXFILE
    requires Fills(disk, i, disk', i', bn) && FreeBlocks(sb, disk') == FreeBlocks(sb, disk) - Need(disk, i, bn)
    ensures Budget(sb, disk, i, disk', i', bn, bn + 1)
  {
    hide Fills, FreeBlocks;
    forall hi {:trigger Missing(disk', i', bn + 1, hi)} | bn + 1 <= hi <= MAXFILE
      ensures FreeBlocks(sb, disk) - Missing(disk, i, bn, hi) == FreeBlocks(sb, disk') - Missing(disk', i', bn + 1, hi)
    {
      MissingStep(disk, i, disk', i', bn, hi);
    }
  }

  lemma MissingStep(disk: Disk, i: Inode, disk': Disk, i': Inode, bn: nat, hi: nat)
    requires bn < hi <= MAXFILE && Fills(disk, i, disk', i', bn)
    ensures Missing(disk, i, bn, hi) == Need(disk, i, bn) + Missing(disk', i', bn + 1, hi)
  {
    HolesSame(disk, i, disk', i', bn, bn + 1, hi);
  }

  ghost predicate SameAddrs(disk: Disk, i: Inode, disk': Disk, i': Inode) {
    forall k :: 0 <= k < NSLOT ==> Addr(disk', i', k) == Addr(disk, i, k)
  }

  lemma {:induction false} HolesStay(disk: Disk, i: Inode, disk': Disk, i': Inode, lo: nat, hi: nat)
    requires hi <= MAXFILE && SameAddrs(disk, i, disk', i')
    ensures Missing(disk', i', lo, hi) == Missing(disk, i, lo, hi)
    decreases hi - lo
  {
    assert Addr(disk', i', NDIRECT) == Addr(disk, i, NDIRECT);
    if lo < hi {
      assert Addr(disk', i', DataSlot(lo)) == Addr(disk, i, DataSlot(lo));
      HolesStay(disk, i, disk', i', lo + 1, hi);
    }
  }

  /** A change that moves no block of the file, and takes none, keeps the budget. */
  lemma BudgetStays(sb: SuperBlock, d0: Disk, i0: Inode, d: Disk, i: Inode, d': Disk, i': Inode, lo: nat, b: nat)
    requires WellLaidOut(sb) && |d0| == sb.size && |d| == sb.size && |d'| == sb.size
    requires Budget(sb, d0, i0, d, i, lo, b) && SameAddrs(d, i, d', i') && FreeBlocks(sb, d') == FreeBlocks(sb, d)
    ensures Budget(sb, d0, i0, d', i', lo, b)
  {
    hide FreeBlocks, Missing, SameAddrs;
    forall hi {:trigger Missing(d', i', b, hi)} | b <= hi <= MAXFILE
      ensures FreeBlocks(sb, d0) - Missing(d0, i0, lo, hi) == FreeBlocks(sb, d') - Missing(d', i', b, hi)
    {
      HolesStay(d, i, d', i', b, hi);
    }
  }

  /** What one block needs is part of what all of them need. */
  lemma NeedFirst(disk: Disk, i: Inode, bn: nat, hi: nat)
    requires bn < hi <= MAXFILE
    ensures Need(disk, i, bn) <= Missing(disk, i, bn, hi)
  {
    assert Holes(disk, i, bn, hi) == (if Addr(disk, i, DataSlot(bn)) == 0 then 1 else 0) + Holes(disk, i, bn + 1, hi);
  }

  lemma {:induction false} NoHolesNoNeed(disk: Disk, i: Inode, lo: nat, hi: nat)
    requires hi <= MAXFILE && forall bn :: lo <= bn < hi ==> Addr(disk, i, DataSlot(bn)) != 0
    ensures Missing(disk, i, lo, hi) == 0
    decreases hi - lo
  {
    if lo < hi {
      assert Addr(disk, i, DataSlot(lo)) != 0 && Addr(disk, i, DataSlot(hi - 1)) != 0;
      if lo + 1 < hi {
        NoHolesNoNeed(disk, i, lo + 1, hi);
      } else {
        assert Holes(disk, i, lo + 1, hi) == 0;
      }
    }
  }

  /** A hole before `hi` needs a block. */
  lemma {:induction false} HoleNeeds(disk: Disk, i: Inode, lo: nat, hi: nat, bn: nat)
    requires lo <= bn < hi <= MAXFILE && Addr(disk, i, DataSlot(bn)) == 0
    ensures Missing(disk, i, lo, hi) > 0
    decreases hi - lo
  {
    if lo < bn {
      HoleNeeds(disk, i, lo + 1, hi, bn);
    }
  }
}
