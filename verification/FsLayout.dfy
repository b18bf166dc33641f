/**
  The on-disk format of xv6fs (`kernel/fs/xv6fs/fs.h`): super block, inode blocks,
  free bitmap and data blocks, and what they mean: which block a slot of an inode
  names, and which bytes a file holds.
 */
module FsLayout {
  import opened Codec

  const NDIRECT: nat := 12
  const NINDIRECT: nat := 256        // BSIZE / sizeof(uint)
  const MAXFILE: nat := 268          // NDIRECT + NINDIRECT
  const MAXBYTES: nat := 274432      // MAXFILE * BSIZE
  const DINODE: nat := 64            // sizeof(struct dinode)
  const IPB: nat := 16               // BSIZE / sizeof(struct dinode)
  const BPB: nat := 8192             // BSIZE * 8

  type Disk = seq<Block>

  datatype SuperBlock = SuperBlock(
    size: uint32, nblocks: uint32, ninodes: uint32, nlog: uint32,
    logstart: uint32, inodestart: uint32, bmapstart: uint32)

  /** [ boot | super | log | inode blocks | bitmap | data ]; the data blocks are the last `nblocks`. */
  predicate WellLaidOut(sb: SuperBlock) {
    && 2 <= sb.inodestart
    && sb.inodestart + sb.ninodes / IPB + 1 <= sb.bmapstart
    && sb.nblocks <= sb.size
    && sb.bmapstart + sb.size / BPB + 1 <= DataStart(sb)
    && sb.size + BPB < 0x8000_0000     // block numbers are held in an int while scanning
  }

  function DataStart(sb: SuperBlock): int { sb.size - sb.nblocks }

  function IBLOCK(sb: SuperBlock, inum: nat): nat { inum / IPB + sb.inodestart }

  function BBLOCK(sb: SuperBlock, b: nat): nat { b / BPB + sb.bmapstart }

  // ---------------------------------------------------------------------------
  // The bitmap
  // ---------------------------------------------------------------------------

  /** The bit of block `b` in the free bitmap. */
  predicate Used(sb: SuperBlock, disk: Disk, b: nat)
    requires WellLaidOut(sb) && |disk| == sb.size && b < sb.size
  {
    Bit(disk[BBLOCK(sb, b)][b % BPB / 8], b % 8)
  }

  /** The disk after storing `v` in the bitmap byte of block `b`. */
  function BitmapStore(sb: SuperBlock, disk: Disk, b: nat, v: byte): (disk': Disk)
    requires WellLaidOut(sb) && |disk| == sb.size && b < sb.size
  {
    disk[BBLOCK(sb, b) := disk[BBLOCK(sb, b)][b % BPB / 8 := v]]
  }

  lemma BitmapSet(sb: SuperBlock, disk: Disk, b: nat, x: nat)
    requires WellLaidOut(sb) && |disk| == sb.size && b < sb.size && x < sb.size
    ensures var v := disk[BBLOCK(sb, b)][b % BPB / 8];
            Used(sb, BitmapStore(sb, disk, b, OrMask(v, b % 8)), x) <==> x == b || Used(sb, disk, x)
  {
    SameBit(b, x);
  }

  lemma BitmapClear(sb: SuperBlock, disk: Disk, b: nat, x: nat)
    requires WellLaidOut(sb) && |disk| == sb.size && b < sb.size && x < sb.size
    ensures var v := disk[BBLOCK(sb, b)][b % BPB / 8];
            Used(sb, BitmapStore(sb, disk, b, AndNotMask(v, b % 8)), x) <==> x != b && Used(sb, disk, x)
  {
    SameBit(b, x);
  }

  lemma BitPlace(a: nat)
    ensures a == 8192 * (a / BPB) + 8 * (a % BPB / 8) + a % 8
  {
    assert a % 8 == a % BPB % 8;
  }

  /** A block number is fixed by its bitmap block, byte and bit. */
  lemma SameBit(a: nat, b: nat)
    ensures a / BPB == b / BPB && a % BPB / 8 == b % BPB / 8 && a % 8 == b % 8 ==> a == b
  {
    BitPlace(a);
    BitPlace(b);
  }

  // ---------------------------------------------------------------------------
  // Inodes
  // ---------------------------------------------------------------------------

  datatype InodeRecord = Inode(
    kind: uint16, major: uint16, minor: uint16, nlink: uint16, size: uint32, addrs: seq<uint32>)

  function NoAddrs(): seq<uint32> { seq(NDIRECT + 1, _ => 0) }

  /** An inode has NDIRECT direct slots and one slot for the indirect block. */
  type Inode = i: InodeRecord | |i.addrs| == NDIRECT + 1 witness Inode(0, 0, 0, 0, 0, seq(NDIRECT + 1, _ => 0))

  /** An inode fills its 64 bytes: four shorts, the size, then the block numbers. */
  function EncodeInode(i: Inode): (s: seq<byte>)
    ensures |s| == DINODE
  {
    EncodeHead(i) + EncodeAddrs(i.addrs)
  }

  function EncodeHead(i: Inode): (s: seq<byte>)
    ensures |s| == 12
    ensures U16(s, 0) == i.kind && U16(s, 2) == i.major && U16(s, 4) == i.minor && U16(s, 6) == i.nlink
    ensures U32(s, 8) == i.size
  {
    Bytes16(i.kind) + Bytes16(i.major) + Bytes16(i.minor) + Bytes16(i.nlink) + Bytes32(i.size)
  }

  function EncodeAddrs(addrs: seq<uint32>): (s: seq<byte>)
    ensures |s| == 4 * |addrs|
    ensures forall k :: 0 <= k < |addrs| ==> U32(s, 4 * k) == addrs[k]
  {
    if addrs == [] then []
    else
      var init := EncodeAddrs(addrs[..|addrs| - 1]);
      init + Bytes32(addrs[|addrs| - 1])
  }

  function DecodeInode(s: seq<byte>): (i: Inode)
    requires |s| == DINODE
  {
    Inode(U16(s, 0), U16(s, 2), U16(s, 4), U16(s, 6), U32(s, 8),
          seq(NDIRECT + 1, k requires 0 <= k < NDIRECT + 1 => U32(s, 12 + 4 * k)))
  }

  /** Writing an inode and reading it back gives the same inode. */
  lemma InodeRoundTrip(i: Inode)
    ensures DecodeInode(EncodeInode(i)) == i
  {
    var h, t := EncodeHead(i), EncodeAddrs(i.addrs);
    var d := DecodeInode(h + t);
    forall k | 0 <= k < NDIRECT + 1
      ensures d.addrs[k] == i.addrs[k]
    {
      assert U32(h + t, 12 + 4 * k) == U32(t, 4 * k);
    }
  }

  /** Where an inode sits in its block. */
  function InodeOffset(inum: nat): (p: nat)
    ensures p + DINODE <= BSIZE
  {
    64 * (inum % 16)
  }

  /** The inode `inum` as the disk holds it. */
  function DiskInode(sb: SuperBlock, disk: Disk, inum: nat): (i: Inode)
    requires WellLaidOut(sb) && |disk| == sb.size && inum < sb.ninodes
  {
    InodeIn(disk[IBLOCK(sb, inum)], InodeOffset(inum))
  }

  function InodeIn(b: Block, p: nat): (i: Inode)
    requires p + DINODE <= BSIZE
  {
    DecodeInode(b[p..p + DINODE])
  }

  function PutInode(b: Block, p: nat, i: Inode): (b': Block)
    requires p + DINODE <= BSIZE
  {
    Splice(b, p, EncodeInode(i))
  }

  lemma InodePut(b: Block, p: nat, i: Inode, q: nat)
    requires p + DINODE <= BSIZE && q + DINODE <= BSIZE
    requires p == q || p + DINODE <= q || q + DINODE <= p
    ensures InodeIn(PutInode(b, p, i), q) == if p == q then i else InodeIn(b, q)
  {
    if p == q {
      InodeRoundTrip(i);
      assert PutInode(b, p, i)[q..q + DINODE] == EncodeInode(i);
    } else {
      assert PutInode(b, p, i)[q..q + DINODE] == b[q..q + DINODE];
    }
  }

  function StoreInode(sb: SuperBlock, disk: Disk, inum: nat, i: Inode): (disk': Disk)
    requires WellLaidOut(sb) && |disk| == sb.size && inum < sb.ninodes
  {
    disk[IBLOCK(sb, inum) := PutInode(disk[IBLOCK(sb, inum)], InodeOffset(inum), i)]
  }

  lemma InodeOffsetsApart(a: nat, b: nat)
    requires a / 16 == b / 16 && a != b
    ensures InodeOffset(a) + DINODE <= InodeOffset(b) || InodeOffset(b) + DINODE <= InodeOffset(a)
  {
    assert a % 16 != b % 16;
  }

  /** Storing one inode changes that inode and no other, though sixteen share a block. */
  lemma StoreInodeReads(sb: SuperBlock, disk: Disk, inum: nat, i: Inode, other: nat)
    requires WellLaidOut(sb) && |disk| == sb.size && inum < sb.ninodes && other < sb.ninodes
    ensures DiskInode(sb, StoreInode(sb, disk, inum, i), other)
            == if other == inum then i else DiskInode(sb, disk, other)
  {
    var bn := IBLOCK(sb, inum);
    if other != inum && IBLOCK(sb, other) == bn {
      InodeOffsetsApart(inum, other);
    }
    if IBLOCK(sb, other) == bn {
      InodePut(disk[bn], InodeOffset(inum), i, InodeOffset(other));
      assert StoreInode(sb, disk, inum, i)[bn] == PutInode(disk[bn], InodeOffset(inum), i);
    } else {
      assert StoreInode(sb, disk, inum, i)[IBLOCK(sb, other)] == disk[IBLOCK(sb, other)];
    }
  }

  // ---------------------------------------------------------------------------
  // The format byte by byte
  // ---------------------------------------------------------------------------

  /** The disk as one sequence of bytes. */
  function DiskByte(disk: Disk, a: nat): (x: byte)
    requires a / 1024 < |disk|
  {
    disk[a / 1024][a % 1024]
  }

  /** The integer with these bytes, the lowest first. */
  function LowFirst(a: int, b: int, c: int, d: int): (n: int) { a + 256 * b + 65536 * c + 16777216 * d }

  lemma WithinBlock(b: nat, q: nat)
    requires q < 1024
    ensures (1024 * b + q) / 1024 == b && (1024 * b + q) % 1024 == q
  {
  }

  /** The inodes follow one another, 64 bytes each, from the first inode block on. */
  lemma InodePlace(sb: SuperBlock, disk: Disk, inum: nat, q: nat)
    requires WellLaidOut(sb) && |disk| == sb.size && inum < sb.ninodes && q < 64
    ensures var a := 1024 * sb.inodestart + 64 * inum + q;
      a / 1024 < |disk| && DiskByte(disk, a) == disk[IBLOCK(sb, inum)][InodeOffset(inum) + q]
  {
    assert 64 * inum == 1024 * (inum / 16) + 64 * (inum % 16);
    WithinBlock(IBLOCK(sb, inum), InodeOffset(inum) + q);
  }

  /**
    type, major, minor and nlink are 16-bit and size and the thirteen block numbers 32-bit integers, in
    this order, low bytes first.
   */
  lemma InodeFormat(sb: SuperBlock, disk: Disk, inum: nat, k: nat)
    requires WellLaidOut(sb) && |disk| == sb.size && inum < sb.ninodes && k < 13
    ensures var i, b, p := DiskInode(sb, disk, inum), disk[IBLOCK(sb, inum)], InodeOffset(inum);
      && i.kind == LowFirst(b[p], b[p + 1], 0, 0) && i.major == LowFirst(b[p + 2], b[p + 3], 0, 0)
      && i.minor == LowFirst(b[p + 4], b[p + 5], 0, 0) && i.nlink == LowFirst(b[p + 6], b[p + 7], 0, 0)
      && i.size == LowFirst(b[p + 8], b[p + 9], b[p + 10], b[p + 11])
      && i.addrs[k] == LowFirst(b[p + 12 + 4 * k], b[p + 13 + 4 * k], b[p + 14 + 4 * k], b[p + 15 + 4 * k])
  {
  }

  /** Entry `j` of an indirect block is the 32-bit integer in its bytes 4j to 4j + 3, low bytes first. */
  lemma IndirectFormat(b: Block, j: nat)
    requires j < 256
    ensures Entry(b, j) == LowFirst(b[4 * j], b[4 * j + 1], b[4 * j + 2], b[4 * j + 3])
  {
  }

  const POWERS: seq<nat> := [1, 2, 4, 8, 16, 32, 64, 128]

  lemma {:induction false} BitPower(x: nat, k: nat)
    requires k < 8
    ensures Bit(x, k) <==> x / POWERS[k] % 2 == 1
    decreases k
  {
    if k > 0 {
      BitPower(x / 2, k - 1);
      HalfFirst(x, k);
    }
  }

  lemma HalfFirst(x: nat, k: nat)
    requires 0 < k < 8
    ensures x / 2 / POWERS[k - 1] == x / POWERS[k]
  {
    if k == 1 {
    } else if k == 2 {
      assert x / 2 / 2 == x / 4;
    } else if k == 3 {
      assert x / 2 / 4 == x / 8;
    } else if k == 4 {
      assert x / 2 / 8 == x / 16;
    } else if k == 5 {
      assert x / 2 / 16 == x / 32;
    } else if k == 6 {
      assert x / 2 / 32 == x / 64;
    } else {
      assert x / 2 / 64 == x / 128;
    }
  }

  /** The bits of the blocks follow one another, low bits first, from the first bitmap block on. */
  lemma BitmapFormat(sb: SuperBlock, disk: Disk, b: nat)
    requires WellLaidOut(sb) && |disk| == sb.size && b < sb.size
    ensures var a := 1024 * sb.bmapstart + b / 8;
      a / 1024 < |disk| && (Used(sb, disk, b) <==> DiskByte(disk, a) / POWERS[b % 8] % 2 == 1)
  {
    assert b / 8 == 1024 * (b / 8192) + b % 8192 / 8;
    WithinBlock(BBLOCK(sb, b), b % 8192 / 8);
    BitPower(disk[BBLOCK(sb, b)][b % BPB / 8], b % 8);
  }

  // ---------------------------------------------------------------------------
  // Block slots and file contents
  // ---------------------------------------------------------------------------

  /** Slots of an inode: 0..11 direct, 12 the indirect block, 13..268 entries of the indirect block. */
  const NSLOT: nat := 269             // MAXFILE + 1

  /** The slot of the `bn`-th data block of a file. */
  function DataSlot(bn: nat): nat { if bn < NDIRECT then bn else bn + 1 }

  /** The block a slot names, or 0. */
  function Addr(disk: Disk, i: Inode, k: nat): (a: uint32)
    requires k < NSLOT
  {
    if k <= NDIRECT then i.addrs[k]
    else if 0 < i.addrs[NDIRECT] < |disk| then Entry(disk[i.addrs[NDIRECT]], k - NDIRECT - 1)
    else 0
  }

  /** The byte at a position of a file; a slot without a block stands for zeroes. */
  function FileByte(disk: Disk, i: Inode, pos: nat): (x: byte)
    requires pos < MAXBYTES
  {
    var a := Addr(disk, i, DataSlot(pos / BSIZE));
    if 0 < a < |disk| then disk[a][pos % BSIZE] else 0
  }

  /** The contents of a file: the byte sequence a reader sees. */
  function Content(disk: Disk, i: Inode): (s: seq<byte>)
    requires i.size <= MAXBYTES
    ensures |s| == i.size
  {
    seq(i.size, p requires 0 <= p < i.size => FileByte(disk, i, p))
  }
}
