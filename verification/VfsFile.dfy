/**
  Open files of `kernel/fs/vfs.c`: fileread, and filewrite, which cuts a long write
  into chunks of three blocks.  Device files are not part of this model.
 */
module VfsFile {
  import opened Codec
  import opened FsLayout
  import opened FsOwnership
  import opened Fs

  datatype FileType = FD_NONE | FD_PIPE | FD_INODE

  /** ((MAXOPBLOCKS - 1 - 1 - 2) / 2) * BSIZE */
  const CHUNK: nat := 3072

  /** An `int` argument received as a `uint`. */
  function AsUint(n: int): (u: uint32)
    requires -0x8000_0000 <= n < 0x8000_0000
  {
    if n < 0 then n + 0x1_0000_0000 else n
  }

  class File {
    var typ: FileType
    var off: int
    var readable: bool
    var writable: bool
    var inum: nat

    /** The offset is an int that never leaves the range of file positions. */
    ghost predicate Valid(fs: Xv6fs)
      reads this, fs
    {
      fs.Valid() && inum < |fs.inodes| && 0 <= off <= MAXBYTES
    }

    /**
      Read up to `n` bytes at the file offset, and advance it by what was read.  No file changes; a
      hole may be given a block, and a read falls short of the file's contents only if the disk is
      then full.
     */
    method Read(fs: Xv6fs, n: int, room: nat) returns (r: int, out: seq<byte>)
      requires Valid(fs) && -0x8000_0000 <= n < 0x8000_0000
      modifies this, fs
      ensures Valid(fs) && SameFiles(old(fs.disk), old(fs.inodes), fs.disk, fs.inodes)
      ensures typ == old(typ) && readable == old(readable) && writable == old(writable) && inum == old(inum)
      ensures !readable ==> r == -1 && out == []
      ensures readable && typ != FD_INODE ==> r == 0 && out == []
      ensures readable && typ == FD_INODE ==>
                var all := ReadRange(old(Content(fs.disk, fs.inodes[inum])), old(off), AsUint(n));
                if r == -1 then |all| > room
                else r == |out| <= room && (out == all || (out <= all && DiskFull(fs.sb, fs.disk)))
      ensures old(NoHoles(fs.disk, fs.inodes[inum])) ==>
                && fs.disk == old(fs.disk) && fs.inodes == old(fs.inodes)
                && (readable && typ == FD_INODE && r != -1 ==>
                    out == ReadRange(Content(fs.disk, fs.inodes[inum]), old(off), AsUint(n)))
      ensures off == old(off) + Max(r, 0)
    {
      hide Owned, NoHoles, SameFiles, Content, MarkedBelow;
      SameFilesRefl(fs.disk, fs.inodes);
      r, out := 0, [];
      if !readable {
        return -1, out;
      }
      if typ == FD_INODE {
        r, out := fs.Readi(inum, off, AsUint(n), room);
        if r > 0 {
          off := off + r;
        }
      }
    }

    /**
      Write `data` at the file offset, in chunks.  When it returns the full count, the effect is
      that of one `writei` of all of `data` at the old offset; otherwise a prefix has been written.
     */
    method Write(fs: Xv6fs, data: seq<byte>, n: int) returns (ret: int)
      requires Valid(fs) && -0x8000_0000 <= n < 0x8000_0000 && |data| == Max(n, 0)
      modifies this, fs
      ensures Valid(fs) && |fs.inodes| == |old(fs.inodes)|
      ensures typ == old(typ) && readable == old(readable) && writable == old(writable) && inum == old(inum)
      ensures !writable || typ != FD_INODE ==>
                ret == (if !writable then -1 else 0) && off == old(off) && fs.disk == old(fs.disk) &&
                    fs.inodes == old(fs.inodes)
      ensures writable && typ == FD_INODE ==>
                && 0 <= off - old(off) <= |data|
                && ret == (if off - old(off) == n then n else -1)
                && (old(off) <= old(fs.inodes[inum].size) ==>
                      Content(fs.disk, fs.inodes[inum])
                      == Splice(old(Content(fs.disk, fs.inodes[inum])), old(off), data[..off - old(off)]))
                && (old(off) > old(fs.inodes[inum].size) ==>
                    off == old(off) && fs.inodes == old(fs.inodes) && fs.disk == old(fs.disk))
                && (off - old(off) < |data| ==>
                      old(off) > old(fs.inodes[inum].size) || old(off) + |data| > MAXBYTES || DiskFull(fs.sb, fs.disk))
      ensures typ == FD_INODE && old(NoHoles(fs.disk, fs.inodes[inum])) ==> NoHoles(fs.disk, fs.inodes[inum])
      ensures forall i :: 0 <= i < |fs.inodes| && i != inum ==>
                fs.inodes[i] == old(fs.inodes)[i] &&
                    Content(fs.disk, fs.inodes[i]) == Content(old(fs.disk), fs.inodes[i])
    {
      hide Splice, Content, Owned, DiskFull, NoHoles;
      ret := 0;
      if !writable {
        return -1;
      }
      if typ == FD_INODE {
        ghost var c := Content(fs.disk, fs.inodes[inum]);
        var i := 0;
        SpliceNothing(c, off);
        assert data[..0] == [];
        while i < n
          invariant 0 <= i <= |data| && off == old(off) + i
          invariant Valid(fs) && |fs.inodes| == |old(fs.inodes)|
          invariant typ == old(typ) && readable == old(readable) && writable == old(writable) && inum == old(inum)
          invariant old(off) <= |c| ==> Content(fs.disk, fs.inodes[inum]) == Splice(c, old(off), data[..i])
          invariant old(off) <= |c| ==> off <= fs.inodes[inum].size
          invariant old(NoHoles(fs.disk, fs.inodes[inum])) ==> NoHoles(fs.disk, fs.inodes[inum])
          invariant old(off) > |c| ==> i == 0 && fs.inodes == old(fs.inodes) && fs.disk == old(fs.disk)
          invariant forall j :: 0 <= j < |fs.inodes| && j != inum ==>
                      fs.inodes[j] == old(fs.inodes)[j] &&
                          Content(fs.disk, fs.inodes[j]) == Content(old(fs.disk), fs.inodes[j])
        {
          var n1 := n - i;
          if n1 > CHUNK {
            n1 := CHUNK;
          }
          var r := fs.Writei(inum, data[i..i + n1], off);
          if r > 0 {
            off := off + r;
          }
          if r != -1 {
            WriteMore(c, old(off), data, i, r, n1);
          }
          if r != n1 {
            break;
          }
          i := i + r;
        }
        ret := if i == n then n else -1;
      }
    }
  }

  lemma SpliceNothing(c: seq<byte>, off: nat)
    ensures off <= |c| ==> Splice(c, off, []) == c
  {
  }

  /** A chunk written after a prefix extends the prefix. */
  lemma WriteMore(c: seq<byte>, off: nat, data: seq<byte>, i: nat, r: nat, n1: nat)
    requires i + n1 <= |data| && r <= n1
    ensures off <= |c| ==>
              var c1 := Splice(c, off, data[..i]);
              && off + i <= |c1|
              && Splice(c1, off + i, data[i..i + n1][..r]) == Splice(c, off, data[..i + r])
              && off + i + r <= |Splice(c1, off + i, data[i..i + n1][..r])|
  {
    if off <= |c| {
      assert data[i..i + n1][..r] == data[i..i + r];
      assert data[..i] + data[i..i + r] == data[..i + r];
      SpliceTwice(c, off, data[..i], data[i..i + r]);
    }
  }

  /** What was written is what is read back. */
  lemma WriteThenRead(c: seq<byte>, off: uint32, data: seq<byte>)
    requires off <= |c| && off + |data| < 0x1_0000_0000
    ensures ReadRange(Splice(c, off, data), off, |data|) == data
  {
  }
}
