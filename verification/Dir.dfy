/**
  Directories of `kernel/fs/xv6fs/fs.c`: a directory is a file of 16-byte entries.
  It behaves as a finite map from names of at most 14 bytes to inode numbers.
 */
module Dir {
  import opened Codec
  import opened FsLayout
  import opened FsOwnership
  import opened FsSpace
  import opened Fs

  const DIRSIZ: nat := 14
  const DENTRY: nat := 16          // sizeof(struct xv6fs_dentry)
  const T_DIR: uint16 := 1

  // ---------------------------------------------------------------------------
  // Names
  // ---------------------------------------------------------------------------

  /** A name as a directory stores it: 14 bytes, padded with NULs. */
  type Name = n: seq<byte> | |n| == DIRSIZ witness seq(DIRSIZ, _ => 0)

  const NO_NAME: Name := [0, 0, 0, 0, 0, 0, 0, 0, 0, 0, 0, 0, 0, 0]

  /** A `char *` of which the first 14 bytes, or those up to a NUL, can be read. */
  predicate Readable(s: seq<byte>) {
    |s| >= DIRSIZ || 0 in s
  }

  /** The name a `char *` stands for: cut at the first NUL or at 14 bytes, then padded. */
  ghost function NameOf(s: seq<byte>): (n: Name) {
    seq(DIRSIZ, k => if 0 <= k < |s| && 0 !in s[..k + 1] then s[k] else 0)
  }

  lemma NameAt(s: seq<byte>, i: nat)
    requires i < |s| && i < DIRSIZ && 0 !in s[..i]
    ensures NameOf(s)[i] == s[i]
    ensures s[i] == 0 ==> forall k :: i <= k < DIRSIZ ==> NameOf(s)[k] == 0
  {
    assert s[..i + 1] == s[..i] + [s[i]];
    if s[i] == 0 {
      forall k | i <= k < DIRSIZ
        ensures NameOf(s)[k] == 0
      {
        if k < |s| {
          assert s[..k + 1][i] == 0;
        }
      }
    }
  }

  lemma NameOfName(n: seq<byte>)
    ensures NameOf(NameOf(n)) == NameOf(n)
  {
    var m := NameOf(n);
    forall k | 0 <= k < DIRSIZ
      ensures NameOf(m)[k] == m[k]
    {
      if k < |n| && 0 !in n[..k + 1] {
        forall j | 0 <= j <= k
          ensures m[j] == n[j] && m[j] != 0
        {
          assert n[..j + 1] <= n[..k + 1];
          assert n[..k + 1][j] == n[j];
        }
      }
    }
  }

  /** strncmp(p, q, DIRSIZ) is zero exactly when both stand for the same name. */
  method Strncmp(p: seq<byte>, q: seq<byte>) returns (r: int)
    requires Readable(p) && Readable(q)
    ensures r == 0 <==> NameOf(p) == NameOf(q)
  {
    var n, i := DIRSIZ, 0;
    while n > 0 && p[i] != 0 && p[i] == q[i]
      invariant 0 <= i == DIRSIZ - n
      invariant i <= |p| && i <= |q| && p[..i] == q[..i] && 0 !in p[..i]
      invariant forall k :: 0 <= k < i ==> NameOf(p)[k] == p[k] && NameOf(q)[k] == q[k]
      invariant i < DIRSIZ ==> i < |p| && i < |q|
    {
      NameAt(p, i);
      NameAt(q, i);
      assert p[..i + 1] == p[..i] + [p[i]] && q[..i + 1] == q[..i] + [q[i]];
      n, i := n - 1, i + 1;
      StillReadable(p, i);
      StillReadable(q, i);
    }
    if n == 0 {
      assert forall k :: 0 <= k < DIRSIZ ==> p[..i][k] == q[..i][k];
      return 0;
    }
    NameAt(p, i);
    NameAt(q, i);
    if p[i] == q[i] {
      assert forall k :: 0 <= k < i ==> p[..i][k] == q[..i][k];
    }
    return (p[i] as int) - (q[i] as int);
  }

  lemma StillReadable(s: seq<byte>, i: nat)
    requires Readable(s) && i <= |s| && 0 !in s[..i]
    ensures i < DIRSIZ ==> i < |s|
  {
    if i == |s| {
      assert s[..i] == s;
    }
  }

  /** strncpy(dst, t, DIRSIZ) stores the name that `t` stands for. */
  method Strncpy(t: seq<byte>) returns (dst: seq<byte>)
    requires Readable(t)
    ensures dst == NameOf(t)
  {
    dst := [];
    var n := DIRSIZ;
    while n > 0
      invariant 0 <= n <= DIRSIZ && |dst| == DIRSIZ - n <= |t|
      invariant dst == t[..|dst|] && 0 !in dst
      invariant forall k :: 0 <= k < |dst| ==> NameOf(t)[k] == dst[k]
    {
      var i := |dst|;
      StillReadable(t, i);
      NameAt(t, i);
      n := n - 1;
      dst := dst + [t[i]];
      if t[i] == 0 {
        break;
      }
    }
    while n > 0
      invariant 0 <= n <= DIRSIZ && |dst| == DIRSIZ - n
      invariant n > 0 ==> forall k :: |dst| <= k < DIRSIZ ==> NameOf(t)[k] == 0
      invariant forall k :: 0 <= k < |dst| ==> NameOf(t)[k] == dst[k]
    {
      n := n - 1;
      dst := dst + [0];
    }
  }

  // ---------------------------------------------------------------------------
  // Directory contents as a finite map
  // ---------------------------------------------------------------------------

  predicate Entries(c: seq<byte>) { |c| % 16 == 0 }

  function NSlots(c: seq<byte>): (n: nat) { |c| / 16 }

  function SlotInum(c: seq<byte>, s: nat): (i: uint16)
    requires s < NSlots(c)
  {
    U16(c, 16 * s)
  }

  ghost function SlotName(c: seq<byte>, s: nat): (n: Name)
    requires s < NSlots(c)
  {
    NameOf(c[16 * s + 2..16 * s + 16])
  }

  predicate Live(c: seq<byte>, s: nat)
    requires s < NSlots(c)
  {
    SlotInum(c, s) != 0
  }

  ghost predicate UniqueNames(c: seq<byte>) {
    forall s, t :: 0 <= s < t < NSlots(c) && Live(c, s) && Live(c, t) ==> SlotName(c, s) != SlotName(c, t)
  }

  ghost predicate IsDirectory(c: seq<byte>) {
    Entries(c) && UniqueNames(c)
  }

  /** The map a directory stands for. */
  ghost function Bindings(c: seq<byte>): (m: map<Name, uint16>)
    requires UniqueNames(c)
  {
    map s | 0 <= s < NSlots(c) && Live(c, s) :: SlotName(c, s) := SlotInum(c, s)
  }

  lemma BindingOf(c: seq<byte>, s: nat)
    requires UniqueNames(c) && s < NSlots(c) && Live(c, s)
    ensures SlotName(c, s) in Bindings(c) && Bindings(c)[SlotName(c, s)] == SlotInum(c, s)
  {
  }

  lemma SlotOf(c: seq<byte>, n: Name) returns (s: nat)
    requires UniqueNames(c) && n in Bindings(c)
    ensures s < NSlots(c) && Live(c, s) && SlotName(c, s) == n && Bindings(c)[n] == SlotInum(c, s)
  {
    s :| 0 <= s < NSlots(c) && Live(c, s) && SlotName(c, s) == n;
  }

  function DirEntry(inum: uint16, name: Name): (e: seq<byte>)
    ensures |e| == DENTRY
  {
    Bytes16(inum) + name
  }

  /** An entry is a 16-bit inode number, low byte first, and 14 bytes of name. */
  lemma EntryFormat(inum: uint16, name: Name, k: nat)
    requires k < DIRSIZ
    ensures var e := DirEntry(inum, name); LowFirst(e[0], e[1], 0, 0) == inum && e[2 + k] == name[k]
  {
  }

  lemma SlotFormat(c: seq<byte>, s: nat, k: nat)
    requires s < NSlots(c) && k < DIRSIZ && 0 !in c[16 * s + 2..16 * s + 2 + k + 1]
    ensures SlotInum(c, s) == LowFirst(c[16 * s], c[16 * s + 1], 0, 0) && SlotName(c, s)[k] == c[16 * s + 2 + k]
  {
    var n := c[16 * s + 2..16 * s + 16];
    assert n[..k + 1] == c[16 * s + 2..16 * s + 2 + k + 1];
  }

  /** Storing an entry in slot `s`, or just behind the last slot, changes that slot only. */
  lemma SlotStored(c: seq<byte>, s: nat, inum: uint16, name: Name, t: nat)
    requires Entries(c) && s <= NSlots(c)
    ensures var c' := Splice(c, 16 * s, DirEntry(inum, name));
            && Entries(c') && NSlots(c') == Max(NSlots(c), s + 1)
            && (t < NSlots(c') ==>
                  if t == s then SlotInum(c', t) == inum && SlotName(c', t) == NameOf(name)
                  else t < NSlots(c) && SlotInum(c', t) == SlotInum(c, t) && SlotName(c', t) == SlotName(c, t))
  {
    var e := DirEntry(inum, name);
    var c' := Splice(c, 16 * s, e);
    if t < NSlots(c') {
      if t == s {
        assert c'[16 * s + 2..16 * s + 16] == name;
      } else {
        assert c'[16 * t + 2..16 * t + 16] == c[16 * t + 2..16 * t + 16];
      }
    }
  }

  /** `s` is the first slot that is not in use. */
  predicate FirstFree(c: seq<byte>, s: nat) {
    s < NSlots(c) && !Live(c, s) && forall t :: 0 <= t < s ==> Live(c, t)
  }

  /** Slot `s` has been filled, and every other slot is as it was. */
  ghost predicate OneSlot(c: seq<byte>, c': seq<byte>, s: nat, inum: uint16, name: Name) {
    && s < NSlots(c') && SlotInum(c', s) == inum && SlotName(c', s) == name
    && forall t :: 0 <= t < NSlots(c) && t != s ==>
         t < NSlots(c') && SlotInum(c', t) == SlotInum(c, t) && SlotName(c', t) == SlotName(c, t)
  }

  /** Filling a free slot adds exactly one binding (none if the stored inode number is zero). */
  lemma Bind(c: seq<byte>, s: nat, inum: uint16, name: Name)
    requires IsDirectory(c) && s <= NSlots(c) && (s < NSlots(c) ==> !Live(c, s))
    requires NameOf(name) !in Bindings(c)
    ensures var c' := Splice(c, 16 * s, DirEntry(inum, name));
            && IsDirectory(c')
            && Bindings(c') == if inum == 0 then Bindings(c) else Bindings(c)[NameOf(name) := inum]
  {
    hide NameOf, SlotName, SlotInum, Splice, DirEntry;
    var c' := Splice(c, 16 * s, DirEntry(inum, name));
    forall t | 0 <= t < NSlots(c')
      ensures if t == s then SlotInum(c', t) == inum && SlotName(c', t) == NameOf(name)
              else t < NSlots(c) && SlotInum(c', t) == SlotInum(c, t) && SlotName(c', t) == SlotName(c, t)
    {
      SlotStored(c, s, inum, name, t);
    }
    SlotStored(c, s, inum, name, s);
    BindSlots(c, s, inum, NameOf(name), c');
  }

  /** The same, told of the slots alone. */
  lemma BindSlots(c: seq<byte>, s: nat, inum: uint16, name: Name, c': seq<byte>)
    requires UniqueNames(c) && s <= NSlots(c) && (s < NSlots(c) ==> !Live(c, s)) && name !in Bindings(c)
    requires NSlots(c') == Max(NSlots(c), s + 1)
    requires forall t :: 0 <= t < NSlots(c') ==>
               if t == s then SlotInum(c', t) == inum && SlotName(c', t) == name
               else t < NSlots(c) && SlotInum(c', t) == SlotInum(c, t) && SlotName(c', t) == SlotName(c, t)
    ensures UniqueNames(c')
    ensures Bindings(c') == if inum == 0 then Bindings(c) else Bindings(c)[name := inum]
  {
    hide NameOf, SlotName, SlotInum, Bindings;
    forall t | 0 <= t < NSlots(c) && Live(c, t)
      ensures SlotName(c, t) != name
    {
      BindingOf(c, t);
    }
    assert UniqueNames(c');
    var b, b' := Bindings(c), Bindings(c');
    forall n | n in b'
      ensures if n == name && inum != 0 then b'[n] == inum else n in b && b'[n] == b[n]
    {
      var t := SlotOf(c', n);
      if t != s {
        BindingOf(c, t);
      }
    }
    forall n | n in b
      ensures n in b'
    {
      var t := SlotOf(c, n);
      BindingOf(c', t);
    }
    if inum != 0 {
      BindingOf(c', s);
    }
  }

  /** Zeroing a live slot removes exactly its binding. */
  lemma Unbind(c: seq<byte>, s: nat)
    requires IsDirectory(c) && s < NSlots(c) && Live(c, s)
    ensures var c' := Splice(c, 16 * s, seq(DENTRY, _ => 0));
            && IsDirectory(c')
            && Bindings(c') == Bindings(c) - {SlotName(c, s)}
  {
    var zero: Name := seq(DIRSIZ, _ => 0);
    assert seq(DENTRY, _ => 0) == DirEntry(0, zero);
    UnbindSlots(c, s, zero);
  }

  lemma UnbindSlots(c: seq<byte>, s: nat, zero: Name)
    requires IsDirectory(c) && s < NSlots(c) && Live(c, s)
    ensures var c' := Splice(c, 16 * s, DirEntry(0, zero));
            IsDirectory(c') && Bindings(c') == Bindings(c) - {SlotName(c, s)}
  {
    hide NameOf, SlotName, SlotInum, Splice, DirEntry, Bindings;
    var c' := Splice(c, 16 * s, DirEntry(0, zero));
    forall t | 0 <= t < NSlots(c')
      ensures if t == s then SlotInum(c', t) == 0
              else t < NSlots(c) && SlotInum(c', t) == SlotInum(c, t) && SlotName(c', t) == SlotName(c, t)
    {
      SlotStored(c, s, 0, zero, t);
    }
    SlotStored(c, s, 0, zero, s);
    UnbindSlot(c, s, c');
  }

  lemma UnbindSlot(c: seq<byte>, s: nat, c': seq<byte>)
    requires UniqueNames(c) && s < NSlots(c) && Live(c, s) && NSlots(c') == NSlots(c) && !Live(c', s)
    requires forall t :: 0 <= t < NSlots(c) && t != s ==>
            SlotInum(c', t) == SlotInum(c, t) && SlotName(c', t) == SlotName(c, t)
    ensures UniqueNames(c') && Bindings(c') == Bindings(c) - {SlotName(c, s)}
  {
    hide NameOf, SlotName, SlotInum, Bindings;
    assert UniqueNames(c');
    var b, b' := Bindings(c), Bindings(c');
    forall n | n in b'
      ensures n in b && b'[n] == b[n] && n != SlotName(c, s)
    {
      var t := SlotOf(c', n);
      BindingOf(c, t);
    }
    forall n | n in b && n != SlotName(c, s)
      ensures n in b'
    {
      var t := SlotOf(c, n);
      BindingOf(c', t);
    }
  }

  // ---------------------------------------------------------------------------
  // Directory operations
  // ---------------------------------------------------------------------------

  ghost predicate DirReady(fs: Xv6fs, dp: nat)
    reads fs
  {
    && fs.Valid() && dp < |fs.inodes| && fs.inodes[dp].kind == T_DIR
    && IsDirectory(Content(fs.disk, fs.inodes[dp]))
  }

  ghost function DirContent(fs: Xv6fs, dp: nat): seq<byte>
    reads fs
    requires fs.Valid() && dp < |fs.inodes|
  {
    Content(fs.disk, fs.inodes[dp])
  }

  twostate predicate Untouched(fs: Xv6fs)
    reads fs
  {
    fs.disk == old(fs.disk) && fs.inodes == old(fs.inodes) && fs.owner == old(fs.owner)
  }

  /** Holes of file `dp` may have been filled; no file has changed. */
  twostate predicate OnlyRead(fs: Xv6fs, dp: nat)
    reads fs
    requires dp < |old(fs.inodes)|
  {
    ReadOnly(old(fs.disk), old(fs.inodes), old(fs.owner), fs.disk, fs.inodes, fs.owner, dp)
  }

  ghost predicate ReadOnly(d0: Disk, n0: seq<Inode>, o0: map<nat, Slot>, d: Disk, n: seq<Inode>, o: map<nat, Slot>,
                           dp: nat)
    requires dp < |n0|
  {
    SameFiles(d0, n0, d, n) && OnlyAddrs(n0, n, dp) && OwnersGrow(o0, o) && OtherFilesKept(d0, n0, d, n, dp)
  }

  lemma ReadOnlyRefl(d: Disk, n: seq<Inode>, o: map<nat, Slot>, dp: nat)
    requires dp < |n|
    ensures ReadOnly(d, n, o, d, n, o, dp)
  {
  }

  lemma ReadOnlyTrans(d0: Disk, n0: seq<Inode>, o0: map<nat, Slot>, d1: Disk, n1: seq<Inode>, o1: map<nat, Slot>,
                      d2: Disk, n2: seq<Inode>, o2: map<nat, Slot>, dp: nat)
    requires dp < |n0| && ReadOnly(d0, n0, o0, d1, n1, o1, dp) && ReadOnly(d1, n1, o1, d2, n2, o2, dp)
    ensures ReadOnly(d0, n0, o0, d2, n2, o2, dp)
  {
    hide SameFiles, OwnersGrow, OtherFilesKept;
    SameFilesTrans(d0, n0, d1, n1, d2, n2);
    OwnersGrowTrans(o0, o1, o2);
    OtherFilesTrans(d0, n0, d1, n1, d2, n2, dp);
  }

  /** Every other file, and its inode, is as before. */
  twostate predicate OthersUntouched(fs: Xv6fs, dp: nat)
    reads fs
    requires old(fs.Valid()) && fs.Valid()
  {
    && |fs.inodes| == |old(fs.inodes)|
    && forall i :: 0 <= i < |fs.inodes| && i != dp ==>
         fs.inodes[i] == old(fs.inodes)[i] && Content(fs.disk, fs.inodes[i]) == Content(old(fs.disk), fs.inodes[i])
  }

  /** Reading leaves every file what it was. */
  lemma ReadKeeps(d0: Disk, n0: seq<Inode>, o0: map<nat, Slot>, d: Disk, n: seq<Inode>, o: map<nat, Slot>, dp: nat)
    requires dp < |n0| && ReadOnly(d0, n0, o0, d, n, o, dp) && SizesFit(n0)
    ensures |n| == |n0| && SizesFit(n)
    ensures forall i :: 0 <= i < |n0| ==> SameButAddrs(n0[i], n[i]) && (i != dp ==> n[i] == n0[i])
    ensures forall i :: 0 <= i < |n0| ==> Content(d, n[i]) == Content(d0, n0[i])
  {
    hide SameFiles, Content, OwnersGrow, OtherFilesKept;
    forall i | 0 <= i < |n0| ensures Content(d, n[i]) == Content(d0, n0[i]) {
      SameContent(d0, n0, d, n, i);
    }
  }

  // ---------------------------------------------------------------------------
  // How far a scan of a directory goes
  // ---------------------------------------------------------------------------

  /** How many slots dirlookup reads from slot `s` on: up to the first that holds the name, or all. */
  ghost function Scanned(c: seq<byte>, s: nat, name: Name): (n: nat)
    ensures s <= NSlots(c) ==> s <= n <= NSlots(c)
    ensures s < NSlots(c) ==> s < n
    decreases NSlots(c) - s
  {
    if s >= NSlots(c) then s
    else if Live(c, s) && SlotName(c, s) == name then s + 1
    else Scanned(c, s + 1, name)
  }

  /** The same for a scan that stops at the first slot in use. */
  ghost function Emptied(c: seq<byte>, s: nat): (n: nat)
    ensures s <= NSlots(c) ==> s <= n <= NSlots(c)
    ensures s < NSlots(c) ==> s < n
    decreases NSlots(c) - s
  {
    if s >= NSlots(c) then s else if Live(c, s) then s + 1 else Emptied(c, s + 1)
  }

  /** The data blocks that hold the first `n` slots. */
  function SlotBlocks(n: nat): (b: nat) { (n + 63) / 64 }

  lemma BlocksAt(s: nat)
    ensures SlotBlocks(0) == 0 && (SlotBlocks(s) == s / 64 || SlotBlocks(s) == s / 64 + 1) &&
            SlotBlocks(s + 1) == s / 64 + 1
  {
  }

  /** There are too few free blocks for the holes among the first `n` slots of the directory. */
  ghost predicate OutOfSpace(fs: Xv6fs, dp: nat, n: nat)
    reads fs
    requires DirReady(fs, dp) && n <= NSlots(DirContent(fs, dp))
  {
    FitsFile(fs.inodes[dp].size, n);
    FreeBlocks(fs.sb, fs.disk) < Missing(fs.disk, fs.inodes[dp], 0, SlotBlocks(n))
  }

  lemma OutIs(fs: Xv6fs, dp: nat, n: nat)
    requires DirReady(fs, dp) && n <= NSlots(DirContent(fs, dp))
    ensures SlotBlocks(n) <= MAXFILE && WellLaidOut(fs.sb) && |fs.disk| == fs.sb.size
    ensures OutOfSpace(fs, dp, n) <==> FreeBlocks(fs.sb, fs.disk) < Missing(fs.disk, fs.inodes[dp], 0, SlotBlocks(n))
  {
    hide Owned, UniqueNames, Content, FreeBlocks, Missing;
    OwnedShape(fs.sb, fs.disk, fs.inodes, fs.owner, {});
    FitsFile(fs.inodes[dp].size, n);
  }

  lemma ScannedNext(c: seq<byte>, s: nat, name: Name)
    ensures Scanned(c, s, name) ==
            if s >= NSlots(c) then s else if Live(c, s) && SlotName(c, s) == name then s + 1
                else Scanned(c, s + 1, name)
  {
    hide SlotName;
  }

  lemma FitsFile(size: nat, n: nat)
    requires size <= MAXBYTES && n <= size / 16
    ensures SlotBlocks(n) <= MAXFILE
  {
  }

  lemma SolidNeedsNothing(disk: Disk, i: Inode, n: nat)
    requires i.size <= MAXBYTES && n <= i.size / 16
    ensures SlotBlocks(n) <= MAXFILE && (NoHoles(disk, i) ==> Missing(disk, i, 0, SlotBlocks(n)) == 0)
  {
    FitsFile(i.size, n);
    if NoHoles(disk, i) {
      forall bn | 0 <= bn < SlotBlocks(n) ensures Addr(disk, i, DataSlot(bn)) != 0 {
        assert bn * 1024 < i.size;
      }
      NoHolesNoNeed(disk, i, 0, SlotBlocks(n));
    }
  }

  lemma PresentSlot(disk: Disk, i: Inode, s: nat)
    requires Present(disk, i, 0, SlotBlocks(s + 1)) && s / 64 < MAXFILE
    ensures 16 * s / BSIZE == s / 64 && Addr(disk, i, DataSlot(s / 64)) != 0
  {
  }

  lemma PresentAll(disk: Disk, i: Inode)
    requires i.size <= MAXBYTES && i.size % 16 == 0 && Present(disk, i, 0, SlotBlocks(i.size / 16))
    ensures NoHoles(disk, i)
  {
    forall bn | 0 <= bn < MAXFILE && bn * 1024 < i.size ensures Addr(disk, i, DataSlot(bn)) != 0 {
      assert bn < SlotBlocks(i.size / 16);
    }
  }

  /**
    Read the entry of slot `s`.  The read comes up short, and the caller panics, if and only if the
    slot lies in a hole and there is no block to fill it.
   */
  method ReadEntry(fs: Xv6fs, dp: nat, s: nat) returns (panics: bool, inum: uint16, name: Name)
    requires DirReady(fs, dp) && s < NSlots(DirContent(fs, dp))
    modifies fs
    ensures DirReady(fs, dp) && OnlyRead(fs, dp) && DirContent(fs, dp) == old(DirContent(fs, dp))
    ensures s / 64 < MAXFILE && (panics <==> old(FreeBlocks(fs.sb, fs.disk) < Need(fs.disk, fs.inodes[dp], s / 64)))
    ensures panics ==> DiskFull(fs.sb, fs.disk)
    ensures !panics ==> inum == SlotInum(DirContent(fs, dp), s) && NameOf(name) == SlotName(DirContent(fs, dp), s)
    ensures !panics ==> Budget(fs.sb, old(fs.disk), old(fs.inodes)[dp], fs.disk, fs.inodes[dp], s / 64, s / 64 + 1)
    ensures !panics ==> Addr(fs.disk, fs.inodes[dp], DataSlot(s / 64)) != 0
    ensures old(Addr(fs.disk, fs.inodes[dp], DataSlot(s / 64))) != 0 ==> Untouched(fs)
    ensures old(NoHoles(fs.disk, fs.inodes[dp])) ==> Untouched(fs)
  {
    hide Owned, NoHoles, Content, UniqueNames, NameOf, SlotName, SlotInum, SameFiles, OwnersGrow, OtherFilesKept;
    hide Budget, FreeBlocks, MarkedBelow, Missing, Need, EndBlock, Addr;
    EntryBlock(fs.inodes[dp].size, s);
    OwnedShape(fs.sb, fs.disk, fs.inodes, fs.owner, {});
    OneBlock(fs.disk, fs.inodes[dp], s / 64);
    ghost var c, d0, n0, o0 := DirContent(fs, dp), fs.disk, fs.inodes, fs.owner;
    var r, out := fs.Readi(dp, 16 * s, DENTRY, DENTRY);
    OwnedShape(fs.sb, fs.disk, fs.inodes, fs.owner, {});
    ReadKeeps(d0, n0, o0, fs.disk, fs.inodes, fs.owner, dp);
    assert ReadRange(c, 16 * s, DENTRY) == c[16 * s..16 * s + 16];
    if r != DENTRY {
      return true, 0, NO_NAME;
    }
    EntryIs(c, s, out);
    return false, U16(out, 0), out[2..];
  }

  lemma EntryIs(c: seq<byte>, s: nat, out: seq<byte>)
    requires s < NSlots(c) && out == c[16 * s..16 * s + 16]
    ensures U16(out, 0) == SlotInum(c, s) && NameOf(out[2..]) == SlotName(c, s)
  {
    hide NameOf;
    assert out[2..] == c[16 * s + 2..16 * s + 16];
  }

  /** An entry lies within one block. */
  lemma EntryBlock(size: nat, s: nat)
    requires size <= MAXBYTES && s < size / 16
    ensures 16 * s / BSIZE == s / 64 < MAXFILE && EndBlock(16 * s, 16) == s / 64 + 1
  {
  }

  lemma OneBlock(disk: Disk, i: Inode, bn: nat)
    requires bn < MAXFILE
    ensures Missing(disk, i, bn, bn + 1) == Need(disk, i, bn)
  {
    assert Holes(disk, i, bn + 1, bn + 1) == 0;
  }

  /**
    The next slot of a scan that covers slots up to `n`.  The scan has paid for the blocks before `b`;
    the slot lies in block `b` or in the one before.
   */
  method NextEntry(fs: Xv6fs, dp: nat, s: nat, ghost d0: Disk, ghost i0: Inode, ghost b: nat, ghost n: nat)
    returns (panics: bool, inum: uint16, name: Name)
    requires DirReady(fs, dp) && s < n <= NSlots(DirContent(fs, dp)) && |d0| == fs.sb.size && SlotBlocks(n) <= MAXFILE
    requires Budget(fs.sb, d0, i0, fs.disk, fs.inodes[dp], 0, b) && Present(fs.disk, fs.inodes[dp], 0, b)
    requires b == s / 64 || b == s / 64 + 1
    modifies fs
    ensures DirReady(fs, dp) && OnlyRead(fs, dp) && DirContent(fs, dp) == old(DirContent(fs, dp))
    ensures panics ==> DiskFull(fs.sb, fs.disk) && FreeBlocks(fs.sb, d0) < Missing(d0, i0, 0, SlotBlocks(n))
    ensures !panics ==> inum == SlotInum(DirContent(fs, dp), s) && NameOf(name) == SlotName(DirContent(fs, dp), s)
    ensures !panics ==>
              && Budget(fs.sb, d0, i0, fs.disk, fs.inodes[dp], 0, SlotBlocks(s + 1))
              && Present(fs.disk, fs.inodes[dp], 0, SlotBlocks(s + 1))
    ensures old(NoHoles(fs.disk, fs.inodes[dp])) ==> Untouched(fs)
  {
    hide Owned, NoHoles, NameOf, SlotName, SlotInum, UniqueNames, Content, ReadOnly, Budget, FreeBlocks, Present,
        MarkedBelow;
    OwnedShape(fs.sb, fs.disk, fs.inodes, fs.owner, {});
    EntryBlock(fs.inodes[dp].size, s);
    assert SlotBlocks(s + 1) == s / 64 + 1 <= SlotBlocks(n);
    ghost var d1, n1, o1 := fs.disk, fs.inodes, fs.owner;
    PresentNeeds(d1, n1[dp], b, s / 64);
    panics, inum, name := ReadEntry(fs, dp, s);
    OwnedShape(fs.sb, fs.disk, fs.inodes, fs.owner, {});
    if panics {
      OverBudget(fs.sb, d0, i0, d1, n1[dp], 0, s / 64, SlotBlocks(n));
    } else if b == s / 64 {
      BudgetTrans(fs.sb, d0, i0, d1, n1[dp], fs.disk, fs.inodes[dp], 0, b, b + 1);
      OwnersKept(d1, n1, o1, fs.disk, fs.inodes, fs.owner, dp);
      PresentGrows(fs.sb, d1, n1, o1, fs.disk, fs.inodes, fs.owner, dp, 0, b);
      PresentMore(fs.disk, fs.inodes[dp], 0, b);
    }
  }

  lemma OwnersKept(d0: Disk, n0: seq<Inode>, o0: map<nat, Slot>, d: Disk, n: seq<Inode>, o: map<nat, Slot>, dp: nat)
    requires dp < |n0| && ReadOnly(d0, n0, o0, d, n, o, dp)
    ensures OwnersGrow(o0, o)
  {
  }

  /** A block that has been read before is there. */
  lemma PresentNeeds(disk: Disk, i: Inode, b: nat, bn: nat)
    requires Present(disk, i, 0, b) && bn < MAXFILE
    ensures bn < b ==> Addr(disk, i, DataSlot(bn)) != 0 && Need(disk, i, bn) == 0
  {
  }

  /**
    Look for an entry; on success also give its byte offset.  The kernel panics if and only if the
    blocks that the search covers have more holes than there are free blocks.
   */
  method DirLookup(fs: Xv6fs, dp: nat, name: seq<byte>) returns (panics: bool, found: bool, inum: uint16, off: nat)
    requires DirReady(fs, dp) && Readable(name)
    modifies fs
    ensures DirReady(fs, dp) && OnlyRead(fs, dp) && DirContent(fs, dp) == old(DirContent(fs, dp))
    ensures panics <==> old(OutOfSpace(fs, dp, Scanned(DirContent(fs, dp), 0, NameOf(name))))
    ensures panics ==> DiskFull(fs.sb, fs.disk)
    ensures !panics ==>
              var b := SlotBlocks(Scanned(DirContent(fs, dp), 0, NameOf(name)));
              && Budget(fs.sb, old(fs.disk), old(fs.inodes)[dp], fs.disk, fs.inodes[dp], 0, b)
              && Present(fs.disk, fs.inodes[dp], 0, b)
    ensures !panics ==> (found <==> NameOf(name) in Bindings(DirContent(fs, dp)))
    ensures !panics && found ==>
              && inum == Bindings(DirContent(fs, dp))[NameOf(name)]
              && off % 16 == 0 && off / 16 < NSlots(DirContent(fs, dp))
              && Live(DirContent(fs, dp), off / 16) && SlotName(DirContent(fs, dp), off / 16) == NameOf(name)
              && Addr(fs.disk, fs.inodes[dp], DataSlot(off / BSIZE)) != 0
    ensures !panics && !found ==> NoHoles(fs.disk, fs.inodes[dp])
    ensures old(NoHoles(fs.disk, fs.inodes[dp])) ==> Untouched(fs) && !panics
  {
    hide Owned, NoHoles, NameOf, Bindings, SlotName, SlotInum, Content, ReadOnly, Budget, FreeBlocks, Present,
        MarkedBelow;
    hide Missing, Need, UniqueNames, Scanned, OutOfSpace, SlotBlocks, DataSlot;
    ghost var c, d0, i0 := DirContent(fs, dp), fs.disk, fs.inodes[dp];
    ghost var end := Scanned(c, 0, NameOf(name));
    OwnedShape(fs.sb, fs.disk, fs.inodes, fs.owner, {});
    FitsFile(i0.size, end);
    OutIs(fs, dp, end);
    BudgetStart(fs.sb, d0, i0, 0);
    PresentNone(d0, i0, 0);
    ReadOnlyRefl(fs.disk, fs.inodes, fs.owner, dp);
    SolidNeedsNothing(d0, i0, end);
    BlocksAt(0);
    off := 0;
    while off < fs.inodes[dp].size
      invariant DirReady(fs, dp) && OnlyRead(fs, dp) && DirContent(fs, dp) == c && |fs.disk| == fs.sb.size
      invariant off % 16 == 0 && off <= |c| && Scanned(c, off / 16, NameOf(name)) == end
      invariant Budget(fs.sb, d0, i0, fs.disk, fs.inodes[dp], 0, SlotBlocks(off / 16))
      invariant Present(fs.disk, fs.inodes[dp], 0, SlotBlocks(off / 16))
      invariant NoHoles(d0, i0) ==> Untouched(fs)
      invariant forall s :: 0 <= s < off / 16 && Live(c, s) ==> SlotName(c, s) != NameOf(name)
    {
      ghost var d1, n1, o1 := fs.disk, fs.inodes, fs.owner;
      ScannedNext(c, off / 16, NameOf(name));
      BlocksAt(off / 16);
      var p, i, n := NextEntry(fs, dp, off / 16, d0, i0, SlotBlocks(off / 16), end);
      OwnedShape(fs.sb, fs.disk, fs.inodes, fs.owner, {});
      ReadOnlyTrans(d0, old(fs.inodes), old(fs.owner), d1, n1, o1, fs.disk, fs.inodes, fs.owner, dp);
      if p {
        return true, false, 0, 0;
      }
      if i != 0 {
        var cmp := Strncmp(name, n);
        if cmp == 0 {
          BindingOf(c, off / 16);
          InBudget(fs.sb, d0, i0, fs.disk, fs.inodes[dp], 0, SlotBlocks(end));
          PresentSlot(fs.disk, fs.inodes[dp], off / 16);
          return false, true, i, off;
        }
      }
      off := off + DENTRY;
    }
    ScannedNext(c, off / 16, NameOf(name));
    InBudget(fs.sb, d0, i0, fs.disk, fs.inodes[dp], 0, SlotBlocks(end));
    PresentAll(fs.disk, fs.inodes[dp]);
    if NameOf(name) in Bindings(c) {
      var s := SlotOf(c, NameOf(name));
    }
    return false, false, 0, 0;
  }

  /**
    Add a binding, in the first free slot or behind the last one.  Fails, and adds nothing, if the
    name is bound.  The kernel panics if and only if the search for the name does.
   */
  method Link(fs: Xv6fs, dp: nat, name: seq<byte>, inum: uint32) returns (panics: bool, r: int)
    requires DirReady(fs, dp) && Readable(name)
    modifies fs
    ensures DirReady(fs, dp) && OthersUntouched(fs, dp)
    ensures panics <==> old(OutOfSpace(fs, dp, Scanned(DirContent(fs, dp), 0, NameOf(name))))
    ensures panics ==> DiskFull(fs.sb, fs.disk) && r == -1
    ensures r == 0 || r == -1
    ensures old(NameOf(name) in Bindings(DirContent(fs, dp))) ==> r == -1
    ensures r == -1 ==> DirContent(fs, dp) == old(DirContent(fs, dp))
    ensures r == 0 ==>
              var m := old(Bindings(DirContent(fs, dp)));
              Bindings(DirContent(fs, dp)) == if inum % 0x1_0000 == 0 then m else m[NameOf(name) := inum % 0x1_0000]
    ensures forall s :: 0 <= s < NSlots(old(DirContent(fs, dp))) && Live(old(DirContent(fs, dp)), s) ==>
              && s < NSlots(DirContent(fs, dp)) && Live(DirContent(fs, dp), s)
              && SlotName(DirContent(fs, dp), s) == SlotName(old(DirContent(fs, dp)), s)
    ensures r == -1 && old(NameOf(name) !in Bindings(DirContent(fs, dp))) ==>
              DiskFull(fs.sb, fs.disk) || |DirContent(fs, dp)| + DENTRY > MAXBYTES
    ensures r == 0 && (forall s :: 0 <= s < NSlots(old(DirContent(fs, dp))) ==> Live(old(DirContent(fs, dp)), s)) ==>
              && NSlots(DirContent(fs, dp)) == NSlots(old(DirContent(fs, dp))) + 1
              && SlotName(DirContent(fs, dp), NSlots(old(DirContent(fs, dp)))) == NameOf(name)
              && SlotInum(DirContent(fs, dp), NSlots(old(DirContent(fs, dp)))) == inum % 0x1_0000
    ensures r == 0 || old(NoHoles(fs.disk, fs.inodes[dp])) ==> NoHoles(fs.disk, fs.inodes[dp])
    ensures old(NoHoles(fs.disk, fs.inodes[dp])) ==> !panics
    ensures !panics && old(NameOf(name) !in Bindings(DirContent(fs, dp))) ==>
              forall s :: FirstFree(old(DirContent(fs, dp)), s) ==>
                && r == 0 && NSlots(DirContent(fs, dp)) == NSlots(old(DirContent(fs, dp)))
                && OneSlot(old(DirContent(fs, dp)), DirContent(fs, dp), s, inum % 0x1_0000, NameOf(name))
  {
    hide Owned, NoHoles, NameOf, Bindings, SlotName, SlotInum, Splice, MarkedBelow, UniqueNames, DirEntry, Content;
    hide ReadOnly, FreeBlocks, Missing, Present, Scanned;
    var target := Strncpy(name);
    NameOfName(name);
    assert Readable(target);
    ghost var c, d0, n0, o0 := DirContent(fs, dp), fs.disk, fs.inodes, fs.owner;
    var p, found, _, _ := DirLookup(fs, dp, target);
    ReadKeeps(d0, n0, o0, fs.disk, fs.inodes, fs.owner, dp);
    if p || found {
      return p, -1;
    }
    var off := FreeSlot(fs, dp);
    var w := fs.Writei(dp, DirEntry(inum % 0x1_0000, target), off);
    if w != -1 {
      LinkWritten(c, off / 16, inum % 0x1_0000, target, w);
    }
    if w != DENTRY {
      return false, -1;
    }
    return false, 0;
  }

  /** The second loop of link, on a directory whose blocks the first has filled in: its read cannot come up short. */
  method FreeSlot(fs: Xv6fs, dp: nat) returns (off: nat)
    requires DirReady(fs, dp) && NoHoles(fs.disk, fs.inodes[dp])
    modifies fs
    ensures Untouched(fs)
    ensures off % 16 == 0 && off <= |DirContent(fs, dp)|
    ensures forall s :: 0 <= s < off / 16 ==> Live(DirContent(fs, dp), s)
    ensures off < |DirContent(fs, dp)| ==> !Live(DirContent(fs, dp), off / 16)
  {
    hide Owned, NoHoles, NameOf, SlotName, SlotInum, UniqueNames, Content, ReadOnly, Budget, FreeBlocks, MarkedBelow;
    ghost var c := DirContent(fs, dp);
    off := 0;
    while off < fs.inodes[dp].size
      invariant DirReady(fs, dp) && Untouched(fs) && DirContent(fs, dp) == c
      invariant off % 16 == 0 && off <= |c|
      invariant forall s :: 0 <= s < off / 16 ==> Live(c, s)
    {
      SolidEntry(fs.disk, fs.inodes[dp], off / 16);
      var p, i, n := ReadEntry(fs, dp, off / 16);
      assert !p;      // otherwise: panic "dirlink read"
      if i == 0 {
        break;
      }
      off := off + DENTRY;
    }
  }

  lemma SolidEntry(disk: Disk, i: Inode, s: nat)
    requires i.size <= MAXBYTES && s < i.size / 16 && NoHoles(disk, i)
    ensures s / 64 < MAXFILE && Need(disk, i, s / 64) == 0
  {
    EntryBlock(i.size, s);
    NoHoleAt(disk, i, 16 * s);
  }

  /** A 16-byte write at an entry boundary is all or nothing, and fills one slot. */
  lemma LinkWritten(c: seq<byte>, s: nat, inum: uint16, name: Name, w: nat)
    requires IsDirectory(c) && s <= NSlots(c) && (s < NSlots(c) ==> !Live(c, s))
    requires NameOf(name) !in Bindings(c)
    requires w <= DENTRY && (0 < w < DENTRY ==> (16 * s + w) % BSIZE == 0)
    ensures w == 0 || w == DENTRY
    ensures var c' := Splice(c, 16 * s, DirEntry(inum, name)[..w]);
            && IsDirectory(c')
            && (w == 0 ==> c' == c)
            && (w == DENTRY ==>
                  && Bindings(c') == (if inum == 0 then Bindings(c) else Bindings(c)[NameOf(name) := inum])
                  && s < NSlots(c') && NSlots(c') == Max(NSlots(c), s + 1)
                  && SlotInum(c', s) == inum && SlotName(c', s) == NameOf(name)
                  && forall t :: 0 <= t < NSlots(c) && t != s ==>
                       SlotInum(c', t) == SlotInum(c, t) && SlotName(c', t) == SlotName(c, t))
  {
    hide NameOf, SlotName, SlotInum, Bindings, UniqueNames;
    var e := DirEntry(inum, name);
    if w == DENTRY {
      assert e[..w] == e;
      LinkFilled(c, s, inum, name);
    } else {
      assert Splice(c, 16 * s, e[..0]) == c;
    }
  }

  lemma LinkFilled(c: seq<byte>, s: nat, inum: uint16, name: Name)
    requires IsDirectory(c) && s <= NSlots(c) && (s < NSlots(c) ==> !Live(c, s))
    requires NameOf(name) !in Bindings(c)
    ensures var c' := Splice(c, 16 * s, DirEntry(inum, name));
            && IsDirectory(c')
            && Bindings(c') == (if inum == 0 then Bindings(c) else Bindings(c)[NameOf(name) := inum])
            && s < NSlots(c') && NSlots(c') == Max(NSlots(c), s + 1)
            && SlotInum(c', s) == inum && SlotName(c', s) == NameOf(name)
            && forall t :: 0 <= t < NSlots(c) && t != s ==>
                 SlotInum(c', t) == SlotInum(c, t) && SlotName(c', t) == SlotName(c, t)
  {
    hide NameOf, SlotName, SlotInum, Splice, DirEntry, Bindings, UniqueNames;
    Bind(c, s, inum, name);
    SlotStored(c, s, inum, name, s);
    forall t | 0 <= t < NSlots(c) && t != s
      ensures var c' := Splice(c, 16 * s, DirEntry(inum, name));
              t < NSlots(c') && SlotInum(c', t) == SlotInum(c, t) && SlotName(c', t) == SlotName(c, t)
    {
      SlotStored(c, s, inum, name, t);
    }
  }

  /**
    True iff nothing is bound beyond the first two entries.  The kernel panics if and only if the blocks
    that the scan covers have more holes than there are free blocks.
   */
  method IsDirEmpty(fs: Xv6fs, dp: nat) returns (panics: bool, empty: bool)
    requires DirReady(fs, dp)
    modifies fs
    ensures DirReady(fs, dp) && OnlyRead(fs, dp) && DirContent(fs, dp) == old(DirContent(fs, dp))
    ensures panics <==> old(NSlots(DirContent(fs, dp)) > 2 && OutOfSpace(fs, dp, Emptied(DirContent(fs, dp), 2)))
    ensures panics ==> DiskFull(fs.sb, fs.disk)
    ensures !panics ==> (empty <==> forall s :: 2 <= s < NSlots(DirContent(fs, dp)) ==> !Live(DirContent(fs, dp), s))
    ensures old(NoHoles(fs.disk, fs.inodes[dp])) ==> Untouched(fs) && !panics
  {
    hide Owned, NoHoles, NameOf, SlotName, SlotInum, UniqueNames, Content, ReadOnly, Budget, FreeBlocks, Present,
        MarkedBelow;
    hide Missing, Need;
    ghost var c, d0, i0 := DirContent(fs, dp), fs.disk, fs.inodes[dp];
    ghost var end: nat, b: nat := if NSlots(c) > 2 then Emptied(c, 2) else 0, 0;
    OwnedShape(fs.sb, fs.disk, fs.inodes, fs.owner, {});
    BudgetStart(fs.sb, d0, i0, 0);
    PresentNone(d0, i0, 0);
    ReadOnlyRefl(fs.disk, fs.inodes, fs.owner, dp);
    SolidNeedsNothing(d0, i0, end);
    var off := 2 * DENTRY;
    while off < fs.inodes[dp].size
      invariant DirReady(fs, dp) && OnlyRead(fs, dp) && DirContent(fs, dp) == c && |fs.disk| == fs.sb.size
      invariant off % 16 == 0 && 32 <= off && (off <= |c| || off == 32)
      invariant NSlots(c) > 2 ==> Emptied(c, off / 16) == end
      invariant b == if off == 32 then 0 else SlotBlocks(off / 16)
      invariant Budget(fs.sb, d0, i0, fs.disk, fs.inodes[dp], 0, b) && Present(fs.disk, fs.inodes[dp], 0, b)
      invariant NoHoles(d0, i0) ==> Untouched(fs)
      invariant forall s :: 2 <= s < off / 16 && s < NSlots(c) ==> !Live(c, s)
    {
      ghost var d1, n1, o1 := fs.disk, fs.inodes, fs.owner;
      var p, i, n := NextEntry(fs, dp, off / 16, d0, i0, b, end);
      OwnedShape(fs.sb, fs.disk, fs.inodes, fs.owner, {});
      ReadOnlyTrans(d0, old(fs.inodes), old(fs.owner), d1, n1, o1, fs.disk, fs.inodes, fs.owner, dp);
      if p {
        return true, false;
      }
      if i != 0 {
        assert Live(c, off / 16);
        InBudget(fs.sb, d0, i0, fs.disk, fs.inodes[dp], 0, SlotBlocks(end));
        return false, false;
      }
      off := off + DENTRY;
      b := SlotBlocks(off / 16);
    }
    if NSlots(c) > 2 {
      InBudget(fs.sb, d0, i0, fs.disk, fs.inodes[dp], 0, SlotBlocks(end));
    }
    return false, true;
  }

  function DotString(): (s: seq<byte>)
    ensures Readable(s)
  {
    [46, 0]
  }

  function DotDotString(): (s: seq<byte>)
    ensures Readable(s)
  {
    [46, 46, 0]
  }

  lemma DotsDiffer()
    ensures NameOf(DotString()) != NameOf(DotDotString())
  {
    assert 0 !in DotDotString()[..2];
    assert NameOf(DotString())[1] == 0 && NameOf(DotDotString())[1] == 46;
  }

  /** "." and ".." are bound in the first two slots. */
  ghost predicate DotsFirst(c: seq<byte>) {
    && NSlots(c) >= 2
    && Live(c, 0) && SlotName(c, 0) == NameOf(DotString())
    && Live(c, 1) && SlotName(c, 1) == NameOf(DotDotString())
  }

  /** With "." and ".." in front, the emptiness test says that nothing else is bound. */
  lemma EmptyDirectory(c: seq<byte>)
    requires IsDirectory(c) && DotsFirst(c)
    ensures (forall s :: 2 <= s < NSlots(c) ==> !Live(c, s))
            <==> Bindings(c).Keys == {NameOf(DotString()), NameOf(DotDotString())}
  {
    hide NameOf, SlotName, SlotInum, Bindings;
    BindingOf(c, 0);
    BindingOf(c, 1);
    if forall s :: 2 <= s < NSlots(c) ==> !Live(c, s) {
      forall n | n in Bindings(c)
        ensures n == NameOf(DotString()) || n == NameOf(DotDotString())
      {
        var s := SlotOf(c, n);
      }
    }
    if s :| 2 <= s < NSlots(c) && Live(c, s) {
      BindingOf(c, s);
      assert SlotName(c, 0) != SlotName(c, s) && SlotName(c, 1) != SlotName(c, s);
    }
  }

  /** The entries of a new directory; it fails only on a full disk, and then ".", at most, is bound. */
  method MakeDots(fs: Xv6fs, ip: nat, self: uint32, parent: uint32) returns (ok: bool)
    requires DirReady(fs, ip) && DirContent(fs, ip) == []
    requires 0 < self < 0x1_0000 && 0 < parent < 0x1_0000
    modifies fs
    ensures DirReady(fs, ip) && OthersUntouched(fs, ip)
    ensures ok ==>
              && DotsFirst(DirContent(fs, ip))
              && Bindings(DirContent(fs, ip)) == map[NameOf(DotString()) := self, NameOf(DotDotString()) := parent]
    ensures !ok ==>
              && DiskFull(fs.sb, fs.disk)
              && (|| Bindings(DirContent(fs, ip)) == map[]
                  || Bindings(DirContent(fs, ip)) == map[NameOf(DotString()) := self])
  {
    hide Owned, NoHoles, NameOf, SlotName, SlotInum, Bindings, UniqueNames, Content, MarkedBelow, OutOfSpace;
    NoBindings();
    DotsDiffer();
    NothingSolid(fs.disk, fs.inodes[ip]);
    var p, r := Link(fs, ip, DotString(), self);
    assert !p;      // otherwise: panic "dirlookup read"
    if r < 0 {
      return false;
    }
    assert NSlots(DirContent(fs, ip)) == 1 && Live(DirContent(fs, ip), 0);
    ghost var d1 := fs.disk;
    p, r := Link(fs, ip, DotDotString(), parent);
    assert !p;      // otherwise: panic "dirlookup read"
    return r >= 0;
  }

  lemma NothingSolid(disk: Disk, i: Inode)
    requires i.size <= MAXBYTES && Content(disk, i) == []
    ensures NoHoles(disk, i)
  {
  }

  lemma NoBindings()
    ensures UniqueNames([]) && Bindings([]) == map[]
  {
  }

  /** What an unlink may be asked to remove: entries that name files, or well-formed directories. */
  ghost predicate EntriesLead(fs: Xv6fs, dp: nat)
    reads fs
    requires DirReady(fs, dp)
  {
    forall n :: n in Bindings(DirContent(fs, dp)) ==>
      var i := Bindings(DirContent(fs, dp))[n];
      i < |fs.inodes| && (fs.inodes[i].kind == T_DIR ==> DirReady(fs, i))
  }

  /** Whether `xv6fs_unlink` may remove a name: bound, not "." or "..", and not a directory with entries. */
  ghost predicate Removable(fs: Xv6fs, dp: nat, name: Name)
    reads fs
    requires DirReady(fs, dp) && EntriesLead(fs, dp)
  {
    && name != NameOf(DotString()) && name != NameOf(DotDotString())
    && name in Bindings(DirContent(fs, dp))
    && var i := Bindings(DirContent(fs, dp))[name];
       fs.inodes[i].kind == T_DIR ==> forall s :: 2 <= s < NSlots(DirContent(fs, i)) ==> !Live(DirContent(fs, i), s)
  }

  /** The inode that the name leads to is a directory with more than two slots, which unlink scans. */
  ghost predicate ScansChild(fs: Xv6fs, dp: nat, name: Name)
    reads fs
    requires DirReady(fs, dp) && EntriesLead(fs, dp)
  {
    && name in Bindings(DirContent(fs, dp))
    && var i := Bindings(DirContent(fs, dp))[name];
       fs.inodes[i].kind == T_DIR && NSlots(DirContent(fs, i)) > 2
  }

  /** How many blocks of that child unlink scans. */
  ghost function ChildBlocks(fs: Xv6fs, dp: nat, name: Name): (e: nat)
    reads fs
    requires DirReady(fs, dp) && EntriesLead(fs, dp) && ScansChild(fs, dp, name)
    ensures e <= MAXFILE
  {
    var i := Bindings(DirContent(fs, dp))[name];
    FitsFile(fs.inodes[i].size, Emptied(DirContent(fs, i), 2));
    SlotBlocks(Emptied(DirContent(fs, i), 2))
  }

  /** What reading `a` blocks of directory dp and `e` blocks of directory i makes bmap allocate. */
  ghost function BothMissing(disk: Disk, inodes: seq<Inode>, dp: nat, a: nat, i: nat, e: nat): (n: nat)
    requires dp < |inodes| && i < |inodes| && a <= MAXFILE && e <= MAXFILE
  {
    if i == dp then Missing(disk, inodes[dp], 0, Max(a, e))
    else Missing(disk, inodes[dp], 0, a) + Missing(disk, inodes[i], 0, e)
  }

  /** The blocks that unlink makes bmap allocate: for the search in the directory, and for the scan of the child. */
  ghost function UnlinkNeeds(fs: Xv6fs, dp: nat, name: Name): (n: nat)
    reads fs
    requires DirReady(fs, dp) && EntriesLead(fs, dp)
  {
    var a := Scanned(DirContent(fs, dp), 0, name);
    FitsFile(fs.inodes[dp].size, a);
    if ScansChild(fs, dp, name) then
      BothMissing(fs.disk, fs.inodes, dp, SlotBlocks(a), Bindings(DirContent(fs, dp))[name], ChildBlocks(fs, dp, name))
    else Missing(fs.disk, fs.inodes[dp], 0, SlotBlocks(a))
  }

  /** No file has changed; holes may have been filled. */
  twostate predicate FilesSame(fs: Xv6fs)
    reads fs
    requires old(fs.Valid()) && fs.Valid()
  {
    && |fs.inodes| == |old(fs.inodes)|
    && forall i :: 0 <= i < |fs.inodes| ==>
         SameButAddrs(old(fs.inodes)[i], fs.inodes[i]) &&
             Content(fs.disk, fs.inodes[i]) == Content(old(fs.disk), old(fs.inodes)[i])
  }

  twostate predicate OthersSame(fs: Xv6fs, dp: nat)
    reads fs
    requires old(fs.Valid()) && fs.Valid()
  {
    && |fs.inodes| == |old(fs.inodes)|
    && forall i :: 0 <= i < |fs.inodes| && i != dp ==>
         SameButAddrs(old(fs.inodes)[i], fs.inodes[i]) &&
             Content(fs.disk, fs.inodes[i]) == Content(old(fs.disk), old(fs.inodes)[i])
  }

  ghost predicate IsDots(name: Name) { name == NameOf(DotString()) || name == NameOf(DotDotString()) }

  /** Every directory has all its blocks. */
  ghost predicate AllSolid(fs: Xv6fs)
    reads fs
    requires fs.Valid()
  {
    forall i :: 0 <= i < |fs.inodes| && fs.inodes[i].kind == T_DIR ==> NoHoles(fs.disk, fs.inodes[i])
  }

  /**
    Remove a binding by zeroing its slot.  The kernel panics if and only if the searches it makes have
    more holes to fill than there are free blocks.
   */
  method Unlink(fs: Xv6fs, dp: nat, name: seq<byte>) returns (panics: bool, r: int)
    requires DirReady(fs, dp) && EntriesLead(fs, dp) && Readable(name)
    modifies fs
    ensures DirReady(fs, dp)
    ensures panics <==> old(!IsDots(NameOf(name)) && FreeBlocks(fs.sb, fs.disk) < UnlinkNeeds(fs, dp, NameOf(name)))
    ensures panics ==> DiskFull(fs.sb, fs.disk) && r == -1
    ensures !panics ==> r == (if old(Removable(fs, dp, NameOf(name))) then 0 else -1)
    ensures r == -1 ==> FilesSame(fs)
    ensures OthersSame(fs, dp)
    ensures r == 0 ==> Bindings(DirContent(fs, dp)) == old(Bindings(DirContent(fs, dp))) - {NameOf(name)}
    ensures old(DotsFirst(DirContent(fs, dp))) ==> DotsFirst(DirContent(fs, dp))
    ensures old(AllSolid(fs)) ==> !panics && OthersUntouched(fs, dp) && (r == -1 ==> Untouched(fs))
  {
    hide Owned, NoHoles, NameOf, SlotName, SlotInum, Bindings, UniqueNames, Splice, Content, ReadOnly, FreeBlocks,
        Missing;
    hide Scanned, Emptied, Present, MarkedBelow, OwnersGrow;
    var isDot := Strncmp(name, DotString());
    var isDotDot := Strncmp(name, DotDotString());
    if isDot == 0 || isDotDot == 0 {
      return false, -1;
    }
    var p, removable, off := FindEntry(fs, dp, name);
    if p || !removable {
      return p, -1;
    }
    ClearSlot(fs, dp, off);
    return false, 0;
  }

  /** What a child needs after the search in its directory has filled what that needed. */
  lemma ChildNeeds(sb: SuperBlock, d0: Disk, n0: seq<Inode>, o0: map<nat, Slot>, d1: Disk, n1: seq<Inode>,
                   o1: map<nat, Slot>,
                   dp: nat, i: nat, a: nat, e: nat)
    requires WellLaidOut(sb) && |d0| == sb.size && |d1| == sb.size && dp < |n0| && i < |n0| && a <= MAXFILE &&
            e <= MAXFILE
    requires ReadOnly(d0, n0, o0, d1, n1, o1, dp)
    requires Budget(sb, d0, n0[dp], d1, n1[dp], 0, a) && Present(d1, n1[dp], 0, a)
    ensures FreeBlocks(sb, d1) < Missing(d1, n1[i], 0, e) <==> FreeBlocks(sb, d0) < BothMissing(d0, n0, dp, a, i, e)
  {
    hide SameFiles, OwnersGrow, FreeBlocks;
    NothingMore(d1, n1[dp], a);
    if i != dp {
      MissingKept(d0, n0[i], d1, n1[i], 0, e);
    } else if e <= a {
      PresentFree(d1, n1[dp], 0, e);
    } else {
      MissingSkip(d1, n1[dp], a, e);
    }
  }

  lemma NothingMore(disk: Disk, i: Inode, a: nat)
    requires a <= MAXFILE
    ensures Missing(disk, i, a, a) == 0
  {
  }

  lemma PresentFree(disk: Disk, i: Inode, lo: nat, hi: nat)
    requires hi <= MAXFILE && Present(disk, i, lo, hi)
    ensures Missing(disk, i, lo, hi) == 0
  {
    NoHolesNoNeed(disk, i, lo, hi);
  }

  lemma {:induction false} HolesSkip(disk: Disk, i: Inode, lo: nat, a: nat, hi: nat)
    requires lo <= a <= hi <= MAXFILE && Present(disk, i, lo, a)
    ensures Holes(disk, i, lo, hi) == Holes(disk, i, a, hi)
    decreases a - lo
  {
    if lo < a {
      assert Addr(disk, i, DataSlot(lo)) != 0;
      HolesSkip(disk, i, lo + 1, a, hi);
    }
  }

  lemma MissingSkip(disk: Disk, i: Inode, a: nat, hi: nat)
    requires a < hi <= MAXFILE && Present(disk, i, 0, a)
    ensures Missing(disk, i, 0, hi) == Missing(disk, i, a, hi)
  {
    HolesSkip(disk, i, 0, a, hi);
  }

  lemma {:induction false} HolesKept(disk: Disk, i: Inode, disk': Disk, i': Inode, lo: nat, hi: nat)
    requires hi <= MAXFILE && forall k :: 0 <= k < NSLOT ==> Addr(disk', i', k) == Addr(disk, i, k)
    ensures Holes(disk', i', lo, hi) == Holes(disk, i, lo, hi)
    decreases hi - lo
  {
    if lo < hi {
      HolesKept(disk, i, disk', i', lo + 1, hi);
    }
  }

  lemma MissingKept(disk: Disk, i: Inode, disk': Disk, i': Inode, lo: nat, hi: nat)
    requires hi <= MAXFILE && forall k :: 0 <= k < NSLOT ==> Addr(disk', i', k) == Addr(disk, i, k)
    ensures Missing(disk', i', lo, hi) == Missing(disk, i, lo, hi)
  {
    HolesKept(disk, i, disk', i', lo, hi);
    assert Addr(disk', i', NDIRECT) == Addr(disk, i, NDIRECT);
  }

  lemma {:induction false} HolesMonotone(disk: Disk, i: Inode, lo: nat, a: nat, hi: nat)
    requires a <= hi <= MAXFILE
    ensures Holes(disk, i, lo, a) <= Holes(disk, i, lo, hi)
    decreases a - lo
  {
    if lo < a {
      HolesMonotone(disk, i, lo + 1, a, hi);
    }
  }

  lemma BothAtLeast(disk: Disk, inodes: seq<Inode>, dp: nat, a: nat, i: nat, e: nat)
    requires dp < |inodes| && i < |inodes| && a <= MAXFILE && e <= MAXFILE
    ensures Missing(disk, inodes[dp], 0, a) <= BothMissing(disk, inodes, dp, a, i, e)
  {
    HolesMonotone(disk, inodes[dp], 0, a, Max(a, e));
  }

  /** The search of unlink: the entry, unless the name cannot be removed. */
  method FindEntry(fs: Xv6fs, dp: nat, name: seq<byte>) returns (panics: bool, removable: bool, off: nat)
    requires DirReady(fs, dp) && EntriesLead(fs, dp) && Readable(name) && !IsDots(NameOf(name))
    modifies fs
    ensures DirReady(fs, dp) && FilesSame(fs)
    ensures panics <==> old(FreeBlocks(fs.sb, fs.disk) < UnlinkNeeds(fs, dp, NameOf(name)))
    ensures panics ==> DiskFull(fs.sb, fs.disk)
    ensures !panics ==> (removable <==> old(Removable(fs, dp, NameOf(name))))
    ensures !panics && removable ==>
              && off % 16 == 0 && off / 16 < NSlots(DirContent(fs, dp)) && Live(DirContent(fs, dp), off / 16)
              && SlotName(DirContent(fs, dp), off / 16) == NameOf(name)
              && Addr(fs.disk, fs.inodes[dp], DataSlot(off / BSIZE)) != 0
    ensures old(AllSolid(fs)) ==> !panics && Untouched(fs)
  {
    hide Owned, NoHoles, NameOf, SlotName, SlotInum, Bindings, UniqueNames, Content, ReadOnly, FreeBlocks, Missing,
        Budget;
    hide Scanned, Emptied, Present, MarkedBelow, Addr, BothMissing;
    ghost var c, d0, n0, o0 := DirContent(fs, dp), fs.disk, fs.inodes, fs.owner;
    ghost var a := SlotBlocks(Scanned(c, 0, NameOf(name)));
    OwnedShape(fs.sb, fs.disk, fs.inodes, fs.owner, {});
    FitsFile(fs.inodes[dp].size, Scanned(c, 0, NameOf(name)));
    if ScansChild(fs, dp, NameOf(name)) {
      BothAtLeast(d0, n0, dp, a, Bindings(c)[NameOf(name)], ChildBlocks(fs, dp, NameOf(name)));
    }
    var p, found, inum, at := DirLookup(fs, dp, name);
    OwnedShape(fs.sb, fs.disk, fs.inodes, fs.owner, {});
    ReadKeeps(d0, n0, o0, fs.disk, fs.inodes, fs.owner, dp);
    if p {
      return true, false, 0;
    }
    InBudget(fs.sb, d0, n0[dp], fs.disk, fs.inodes[dp], 0, a);
    if !found {
      return false, false, 0;
    }
    if fs.inodes[inum].kind != T_DIR {
      return false, true, at;
    }
    ghost var d1, n1, o1 := fs.disk, fs.inodes, fs.owner;
    if NSlots(DirContent(fs, inum)) > 2 {
      ghost var e := Emptied(DirContent(fs, inum), 2);
      OutIs(fs, inum, e);
      ChildNeeds(fs.sb, d0, n0, o0, d1, n1, o1, dp, inum, a, SlotBlocks(e));
    }
    var q, empty := IsDirEmpty(fs, inum);
    OwnedShape(fs.sb, fs.disk, fs.inodes, fs.owner, {});
    ReadKeeps(d1, n1, o1, fs.disk, fs.inodes, fs.owner, inum);
    OwnersKept(d1, n1, o1, fs.disk, fs.inodes, fs.owner, inum);
    EntryBlock(n1[dp].size, at / 16);
    SlotsGrow(fs.sb, d1, n1, o1, fs.disk, fs.inodes, fs.owner, dp, DataSlot(at / BSIZE));
    return q, empty, at;
  }

  /** memset(&de, 0, sizeof(de)) written over a live entry whose block is there; the write cannot fall short. */
  method ClearSlot(fs: Xv6fs, dp: nat, off: nat)
    requires DirReady(fs, dp) && off % 16 == 0 && off / 16 < NSlots(DirContent(fs, dp)) &&
            Live(DirContent(fs, dp), off / 16)
    requires Addr(fs.disk, fs.inodes[dp], DataSlot(off / BSIZE)) != 0
    modifies fs
    ensures DirReady(fs, dp) && OthersUntouched(fs, dp)
    ensures Bindings(DirContent(fs, dp)) == old(Bindings(DirContent(fs, dp)) - {SlotName(DirContent(fs, dp), off / 16)})
    ensures old(DotsFirst(DirContent(fs, dp))) && off >= 32 ==> DotsFirst(DirContent(fs, dp))
  {
    hide Owned, NoHoles, NameOf, SlotName, SlotInum, Bindings, UniqueNames, Splice, Content;
    ghost var c := DirContent(fs, dp);
    var de: seq<byte> := seq(DENTRY, _ => 0);
    EntryBlock(fs.inodes[dp].size, off / 16);
    var w := fs.Writei(dp, de, off);
    assert w == DENTRY by { OneBlockWrite(off, w); }      // otherwise: panic "unlink: writei"
    assert de[..DENTRY] == de;
    Unbind(c, off / 16);
    KeepDots(c, off / 16);
  }

  /** An entry that comes up short does so at its own block. */
  lemma OneBlockWrite(off: nat, w: int)
    requires off % 16 == 0
    ensures 0 <= w < DENTRY && (0 < w ==> (off + w) % BSIZE == 0) ==> w == 0 && (off + w) / BSIZE == off / BSIZE
  {
  }

  lemma KeepDots(c: seq<byte>, s: nat)
    requires IsDirectory(c) && s < NSlots(c) && Live(c, s)
    ensures DotsFirst(c) && s >= 2 ==> DotsFirst(Splice(c, 16 * s, seq(DENTRY, _ => 0)))
  {
    var zero: Name := seq(DIRSIZ, _ => 0);
    assert seq(DENTRY, _ => 0) == DirEntry(0, zero);
    hide NameOf, SlotName, SlotInum, Splice, DirEntry, UniqueNames;
    SlotStored(c, s, 0, zero, 0);
    SlotStored(c, s, 0, zero, 1);
  }
}
