/**
  copyout, copyin and copyinstr of `kernel/vm.c`.  They work page by page through the
  physical memory; the specification speaks of single bytes at virtual addresses.
 */
module UserCopy {
  import opened Riscv
  import opened Kalloc
  import opened PageTable
  import opened Vm

  /** User code may touch the byte at `va`. */
  predicate Accessible(mem: Mem, root: nat, va: nat) {
    UserPa(mem, root, va / 4096) != 0
  }

  /**
    The same, read off the page-table entry: the address is below MAXVA, bits 0 (valid) and 4 (user) of
    the entry are set, and its page number is not 0.
   */
  predicate Mapped(mem: Mem, root: nat, va: nat) {
    && va / 4096 < MAXVPN
    && var e := Leaf(mem, root, va / 4096); e % 2 == 1 && e / 16 % 2 == 1 && e / 1024 != 0
  }

  /** The physical page that the entry names. */
  function FrameOf(mem: Mem, root: nat, va: nat): (pa: nat) { Leaf(mem, root, va / 4096) / 1024 * 4096 }

  /** The byte at `va` is the one at offset `o` of physical page `p`. */
  predicate Hits(mem: Mem, root: nat, va: nat, p: nat, o: nat) {
    Mapped(mem, root, va) && FrameOf(mem, root, va) == p && va % 4096 == o
  }

  lemma EntryBits(mem: Mem, root: nat, va: nat)
    ensures Accessible(mem, root, va) <==> Mapped(mem, root, va)
    ensures Accessible(mem, root, va) ==> UserPa(mem, root, va / 4096) == FrameOf(mem, root, va)
  {
    hide Leaf;
  }

  ghost predicate AllMapped(mem: Mem, root: nat, va: nat, n: nat) {
    forall a :: va <= a < va + n ==> Mapped(mem, root, a)
  }

  lemma AllEntries(mem: Mem, root: nat, va: nat, n: nat)
    ensures AllAccessible(mem, root, va, n) <==> AllMapped(mem, root, va, n)
  {
    hide Mapped, Accessible;
    forall a: nat ensures Accessible(mem, root, a) <==> Mapped(mem, root, a) {
      EntryBits(mem, root, a);
    }
  }

  /** Physical page `p` is a data page with `b` at offset `o`. */
  predicate Reads(mem: Mem, p: nat, o: nat, b: byte) {
    p in mem && mem[p].Data? && o < |mem[p].bytes| && mem[p].bytes[o] == b
  }

  /** `bytes` are those that the entries for the addresses from `va` on lead to. */
  ghost predicate Fetched(mem: Mem, root: nat, va: nat, bytes: seq<byte>) {
    forall a :: va <= a < va + |bytes| ==> Reads(mem, FrameOf(mem, root, a), a % 4096, bytes[a - va])
  }

  lemma FetchedBytes(mem: Mem, root: nat, va: nat, n: nat)
    requires UserPagesAreData(mem, root) && AllAccessible(mem, root, va, n)
    ensures Fetched(mem, root, va, UserBytes(mem, root, va, n))
  {
    hide Leaf, UserBytes, UserPa;
    forall a | va <= a < va + n
      ensures Reads(mem, FrameOf(mem, root, a), a % 4096, UserBytes(mem, root, va, n)[a - va])
    {
      EntryBits(mem, root, a);
      assert Accessible(mem, root, a);
      UserPage(mem, root, a / 4096);
      assert UserBytes(mem, root, va, n)[a - va] == UserByte(mem, root, va + (a - va));
    }
  }

  /** What user code can reach are data pages: never a table, never a free page. */
  ghost predicate UserPagesAreData(mem: Mem, root: nat) {
    forall v :: 0 <= v < MAXVPN && UserPa(mem, root, v) != 0 ==> IsData(mem, UserPa(mem, root, v))
  }

  /** The byte at a virtual address. */
  function UserByte(mem: Mem, root: nat, va: nat): (b: byte) {
    var pa := UserPa(mem, root, va / 4096);
    if pa in mem && mem[pa].Data? && va % 4096 < |mem[pa].bytes| then mem[pa].bytes[va % 4096] else 0
  }

  ghost predicate AllAccessible(mem: Mem, root: nat, va: nat, n: nat) {
    forall a :: va <= a < va + n ==> Accessible(mem, root, a)
  }

  /** The bytes at `n` consecutive virtual addresses. */
  ghost function UserBytes(mem: Mem, root: nat, va: nat, n: nat): (s: seq<byte>)
    ensures |s| == n && forall i :: 0 <= i < n ==> s[i] == UserByte(mem, root, va + i)
  {
    if n == 0 then [] else UserBytes(mem, root, va, n - 1) + [UserByte(mem, root, va + n - 1)]
  }

  lemma {:induction false} UserBytesSplit(mem: Mem, root: nat, va: nat, n: nat, m: nat)
    ensures UserBytes(mem, root, va, n + m) == UserBytes(mem, root, va, n) + UserBytes(mem, root, va + n, m)
  {
    if m > 0 {
      UserBytesSplit(mem, root, va, n, m - 1);
    }
  }

  /** A stretch within one page is a slice of the physical page. */
  lemma {:induction false} PageSlice(mem: Mem, root: nat, va: nat, n: nat)
    requires Accessible(mem, root, va) && IsData(mem, UserPa(mem, root, va / 4096)) && va % 4096 + n <= 4096
    ensures AllAccessible(mem, root, va, n)
    ensures UserBytes(mem, root, va, n) == mem[UserPa(mem, root, va / 4096)].bytes[va % 4096..va % 4096 + n]
  {
    hide UserPa;
    if n > 0 {
      PageSlice(mem, root, va, n - 1);
      InPage(va, n - 1);
    }
  }

  lemma InPage(va: nat, i: nat)
    requires va % 4096 + i < 4096
    ensures (va + i) / 4096 == va / 4096 && (va + i) % 4096 == va % 4096 + i
  {
  }

  lemma AllAccessibleSplit(mem: Mem, root: nat, va: nat, n: nat, m: nat)
    ensures AllAccessible(mem, root, va, n + m) <==>
            AllAccessible(mem, root, va, n) && AllAccessible(mem, root, va + n, m)
  {
  }

  /** Copy `len` bytes from user memory: succeeds iff all of them are accessible. */
  method CopyIn(s: Spaces, root: nat, srcva: nat, len: nat) returns (r: int, dst: seq<byte>)
    requires s.Valid() && root in s.roots && UserPagesAreData(s.k.mem, root)
    modifies s.k, s`owner
    ensures s.Valid() && s.k.mem == old(s.k.mem) && s.owner == old(s.owner) && s.k.free == old(s.k.free)
    ensures r == (if AllAccessible(s.k.mem, root, srcva, len) then 0 else -1)
    ensures |dst| <= len && dst == UserBytes(s.k.mem, root, srcva, |dst|) && AllAccessible(s.k.mem, root, srcva, |dst|)
    ensures r == 0 ==> |dst| == len
    ensures r == 0 <==> AllMapped(s.k.mem, root, srcva, len)
    ensures Fetched(s.k.mem, root, srcva, dst)
  {
    hide World, Leaf, UserPa, UserBytes, AllAccessible, AllMapped, Fetched;
    AllEntries(s.k.mem, root, srcva, len);
    var va, left := srcva, len;
    dst := [];
    ghost var m := s.k.mem;
    NoBytes(m, root, srcva);
    while left > 0
      invariant s.Valid() && s.k.mem == m && s.owner == old(s.owner) && s.k.free == old(s.k.free) &&
              UserPagesAreData(m, root)
      invariant |dst| + left == len && left >= 0 && (left > 0 ==> va == srcva + |dst|)
      invariant dst == UserBytes(m, root, srcva, |dst|) && AllAccessible(m, root, srcva, |dst|)
    {
      var va0 := PGROUNDDOWN(va);
      var pa0 := s.Walkaddr(root, va0);
      assert va0 / 4096 == va / 4096;
      if pa0 == 0 {
        NotAccessible(m, root, srcva, |dst|, len);
        FetchedBytes(m, root, srcva, |dst|);
        return -1, dst;
      }
      UserPage(m, root, va / 4096);
      var n := PGSIZE - (va - va0);
      if n > left {
        n := left;
      }
      PageSlice(m, root, va, n);
      UserBytesSplit(m, root, srcva, |dst|, n);
      AllAccessibleSplit(m, root, srcva, |dst|, n);
      dst := dst + s.k.mem[pa0].bytes[va - va0..va - va0 + n];
      left := left - n;
      va := va0 + PGSIZE;
    }
    FetchedBytes(m, root, srcva, |dst|);
    return 0, dst;
  }

  lemma NoBytes(mem: Mem, root: nat, va: nat)
    ensures UserBytes(mem, root, va, 0) == [] && AllAccessible(mem, root, va, 0)
  {
  }

  lemma NotAccessible(mem: Mem, root: nat, va: nat, n: nat, len: nat)
    requires n < len && !Accessible(mem, root, va + n)
    ensures !AllAccessible(mem, root, va, len)
  {
  }

  lemma UserPage(mem: Mem, root: nat, v: nat)
    requires UserPagesAreData(mem, root) && UserPa(mem, root, v) != 0
    ensures IsData(mem, UserPa(mem, root, v))
  {
  }

  // ---------------------------------------------------------------------------
  // Strings
  // ---------------------------------------------------------------------------

  /** A NUL sits at `va + n`, all bytes up to it are accessible, and none before it is NUL. */
  ghost predicate StringAt(mem: Mem, root: nat, va: nat, n: nat) {
    && AllAccessible(mem, root, va, n + 1)
    && UserByte(mem, root, va + n) == 0
    && NoNul(mem, root, va, n)
  }

  ghost predicate NoNul(mem: Mem, root: nat, va: nat, n: nat) {
    forall a :: va <= a < va + n ==> UserByte(mem, root, a) != 0
  }

  /** The same, read off the page-table entries. */
  ghost predicate NulAt(mem: Mem, root: nat, va: nat, n: nat) {
    && AllMapped(mem, root, va, n + 1)
    && Reads(mem, FrameOf(mem, root, va + n), (va + n) % 4096, 0)
    && forall a :: va <= a < va + n ==> !Reads(mem, FrameOf(mem, root, a), a % 4096, 0)
  }

  lemma NulEntries(mem: Mem, root: nat, va: nat, n: nat)
    requires UserPagesAreData(mem, root)
    ensures StringAt(mem, root, va, n) <==> NulAt(mem, root, va, n)
  {
    hide Leaf, UserPa, UserPagesAreData, AllMapped, UserByte, Accessible, Reads, FrameOf;
    AllEntries(mem, root, va, n + 1);
    if AllAccessible(mem, root, va, n + 1) {
      forall a | va <= a < va + n + 1
        ensures Reads(mem, FrameOf(mem, root, a), a % 4096, 0) <==> UserByte(mem, root, a) == 0
      {
        ByteEntries(mem, root, a);
      }
    }
  }

  lemma ByteEntries(mem: Mem, root: nat, a: nat)
    requires UserPagesAreData(mem, root) && Accessible(mem, root, a)
    ensures Reads(mem, FrameOf(mem, root, a), a % 4096, 0) <==> UserByte(mem, root, a) == 0
  {
    hide Leaf, UserPa;
    EntryBits(mem, root, a);
    UserPage(mem, root, a / 4096);
  }

  /** Copy a string of fewer than `max` characters: succeeds iff there is one. */
  method CopyInStr(s: Spaces, root: nat, srcva: nat, max: nat) returns (r: int, dst: seq<byte>)
    requires s.Valid() && root in s.roots && UserPagesAreData(s.k.mem, root)
    modifies s.k, s`owner
    ensures s.Valid() && s.k.mem == old(s.k.mem) && s.owner == old(s.owner) && s.k.free == old(s.k.free)
    ensures r == 0 || r == -1
    ensures r == 0 <==> exists n :: 0 <= n < max && StringAt(s.k.mem, root, srcva, n)
    ensures r == 0 ==>
              && 1 <= |dst| <= max && StringAt(s.k.mem, root, srcva, |dst| - 1)
              && dst == UserBytes(s.k.mem, root, srcva, |dst|)
    ensures r == 0 <==> exists n :: 0 <= n < max && NulAt(s.k.mem, root, srcva, n)
    ensures r == 0 ==> NulAt(s.k.mem, root, srcva, |dst| - 1) && Fetched(s.k.mem, root, srcva, dst)
  {
    hide World, Leaf, UserPa, UserBytes, AllAccessible, NoNul, UserByte, StringAt, NulAt, Fetched;
    forall n: nat ensures StringAt(s.k.mem, root, srcva, n) <==> NulAt(s.k.mem, root, srcva, n) {
      NulEntries(s.k.mem, root, srcva, n);
    }
    var va, left := srcva, max;
    dst := [];
    ghost var m := s.k.mem;
    NoBytes(m, root, srcva);
    NulFree(m, root, srcva);
    while left > 0
      invariant s.Valid() && s.k.mem == m && s.owner == old(s.owner) && s.k.free == old(s.k.free) &&
              UserPagesAreData(m, root)
      invariant |dst| + left == max && left >= 0 && (left > 0 ==> va == srcva + |dst|)
      invariant dst == UserBytes(m, root, srcva, |dst|) && AllAccessible(m, root, srcva, |dst|) &&
              NoNul(m, root, srcva, |dst|)
    {
      var va0 := PGROUNDDOWN(va);
      var pa0 := s.Walkaddr(root, va0);
      assert va0 / 4096 == va / 4096;
      if pa0 == 0 {
        StringEnds(m, root, srcva, |dst|, max);
        return -1, dst;
      }
      UserPage(m, root, va / 4096);
      var n := PGSIZE - (va - va0);
      if n > left {
        n := left;
      }
      var p := va - va0;
      ghost var start := |dst|;
      while n > 0
        invariant 0 <= n <= left && p == va - va0 + (|dst| - start) && p + n <= PGSIZE && start <= |dst|
        invariant |dst| + left == max && s.k.mem == m && s.Valid() && s.owner == old(s.owner) &&
                s.k.free == old(s.k.free)
        invariant dst == UserBytes(m, root, srcva, |dst|) && AllAccessible(m, root, srcva, |dst|) &&
                NoNul(m, root, srcva, |dst|)
        invariant p + n == PGSIZE || n == left
      {
        NextByte(m, root, srcva, |dst|, va, pa0);
        if s.k.mem[pa0].bytes[p] == 0 {
          dst := dst + [0];
          IsString(m, root, srcva, |dst| - 1);
          FetchedBytes(m, root, srcva, |dst|);
          return 0, dst;
        }
        dst := dst + [s.k.mem[pa0].bytes[p]];
        n, left, p := n - 1, left - 1, p + 1;
      }
      va := va0 + PGSIZE;
    }
    StringTooLong(m, root, srcva, max);
    return -1, dst;
  }

  lemma IsString(mem: Mem, root: nat, va: nat, n: nat)
    requires AllAccessible(mem, root, va, n + 1) && UserByte(mem, root, va + n) == 0 && NoNul(mem, root, va, n)
    ensures StringAt(mem, root, va, n)
  {
  }

  lemma NulFree(mem: Mem, root: nat, va: nat)
    ensures NoNul(mem, root, va, 0)
  {
  }

  /** One more byte of the page at hand. */
  lemma NextByte(mem: Mem, root: nat, srcva: nat, n: nat, va: nat, pa: nat)
    requires AllAccessible(mem, root, srcva, n) && NoNul(mem, root, srcva, n)
    requires pa == UserPa(mem, root, va / 4096) != 0 && IsData(mem, pa)
    requires va <= srcva + n && va % 4096 + (srcva + n - va) < 4096
    ensures UserByte(mem, root, srcva + n) == mem[pa].bytes[va % 4096 + (srcva + n - va)]
    ensures AllAccessible(mem, root, srcva, n + 1)
    ensures UserBytes(mem, root, srcva, n + 1) == UserBytes(mem, root, srcva, n) + [UserByte(mem, root, srcva + n)]
    ensures UserByte(mem, root, srcva + n) != 0 ==> NoNul(mem, root, srcva, n + 1)
  {
    hide UserPa;
    InPage(va, srcva + n - va);
  }

  lemma StringEnds(mem: Mem, root: nat, va: nat, n: nat, max: nat)
    requires NoNul(mem, root, va, n) && !Accessible(mem, root, va + n)
    ensures !exists k :: 0 <= k < max && StringAt(mem, root, va, k)
  {
  }

  lemma StringTooLong(mem: Mem, root: nat, va: nat, max: nat)
    requires NoNul(mem, root, va, max)
    ensures !exists k :: 0 <= k < max && StringAt(mem, root, va, k)
  {
  }

  // ---------------------------------------------------------------------------
  // Writing
  // ---------------------------------------------------------------------------

  /** Store one byte at a virtual address. */
  function StoreByte(mem: Mem, root: nat, va: nat, b: byte): (mem': Mem) {
    var pa := UserPa(mem, root, va / 4096);
    if pa in mem && mem[pa].Data? && va % 4096 < |mem[pa].bytes| then mem[pa := Data(mem[pa].bytes[va % 4096 := b])]
        else mem
  }

  /** Store bytes at consecutive virtual addresses, one after the other. */
  ghost function StoreBytes(mem: Mem, root: nat, va: nat, data: seq<byte>): (mem': Mem) {
    if data == [] then mem
    else StoreByte(StoreBytes(mem, root, va, data[..|data| - 1]), root, va + |data| - 1, data[|data| - 1])
  }

  /** What is at offset `o` of physical page `p` once `data` is stored from `va` on: the last byte that hits it. */
  function LastStored(mem: Mem, root: nat, va: nat, data: seq<byte>, p: nat, o: nat): (b: byte)
    requires p in mem && mem[p].Data? && o < |mem[p].bytes|
  {
    if data == [] then mem[p].bytes[o]
    else if Hits(mem, root, va + |data| - 1, p, o) then data[|data| - 1]
    else LastStored(mem, root, va, data[..|data| - 1], p, o)
  }

  /** Memory is as before, but for the bytes that the entries for the addresses from `va` on lead to. */
  ghost predicate Landed(m0: Mem, m: Mem, root: nat, va: nat, data: seq<byte>) {
    && m.Keys == m0.Keys
    && (forall p :: p in m0 && !m0[p].Data? ==> m[p] == m0[p])
    && (forall p :: p in m0 && m0[p].Data? ==> m[p].Data? && |m[p].bytes| == |m0[p].bytes|)
    && (forall p, o: nat :: p in m0 && m0[p].Data? && o < |m0[p].bytes| ==>
          m[p].bytes[o] == LastStored(m0, root, va, data, p, o))
  }

  lemma {:induction false} StoreLands(mem: Mem, root: nat, va: nat, data: seq<byte>)
    requires UserPagesAreData(mem, root) && AllAccessible(mem, root, va, |data|)
    ensures Landed(mem, StoreBytes(mem, root, va, data), root, va, data)
    ensures forall v: nat :: Leaf(StoreBytes(mem, root, va, data), root, v) == Leaf(mem, root, v)
    decreases |data|
  {
    hide Leaf, UserPa, UserPagesAreData;
    if data != [] {
      var n := |data| - 1;
      StoreLands(mem, root, va, data[..n]);
      var mid := StoreBytes(mem, root, va, data[..n]);
      OneLands(mem, mid, root, va, data);
    }
  }

  lemma OneLands(mem: Mem, mid: Mem, root: nat, va: nat, data: seq<byte>)
    requires data != [] && UserPagesAreData(mem, root) && Accessible(mem, root, va + |data| - 1)
    requires Landed(mem, mid, root, va, data[..|data| - 1]) && forall v: nat :: Leaf(mid, root, v) == Leaf(mem, root, v)
    ensures var mem' := StoreByte(mid, root, va + |data| - 1, data[|data| - 1]);
      Landed(mem, mem', root, va, data) && forall v: nat :: Leaf(mem', root, v) == Leaf(mem, root, v)
  {
    hide Leaf, UserPagesAreData;
    var a, b := va + |data| - 1, data[|data| - 1];
    EntryBits(mem, root, a);
    UserPage(mem, root, a / 4096);
    SamePa(mem, mid, root, a / 4096);
    var pa := UserPa(mem, root, a / 4096);
    hide UserPa;
    assert StoreByte(mid, root, a, b) == mid[pa := Data(mid[pa].bytes[a % 4096 := b])];
    StoreKeepsTables(mid, pa, mid[pa].bytes[a % 4096 := b]);
  }

  lemma {:induction false} NotHit(mem: Mem, root: nat, va: nat, data: seq<byte>, p: nat, o: nat)
    requires p in mem && mem[p].Data? && o < |mem[p].bytes| && Unhit(mem, root, va, |data|, p)
    ensures LastStored(mem, root, va, data, p, o) == mem[p].bytes[o]
    decreases |data|
  {
    hide Mapped, FrameOf;
    if data != [] {
      NotHit(mem, root, va, data[..|data| - 1], p, o);
    }
  }

  /** A page that no entry in the range names for user code stays as it is. */
  lemma PageKept(m0: Mem, m: Mem, root: nat, va: nat, data: seq<byte>, p: nat)
    requires Landed(m0, m, root, va, data) && p in m0 && Unhit(m0, root, va, |data|, p)
    ensures p in m && m[p] == m0[p]
  {
    hide Unhit, LastStored;
    if m0[p].Data? {
      forall o: nat | o < |m0[p].bytes| ensures m[p].bytes[o] == m0[p].bytes[o] {
        NotHit(m0, root, va, data, p, o);
      }
      assert m[p].bytes == m0[p].bytes;
    }
  }

  lemma PagesKept(m0: Mem, m: Mem, root: nat, va: nat, data: seq<byte>, n: nat)
    requires Landed(m0, m, root, va, data) && |data| <= n
    ensures forall p :: p in m0 && Unhit(m0, root, va, n, p) ==> p in m && m[p] == m0[p]
  {
    hide Landed, Mapped, FrameOf;
    forall p | p in m0 && Unhit(m0, root, va, n, p) ensures p in m && m[p] == m0[p] {
      assert Unhit(m0, root, va, |data|, p);
      PageKept(m0, m, root, va, data, p);
    }
  }

  /** No entry for the `n` addresses from `va` on lets user code at physical page `p`. */
  ghost predicate Unhit(mem: Mem, root: nat, va: nat, n: nat, p: nat) {
    forall a :: va <= a < va + n ==> !(Mapped(mem, root, a) && FrameOf(mem, root, a) == p)
  }

  /** Changing data pages changes no table and no translation. */
  lemma {:induction false} TablesApart(mem: Mem, mem': Mem, root: nat, level: nat, key: nat)
    requires SamePtes(mem, mem')
    ensures TableAt(mem', root, level, key) == TableAt(mem, root, level, key)
    decreases 2 - level
  {
    if level < 2 {
      TablesApart(mem, mem', root, level + 1, key / 512);
    }
  }

  ghost predicate SamePtes(mem: Mem, mem': Mem) {
    forall p: nat, i: nat :: Pte(mem', p, i) == Pte(mem, p, i)
  }

  lemma StoreKeepsTables(mem: Mem, pa: nat, bytes: seq<byte>)
    requires pa in mem && mem[pa].Data?
    ensures SamePtes(mem, mem[pa := Data(bytes)])
    ensures forall root: nat, v: nat :: Leaf(mem[pa := Data(bytes)], root, v) == Leaf(mem, root, v)
    ensures forall root: nat, v: nat :: UserPa(mem[pa := Data(bytes)], root, v) == UserPa(mem, root, v)
  {
    var mem' := mem[pa := Data(bytes)];
    assert SamePtes(mem, mem');
    forall root: nat, v: nat
      ensures Leaf(mem', root, v) == Leaf(mem, root, v)
    {
      TablesApart(mem, mem', root, 0, v / 512);
    }
  }

  /** A stretch of stores within one page is one store into the physical page. */
  lemma {:induction false} PageStore(mem: Mem, root: nat, va: nat, data: seq<byte>)
    requires Accessible(mem, root, va) && IsData(mem, UserPa(mem, root, va / 4096)) && va % 4096 + |data| <= 4096
    ensures var pa, off := UserPa(mem, root, va / 4096), va % 4096;
            var bytes := mem[pa].bytes;
            StoreBytes(mem, root, va, data) == mem[pa := Data(bytes[..off] + data + bytes[off + |data|..])]
    decreases |data|
  {
    hide UserPa, Leaf;
    var pa, off := UserPa(mem, root, va / 4096), va % 4096;
    var bytes := mem[pa].bytes;
    if data == [] {
      assert bytes[..off] + [] + bytes[off..] == bytes;
      assert mem == mem[pa := Data(bytes)];
    } else {
      var n := |data| - 1;
      PageStore(mem, root, va, data[..n]);
      var mid := bytes[..off] + data[..n] + bytes[off + n..];
      StoreKeepsTables(mem, pa, mid);
      InPage(va, n);
      assert mid[off + n := data[n]] == bytes[..off] + data + bytes[off + n + 1..];
    }
  }

  lemma {:induction false} StoreMore(mem: Mem, root: nat, va: nat, a: seq<byte>, b: seq<byte>)
    ensures StoreBytes(mem, root, va, a + b) == StoreBytes(StoreBytes(mem, root, va, a), root, va + |a|, b)
    decreases |b|
  {
    if b == [] {
      assert a + b == a;
    } else {
      assert (a + b)[..|a + b| - 1] == a + b[..|b| - 1];
      StoreMore(mem, root, va, a, b[..|b| - 1]);
    }
  }

  /** Writing a data page keeps all of memory in order. */
  lemma WriteData(kend: nat, mem: Mem, head: nat, free: seq<nat>, owner: map<nat, Owner>, roots: set<nat>, pa: nat,
                  bytes: seq<byte>)
    requires World(kend, mem, head, free, owner, roots) && IsData(mem, pa) && |bytes| == PGSIZE
    ensures World(kend, mem[pa := Data(bytes)], head, free, owner, roots)
  {
    var mem' := mem[pa := Data(bytes)];
    DataNotFree(kend, mem, head, free, pa);
    DataNoTable(mem, owner, roots, pa);
    hide Chain, TableAt, Leaf;
    WriteUsed(kend, mem, head, free, pa, Data(bytes));
    TreesStable(mem, mem', owner, roots);
    forall r | r in roots
      ensures TreeOk(mem', owner, r)
    {
      TreeKept(mem, mem', owner, owner, r);
    }
    assert TablesPlaced(mem', owner, roots) && LeavesPlaced(mem', owner, roots);
  }

  lemma DataNoTable(mem: Mem, owner: map<nat, Owner>, roots: set<nat>, pa: nat)
    requires TreesOk(mem, owner, roots) && TablesPlaced(mem, owner, roots) && IsData(mem, pa) && pa in owner
    ensures !owner[pa].TableOf?
  {
    if owner[pa].TableOf? {
      TableOwner(mem, owner, owner[pa].root, owner[pa].level, owner[pa].key);
    }
  }

  lemma DataNotFree(kend: nat, mem: Mem, head: nat, free: seq<nat>, pa: nat)
    requires FreeList(kend, mem, head, free) && IsData(mem, pa)
    ensures pa !in free && IsPage(kend, pa)
  {
    ChainPages(mem, head, free);
  }

  lemma {:induction false} ChainPages(mem: Mem, head: nat, list: seq<nat>)
    requires Chain(mem, head, list)
    ensures forall p :: p in list ==> p in mem && mem[p].FreePage?
    decreases |list|
  {
    if list != [] {
      ChainPages(mem, mem[head].next, list[1..]);
      assert list == [list[0]] + list[1..];
    }
  }

  /**
    Copy bytes to user memory: succeeds iff all addresses are accessible; what was written is what a
    plain byte-by-byte copy writes.
   */
  method CopyOut(s: Spaces, root: nat, dstva: nat, src: seq<byte>) returns (r: int, ghost done: nat)
    requires s.Valid() && root in s.roots && UserPagesAreData(s.k.mem, root)
    modifies s.k, s`owner
    ensures s.Valid() && s.owner == old(s.owner) && s.k.free == old(s.k.free)
    ensures r == (if AllAccessible(old(s.k.mem), root, dstva, |src|) then 0 else -1)
    ensures done <= |src| && (r == 0 <==> done == |src|) && AllAccessible(old(s.k.mem), root, dstva, done)
    ensures s.k.mem == StoreBytes(old(s.k.mem), root, dstva, src[..done])
    ensures UserPagesAreData(s.k.mem, root) && forall q: nat, v: nat :: Leaf(s.k.mem, q, v) == Leaf(old(s.k.mem), q, v)
    ensures r == 0 <==> AllMapped(old(s.k.mem), root, dstva, |src|)
    ensures Landed(old(s.k.mem), s.k.mem, root, dstva, src[..done])
    ensures forall p :: p in old(s.k.mem) && Unhit(old(s.k.mem), root, dstva, |src|, p) ==>
              p in s.k.mem && s.k.mem[p] == old(s.k.mem)[p]
  {
    hide World, Leaf, UserPa, StoreBytes, AllAccessible, UserPagesAreData, AllMapped, Landed;
    AllEntries(s.k.mem, root, dstva, |src|);
    var va, left := dstva, |src|;
    done := 0;
    ghost var m0 := s.k.mem;
    NoBytes(m0, root, dstva);
    NoStore(m0, root, dstva, src);
    while left > 0
      invariant s.Valid() && s.owner == old(s.owner) && s.k.free == old(s.k.free)
      invariant UserPagesAreData(s.k.mem, root) && forall q: nat, v: nat :: Leaf(s.k.mem, q, v) == Leaf(m0, q, v)
      invariant done + left == |src| && left >= 0 && (left > 0 ==> va == dstva + done)
      invariant AllAccessible(m0, root, dstva, done) && s.k.mem == StoreBytes(m0, root, dstva, src[..done])
    {
      var va0 := PGROUNDDOWN(va);
      var pa0 := s.Walkaddr(root, va0);
      assert va0 / 4096 == va / 4096;
      SamePa(m0, s.k.mem, root, va / 4096);
      if pa0 == 0 {
        NotAccessible(m0, root, dstva, done, |src|);
        StoreLands(m0, root, dstva, src[..done]);
        PagesKept(m0, s.k.mem, root, dstva, src[..done], |src|);
        return -1, done;
      }
      UserPage(s.k.mem, root, va / 4096);
      var n := PGSIZE - (va - va0);
      if n > left {
        n := left;
      }
      var i := |src| - left;
      ghost var m1 := s.k.mem;
      var bytes := s.k.mem[pa0].bytes;
      var bytes' := bytes[..va - va0] + src[i..i + n] + bytes[va - va0 + n..];
      PageStore(m1, root, va, src[i..i + n]);
      StoreMore(m0, root, dstva, src[..i], src[i..i + n]);
      assert src[..i] + src[i..i + n] == src[..i + n];
      WriteData(s.k.kend, m1, s.k.freelist, s.k.free, s.owner, s.roots, pa0, bytes');
      StoreKeepsTables(m1, pa0, bytes');
      StillData(m1, root, pa0, bytes');
      s.k.mem := s.k.mem[pa0 := Data(bytes')];
      Reached(m0, root, dstva, done, n);
      done := done + n;
      left := left - n;
      va := va0 + PGSIZE;
    }
    StoreLands(m0, root, dstva, src[..done]);
    PagesKept(m0, s.k.mem, root, dstva, src[..done], |src|);
    return 0, done;
  }

  lemma NoStore(mem: Mem, root: nat, va: nat, src: seq<byte>)
    ensures StoreBytes(mem, root, va, src[..0]) == mem
  {
  }

  lemma SamePa(mem: Mem, mem': Mem, root: nat, v: nat)
    requires Leaf(mem', root, v) == Leaf(mem, root, v)
    ensures UserPa(mem', root, v) == UserPa(mem, root, v)
  {
  }

  lemma StillData(mem: Mem, root: nat, pa: nat, bytes: seq<byte>)
    requires UserPagesAreData(mem, root) && pa in mem && mem[pa].Data? && |bytes| == PGSIZE
    ensures UserPagesAreData(mem[pa := Data(bytes)], root)
  {
    hide Leaf, UserPa;
    var mem' := mem[pa := Data(bytes)];
    StoreKeepsTables(mem, pa, bytes);
    forall v | 0 <= v < MAXVPN && UserPa(mem', root, v) != 0
      ensures IsData(mem', UserPa(mem', root, v))
    {
      assert UserPa(mem', root, v) == UserPa(mem, root, v);
    }
  }

  lemma Reached(m0: Mem, root: nat, dstva: nat, done: nat, n: nat)
    requires AllAccessible(m0, root, dstva, done) && Accessible(m0, root, dstva + done)
    requires (dstva + done) % 4096 + n <= 4096
    ensures AllAccessible(m0, root, dstva, done + n)
  {
    hide UserPa;
    forall a | dstva + done <= a < dstva + done + n
      ensures Accessible(m0, root, a)
    {
      InPage(dstva + done, a - (dstva + done));
    }
  }

  /** No two virtual pages share a physical page, as when each owns the page it is mapped to. */
  ghost predicate NoSharing(mem: Mem, root: nat) {
    forall v, w :: 0 <= v < w < MAXVPN && UserPa(mem, root, v) != 0 ==> UserPa(mem, root, v) != UserPa(mem, root, w)
  }

  /**
    Both follow from the accounting of pages: the memory that exec, fork and sbrk give a process is
    `n` pages that it owns, and what is mapped above them (trampoline and trapframe) is not for user
    code.
   */
  lemma OwnPages(kend: nat, mem: Mem, head: nat, free: seq<nat>, owner: map<nat, Owner>, roots: set<nat>, root: nat,
                 n: nat)
    requires World(kend, mem, head, free, owner, roots) && root in roots && UserSpace(mem, owner, root, n)
    requires forall v :: n <= v < MAXVPN ==> UserPa(mem, root, v) == 0
    ensures UserPagesAreData(mem, root) && NoSharing(mem, root)
  {
    hide FreeList, Accounted, TreesOk, TablesPlaced, Leaf, PTE2PA, Has;
    forall v | 0 <= v < MAXVPN && UserPa(mem, root, v) != 0
      ensures IsData(mem, UserPa(mem, root, v)) && UserPa(mem, root, v) in owner &&
              owner[UserPa(mem, root, v)] == LeafOf(root, v)
    {
      assert OwnLeaf(mem, owner, root, v);
    }
  }

  /** So a page that is mapped, but not for user code, is out of reach of copyout. */
  lemma GuardPage(mem: Mem, owner: map<nat, Owner>, root: nat, v: nat, va: nat, n: nat)
    requires v < MAXVPN && OwnLeaf(mem, owner, root, v) && Leaf(mem, root, v) / 16 % 2 == 0
    requires forall w :: 0 <= w < MAXVPN && UserPa(mem, root, w) != 0 ==> OwnLeaf(mem, owner, root, w)
    ensures Unhit(mem, root, va, n, Leaf(mem, root, v) / 1024 * 4096)
  {
    hide Leaf;
    forall a | va <= a < va + n && Mapped(mem, root, a)
      ensures FrameOf(mem, root, a) != Leaf(mem, root, v) / 1024 * 4096
    {
      EntryBits(mem, root, a);
      assert OwnLeaf(mem, owner, root, a / 4096);
    }
  }

  lemma ReadStored(mem: Mem, root: nat, va: nat, b: byte, a: nat)
    requires UserPagesAreData(mem, root) && NoSharing(mem, root) && Accessible(mem, root, va) &&
            Accessible(mem, root, a)
    ensures var mem' := StoreByte(mem, root, va, b);
            && UserByte(mem', root, a) == (if a == va then b else UserByte(mem, root, a))
            && (forall v: nat :: UserPa(mem', root, v) == UserPa(mem, root, v))
            && UserPagesAreData(mem', root) && NoSharing(mem', root)
  {
    var pa := UserPa(mem, root, va / 4096);
    assert IsData(mem, pa);
    var bytes := mem[pa].bytes[va % 4096 := b];
    StoreKeepsTables(mem, pa, bytes);
    StillData(mem, root, pa, bytes);
    hide Leaf, UserPa;
    var mem' := StoreByte(mem, root, va, b);
    assert mem' == mem[pa := Data(bytes)];
    assert UserPa(mem', root, a / 4096) == UserPa(mem, root, a / 4096);
    SameAddress(mem, root, va, a);
  }

  lemma SameAddress(mem: Mem, root: nat, va: nat, a: nat)
    requires NoSharing(mem, root) && Accessible(mem, root, va) && Accessible(mem, root, a)
    ensures UserPa(mem, root, va / 4096) == UserPa(mem, root, a / 4096) && va % 4096 == a % 4096 ==> va == a
  {
    assert va / 4096 < MAXVPN && a / 4096 < MAXVPN;
  }

  /** What copyout stores is what copyin reads back. */
  lemma {:induction false} StoredThenRead(mem: Mem, root: nat, va: nat, data: seq<byte>, a: nat)
    requires UserPagesAreData(mem, root) && NoSharing(mem, root) && AllAccessible(mem, root, va, |data|) &&
            Accessible(mem, root, a)
    ensures var mem' := StoreBytes(mem, root, va, data);
            && UserByte(mem', root, a) == (if va <= a < va + |data| then data[a - va] else UserByte(mem, root, a))
            && (forall v: nat :: UserPa(mem', root, v) == UserPa(mem, root, v))
            && UserPagesAreData(mem', root) && NoSharing(mem', root)
    decreases |data|
  {
    hide Leaf, UserPa, UserByte, StoreByte, UserPagesAreData, NoSharing;
    if data != [] {
      var n := |data| - 1;
      StoredThenRead(mem, root, va, data[..n], a);
      var mid := StoreBytes(mem, root, va, data[..n]);
      assert Accessible(mem, root, va + n);
      assert UserPa(mid, root, (va + n) / 4096) == UserPa(mem, root, (va + n) / 4096);
      assert UserPa(mid, root, a / 4096) == UserPa(mem, root, a / 4096);
      ReadStored(mid, root, va + n, data[n], a);
    }
  }
}
