/**
  Bytes, disk blocks, little-endian integers and bits, as `struct dinode`, the
  indirect block, the directory entry and the free bitmap store them.
 */
module Codec {

  const BSIZE: nat := 1024

  type byte = x: int | 0 <= x < 256
  type uint16 = x: int | 0 <= x < 0x1_0000
  type uint32 = x: int | 0 <= x < 0x1_0000_0000

  /** Unsigned 32-bit addition wraps around. */
  function Add32(a: uint32, b: uint32): (r: uint32) {
    (a + b) % 0x1_0000_0000
  }

  type Block = b: seq<byte> | |b| == BSIZE witness seq(BSIZE, _ => 0)

  function ZeroBlock(): (b: Block)
    ensures forall i :: 0 <= i < BSIZE ==> b[i] == 0
  {
    seq(BSIZE, _ => 0)
  }

  function Min(a: int, b: int): int { if a < b then a else b }

  function Max(a: int, b: int): int { if a < b then b else a }

  /** `s` with `data` stored over it from `off` on, growing if `data` reaches beyond the end. */
  function Splice(s: seq<byte>, off: nat, data: seq<byte>): (r: seq<byte>)
    requires off <= |s|
  {
    s[..off] + data + (if off + |data| < |s| then s[off + |data|..] else [])
  }

  /** Two consecutive stores are one store of the joined data. */
  lemma SpliceTwice(s: seq<byte>, off: nat, a: seq<byte>, b: seq<byte>)
    requires off <= |s|
    ensures off + |a| <= |Splice(s, off, a)|
    ensures Splice(Splice(s, off, a), off + |a|, b) == Splice(s, off, a + b)
  {
  }

  // ---------------------------------------------------------------------------
  // Little-endian integers
  // ---------------------------------------------------------------------------

  function U16(s: seq<byte>, p: nat): (v: uint16)
    requires p + 2 <= |s|
  {
    s[p] as int + 0x100 * (s[p + 1] as int)
  }

  function U32(s: seq<byte>, p: nat): (v: uint32)
    requires p + 4 <= |s|
  {
    s[p] as int + 0x100 * (s[p + 1] as int) + 0x1_0000 * (s[p + 2] as int) + 0x100_0000 * (s[p + 3] as int)
  }

  function Bytes16(v: uint16): (s: seq<byte>)
    ensures |s| == 2 && U16(s, 0) == v
  {
    [v % 0x100, v / 0x100]
  }

  function Bytes32(v: uint32): (s: seq<byte>)
    ensures |s| == 4 && U32(s, 0) == v
  {
    [v % 0x100, v / 0x100 % 0x100, v / 0x1_0000 % 0x100, v / 0x100_0000]
  }

  /** The indirect block seen as an array of 256 block numbers. */
  function Entry(b: Block, j: nat): (v: uint32)
    requires j < 256
  {
    U32(b, 4 * j)
  }

  function SetEntry(b: Block, j: nat, v: uint32): (r: Block)
    requires j < 256
  {
    Splice(b, 4 * j, Bytes32(v))
  }

  lemma EntrySet(b: Block, j: nat, v: uint32, k: nat)
    requires j < 256 && k < BSIZE / 4
    ensures Entry(SetEntry(b, j, v), k) == if k == j then v else Entry(b, k)
  {
    var r := SetEntry(b, j, v);
    assert forall i :: 0 <= i < BSIZE ==> r[i] == if 4 * j <= i < 4 * j + 4 then Bytes32(v)[i - 4 * j] else b[i];
  }

  lemma EntryZero(k: nat)
    requires k < 256
    ensures Entry(ZeroBlock(), k) == 0
  {
  }

  // ---------------------------------------------------------------------------
  // Bits: b & m, b | m and b & ~m for a mask m = 1 << k
  // ---------------------------------------------------------------------------

  /** The mask `1 << k`. */
  function Mask(k: nat): (m: nat) {
    if k == 0 then 1 else 2 * Mask(k - 1)
  }

  /** `b & (1 << k)` is not zero. */
  predicate Bit(b: nat, k: nat) {
    if k == 0 then b % 2 == 1 else Bit(b / 2, k - 1)
  }

  function OrMask(b: byte, k: nat): (r: byte)
    requires k < 8
    ensures forall j :: 0 <= j < 8 ==> (Bit(r, j) <==> j == k || Bit(b, j))
  {
    MaskBits(b, k);
    if Bit(b, k) then b else b + Mask(k)
  }

  function AndNotMask(b: byte, k: nat): (r: byte)
    requires k < 8
    ensures forall j :: 0 <= j < 8 ==> (Bit(r, j) <==> j != k && Bit(b, j))
  {
    MaskBits(b, k);
    if Bit(b, k) then b - Mask(k) else b
  }

  lemma MaskBits(b: byte, k: nat)
    requires k < 8
    ensures !Bit(b, k) ==> b + Mask(k) < 256 && forall j :: 0 <= j < 8 ==>
            (Bit(b + Mask(k), j) <==> j == k || Bit(b, j))
    ensures Bit(b, k) ==> Mask(k) <= b && forall j :: 0 <= j < 8 ==> (Bit(b - Mask(k), j) <==> j != k && Bit(b, j))
  {
    if Bit(b, k) {
      SubMask(b, k);
      var r := b - Mask(k);
      forall j | 0 <= j < 8 ensures Bit(r, j) <==> j != k && Bit(b, j) { AddMask(r, k, j); }
    } else {
      AddMaskBelow(b, k, 8);
      var r := b + Mask(k);
      forall j | 0 <= j < 8 ensures Bit(r, j) <==> j == k || Bit(b, j) { AddMask(b, k, j); }
    }
  }

  /** Adding a mask whose bit is clear sets that bit and no other. */
  lemma {:induction false} AddMask(b: nat, k: nat, j: nat)
    requires !Bit(b, k)
    ensures Bit(b + Mask(k), j) <==> j == k || Bit(b, j)
  {
    if k != 0 {
      assert (b + Mask(k)) / 2 == b / 2 + Mask(k - 1);
      if j != 0 {
        AddMask(b / 2, k - 1, j - 1);
      }
    } else if j != 0 {
      assert (b + 1) / 2 == b / 2;
    }
  }

  /** Setting bit `k` of an `n`-bit number gives an `n`-bit number. */
  lemma {:induction false} AddMaskBelow(b: nat, k: nat, n: nat)
    requires k < n && b < Mask(n) && !Bit(b, k)
    ensures b + Mask(k) < Mask(n)
  {
    if k != 0 {
      AddMaskBelow(b / 2, k - 1, n - 1);
    }
  }

  lemma {:induction false} SubMask(b: nat, k: nat)
    requires Bit(b, k)
    ensures Mask(k) <= b && !Bit(b - Mask(k), k)
  {
    if k != 0 {
      SubMask(b / 2, k - 1);
      assert (b - Mask(k)) / 2 == b / 2 - Mask(k - 1);
    }
  }
}
