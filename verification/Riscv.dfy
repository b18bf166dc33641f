/**
  Sv39 addresses and page-table entries, as the macros of `kernel/riscv.h` compute them
  (section 4.4 of the RISC-V Privileged Architecture manual).  Shifts and masks by powers
  of two are written as division and remainder.
 */
module Riscv {

  const PGSIZE: nat := 4096
  const MAXVA: nat := 0x40_0000_0000      // 1 << 38
  const MAXVPN: nat := 0x400_0000         // MAXVA / PGSIZE
  const PHYSTOP: nat := 0x8800_0000

  function PGROUNDDOWN(a: nat): (r: nat) { a / 4096 * 4096 }

  function PGROUNDUP(a: nat): (r: nat) { (a + 4095) / 4096 * 4096 }

  const PTE_V: nat := 1
  const PTE_R: nat := 2
  const PTE_W: nat := 4
  const PTE_X: nat := 8
  const PTE_U: nat := 16

  /** Bit `m` (a power of two) of an entry. */
  predicate Has(pte: nat, m: nat)
    requires m > 0
  {
    pte / m % 2 == 1
  }

  function PA2PTE(pa: nat): (x: nat) { pa / 4096 * 1024 }

  function PTE2PA(pte: nat): (pa: nat) { pte / 1024 * 4096 }

  function PTE_FLAGS(pte: nat): (f: nat) { pte % 1024 }

  /** PA2PTE(pa) | flags, the flags being the low ten bits. */
  function MakePte(pa: nat, flags: nat): (pte: nat)
    requires flags < 1024
  {
    PA2PTE(pa) + flags
  }

  /** An entry, page number above ten bits of flags, gives back the page and the flags it was made of. */
  lemma PteRoundTrip(pa: nat, flags: nat)
    requires pa % 4096 == 0 && flags < 1024
    ensures PTE2PA(MakePte(pa, flags)) == pa && PTE_FLAGS(MakePte(pa, flags)) == flags
    ensures MakePte(pa, flags) % 2 == flags % 2
    ensures MakePte(pa, flags) / 1024 == pa / 4096 && MakePte(pa, flags) % 1024 == flags
  {
    var p := pa / 4096;
    assert pa == 4096 * p;
    PteParts(p, flags);
  }

  lemma PteParts(p: nat, flags: nat)
    requires flags < 1024
    ensures (1024 * p + flags) / 1024 == p && (1024 * p + flags) % 1024 == flags
    ensures (1024 * p + flags) % 2 == flags % 2
  {
    EvenPart(512 * p + flags / 2, flags % 2);
    assert 1024 * p + flags == 2 * (512 * p + flags / 2) + flags % 2;
  }

  lemma EvenPart(x: nat, r: nat)
    requires r < 2
    ensures (2 * x + r) % 2 == r
  {
  }

  /** PX(level, va): the nine bits of the virtual page number for a level. */
  function PX(level: nat, va: nat): (i: nat)
    requires level <= 2
    ensures i < 512
  {
    if level == 0 then va / 0x1000 % 512
    else if level == 1 then va / 0x20_0000 % 512
    else va / 0x4000_0000 % 512
  }

  /** The position of a page's table at a level: 0 for the root, then the page number without its low bits. */
  function Key(level: nat, vpn: nat): (k: nat)
    requires level <= 2
  {
    if level == 0 then vpn / 512 else if level == 1 then vpn / 0x4_0000 else 0
  }

  /** How the indices of a walk refine the page number, step by step. */
  lemma WalkIndices(va: nat)
    requires va < MAXVA
    ensures var v := va / 4096;
            && v < MAXVPN
            && PX(2, va) == Key(1, v)
            && Key(0, v) == 512 * Key(1, v) + PX(1, va)
            && v == 512 * Key(0, v) + PX(0, va)
  {
    var v := va / 4096;
    assert va / 0x20_0000 == v / 512;
    assert va / 0x4000_0000 == v / 0x4_0000;
    assert v / 0x4_0000 == v / 512 / 512;
  }

  /** Distinct pages below MAXVA differ in some index. */
  lemma IndicesDistinct(a: nat, b: nat)
    requires a < MAXVA && b < MAXVA && a % 4096 == 0 && b % 4096 == 0 && a != b
    ensures PX(2, a) != PX(2, b) || PX(1, a) != PX(1, b) || PX(0, a) != PX(0, b)
  {
    WalkIndices(a);
    WalkIndices(b);
  }
}
