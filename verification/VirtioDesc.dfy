/**
  The descriptor table of the virtio disk driver (`kernel/virtio_disk.c`).

  Addresses that the driver hands to the device are modelled by what they point to.
 */
module VirtioDesc {

  const NUM := 8

  datatype Addr = Null | Header(i: nat) | Contents(b: nat) | Status(i: nat)

  /** `more` is VRING_DESC_F_NEXT and `write` is VRING_DESC_F_WRITE. */
  datatype Desc = Desc(addr: Addr, len: nat, more: bool, write: bool, next: nat)

  const CLEAR := Desc(Null, 0, false, false, 0)

  // ---------------------------------------------------------------------------
  // Specification
  // ---------------------------------------------------------------------------

  function CountFree(free: seq<bool>): (k: nat)
    ensures k <= |free|
  {
    if free == [] then 0 else (if free[|free| - 1] then 1 else 0) + CountFree(free[..|free| - 1])
  }

  /** Every free descriptor is cleared. */
  ghost predicate FreeAreClear(free: seq<bool>, desc: seq<Desc>) {
    |free| == |desc| && forall i :: 0 <= i < |free| && free[i] ==> desc[i] == CLEAR
  }

  /** i is the lowest free descriptor. */
  ghost predicate LowestFree(free: seq<bool>, i: nat) {
    i < |free| && free[i] && forall j :: 0 <= j < i ==> !free[j]
  }

  /** The descriptors that a chain starting at i visits, in order. */
  ghost predicate IsChain(desc: seq<Desc>, chain: seq<nat>) {
    && |chain| > 0
    && (forall k :: 0 <= k < |chain| ==> chain[k] < |desc| && desc[chain[k]].more == (k < |chain| - 1))
    && (forall k :: 0 <= k < |chain| - 1 ==> desc[chain[k]].next == chain[k + 1])
    && (forall k, l :: 0 <= k < l < |chain| ==> chain[k] != chain[l])
  }

  function SetAll<T>(s: seq<T>, chain: seq<nat>, v: T): (r: seq<T>)
    requires forall k :: 0 <= k < |chain| ==> chain[k] < |s|
    ensures |r| == |s|
  {
    if chain == [] then s else SetAll(s, chain[..|chain| - 1], v)[chain[|chain| - 1] := v]
  }

  lemma {:induction false} SetAllAt<T>(s: seq<T>, chain: seq<nat>, v: T, i: nat)
    requires (forall k :: 0 <= k < |chain| ==> chain[k] < |s|) && i < |s|
    ensures SetAll(s, chain, v)[i] == if i in chain then v else s[i]
  {
    if chain != [] {
      SetAllAt(s, chain[..|chain| - 1], v, i);
      assert chain == chain[..|chain| - 1] + [chain[|chain| - 1]];
    }
  }

  lemma {:induction false} CountFreeUpdate(free: seq<bool>, i: nat, v: bool)
    requires i < |free|
    ensures CountFree(free[i := v]) == CountFree(free) - (if free[i] then 1 else 0) + (if v then 1 else 0)
  {
    var m := |free| - 1;
    if i == m {
      assert free[i := v][..m] == free[..m];
    } else {
      assert free[i := v][..m] == free[..m][i := v];
      CountFreeUpdate(free[..m], i, v);
    }
  }

  lemma {:induction false} CountFreeZero(free: seq<bool>)
    requires forall j :: 0 <= j < |free| ==> !free[j]
    ensures CountFree(free) == 0
  {
    if free != [] {
      CountFreeZero(free[..|free| - 1]);
    }
  }

  // ---------------------------------------------------------------------------
  // The driver's operations
  // ---------------------------------------------------------------------------

  class Table {
    const free: array<bool>
    const desc: array<Desc>

    /** The threads asleep on &disk.free[0]. */
    var asleep: set<nat>

    ghost predicate Valid()
      reads this, free, desc
    {
      free.Length == NUM && desc.Length == NUM && FreeAreClear(free[..], desc[..])
    }

    constructor ()
      ensures Valid() && fresh(free) && fresh(desc) && CountFree(free[..]) == NUM && asleep == {}
    {
      free := new bool[NUM](_ => true);
      desc := new Desc[NUM](_ => CLEAR);
      asleep := {};
      new;
      AllFree(free[..]);
    }

    /** alloc_desc: the lowest free descriptor, or -1 when there is none. */
    method AllocDesc() returns (r: int)
      requires Valid()
      modifies free
      ensures Valid() && -1 <= r < NUM
      ensures r >= 0 ==> LowestFree(old(free[..]), r) && free[..] == old(free[..])[r := false]
      ensures r >= 0 ==> CountFree(free[..]) == CountFree(old(free[..])) - 1
      ensures r == -1 ==> free[..] == old(free[..]) && CountFree(free[..]) == 0
    {
      var i := 0;
      while i < NUM
        invariant 0 <= i <= NUM && free[..] == old(free[..]) && forall j :: 0 <= j < i ==> !free[j]
      {
        if free[i] {
          CountFreeUpdate(free[..], i, false);
          free[i] := false;
          assert free[..] == old(free[..])[i := false];
          return i;
        }
        i := i + 1;
      }
      CountFreeZero(free[..]);
      return -1;
    }

    /** free_desc, with its wakeup; its two panics are excluded by its caller. */
    method FreeDesc(i: nat)
      requires Valid() && i < NUM && !free[i]
      modifies this, free, desc
      ensures Valid() && free[..] == old(free[..])[i := true] && desc[..] == old(desc[..])[i := CLEAR]
      ensures CountFree(free[..]) == CountFree(old(free[..])) + 1 && asleep == {}
    {
      CountFreeUpdate(free[..], i, true);
      desc[i] := CLEAR;
      free[i] := true;
      asleep := {};
      assert free[..] == old(free[..])[i := true];
    }

    /** free_chain: frees exactly the descriptors of the chain that starts at i, and wakes who waits for them. */
    method FreeChain(i: nat, ghost chain: seq<nat>)
      requires Valid() && IsChain(desc[..], chain) && chain[0] == i
      requires forall k :: 0 <= k < |chain| ==> !free[chain[k]]
      modifies this, free, desc
      ensures Valid() && free[..] == SetAll(old(free[..]), chain, true)
      ensures desc[..] == SetAll(old(desc[..]), chain, CLEAR) && asleep == {}
    {
      var i := i;
      ghost var k := 0;
      ghost var f, d := free[..], desc[..];
      assert chain[..0] == [];
      while true
        invariant Valid() && 0 <= k < |chain| && i == chain[k]
        invariant free[..] == SetAll(f, chain[..k], true) && desc[..] == SetAll(d, chain[..k], CLEAR)
        decreases |chain| - k
      {
        SetAllAt(f, chain[..k], true, i);
        SetAllAt(d, chain[..k], CLEAR, i);
        var flag, nxt := desc[i].more, desc[i].next;
        FreeDesc(i);
        assert chain[..k + 1][..k] == chain[..k];
        if flag {
          i := nxt;
          k := k + 1;
        } else {
          assert chain[..k + 1] == chain;
          break;
        }
      }
    }

    /**
      alloc3_desc: three different free descriptors, or, when there are fewer than three, the same
      ones free as before; giving back what it had taken wakes who waits for descriptors.
     */
    method Alloc3Desc() returns (ok: bool, idx: seq<nat>)
      requires Valid()
      modifies this, free, desc
      ensures Valid() && desc[..] == old(desc[..])
      ensures ok <==> CountFree(old(free[..])) >= 3
      ensures ok ==> |idx| == 3 && (forall k :: 0 <= k < 3 ==> idx[k] < NUM && old(free[..])[idx[k]])
      ensures ok ==>
                && idx[0] != idx[1] && idx[1] != idx[2] && idx[0] != idx[2]
                && free[..] == SetAll(old(free[..]), idx, false)
      ensures !ok ==> free[..] == old(free[..])
      ensures asleep == if !ok && CountFree(old(free[..])) > 0 then {} else old(asleep)
    {
      ghost var f, d := free[..], desc[..];
      idx := [];
      var i := 0;
      while i < 3
        invariant 0 <= i <= 3 && |idx| == i && Valid() && desc[..] == d
        invariant forall k :: 0 <= k < i ==> idx[k] < NUM && f[idx[k]]
        invariant forall k, l :: 0 <= k < l < i ==> idx[k] != idx[l]
        invariant free[..] == SetAll(f, idx, false) && CountFree(free[..]) == CountFree(f) - i && asleep == old(asleep)
      {
        var r := AllocDesc();
        if r < 0 {
          Rollback(idx, f, d);
          return false, idx;
        }
        SetAllAt(f, idx, false, r);
        assert (idx + [r])[..i] == idx;
        idx := idx + [r];
        i := i + 1;
      }
      return true, idx;
    }

    /** The inner loop of alloc3_desc. */
    method Rollback(idx: seq<nat>, ghost f: seq<bool>, ghost d: seq<Desc>)
      requires Valid() && |f| == NUM && desc[..] == d && FreeAreClear(f, d)
      requires forall k :: 0 <= k < |idx| ==> idx[k] < NUM && f[idx[k]]
      requires forall k, l :: 0 <= k < l < |idx| ==> idx[k] != idx[l]
      requires free[..] == SetAll(f, idx, false)
      modifies this, free, desc
      ensures Valid() && free[..] == f && desc[..] == d && asleep == if idx == [] then old(asleep) else {}
    {
      var j := 0;
      assert idx[0..] == idx;
      while j < |idx|
        invariant 0 <= j <= |idx| && Valid() && desc[..] == d && free[..] == SetAll(f, idx[j..], false)
        invariant asleep == if j == 0 then old(asleep) else {}
      {
        SetAllAt(f, idx[j..], false, idx[j]);
        FreeAgain(f, idx[j..]);
        assert idx[j..][1..] == idx[j + 1..];
        FreeDesc(idx[j]);
        assert desc[..] == d;
        j := j + 1;
      }
    }
  }

  /** Freeing the first of some descriptors just taken leaves the others taken. */
  lemma FreeAgain(f: seq<bool>, idx: seq<nat>)
    requires |idx| > 0 && (forall k :: 0 <= k < |idx| ==> idx[k] < |f| && f[idx[k]]) &&
            (forall k, l :: 0 <= k < l < |idx| ==> idx[k] != idx[l])
    ensures SetAll(f, idx, false)[idx[0] := true] == SetAll(f, idx[1..], false)
  {
    hide SetAll;
    forall m: nat | m < |f| ensures SetAll(f, idx, false)[idx[0] := true][m] == SetAll(f, idx[1..], false)[m] {
      SetAllAt(f, idx, false, m);
      SetAllAt(f, idx[1..], false, m);
      assert m in idx <==> m == idx[0] || m in idx[1..];
    }
  }

  lemma {:induction false} AllFree(free: seq<bool>)
    requires forall i :: 0 <= i < |free| ==> free[i]
    ensures CountFree(free) == |free|
  {
    if free != [] {
      AllFree(free[..|free| - 1]);
    }
  }
}
