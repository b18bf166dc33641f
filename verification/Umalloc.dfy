/**
  The user-level allocator of `user/umalloc.c`.

  Addresses are counted in units of one Header (16 bytes).  The free list is circular, ordered by
  address, and starts at the static header `base`, which lies below every block.  sbrk is a
  parameter of malloc: the address of the memory it would return, or -1.
 */
module Umalloc {

  /** The header fields of the blocks, by address. */
  type Fields = map<nat, nat>

  // ---------------------------------------------------------------------------
  // The free list
  // ---------------------------------------------------------------------------

  /** `list` is the free list from base on: increasing addresses, linked into a ring. */
  ghost predicate Listed(ptr: Fields, list: seq<nat>, base: nat) {
    && |list| > 0 && list[0] == base && Sorted(list)
    && (forall i :: 0 <= i < |list| ==> LinkAt(ptr, list, i))
  }

  ghost predicate LinkAt(ptr: Fields, list: seq<nat>, i: nat)
    requires i < |list|
  {
    list[i] in ptr && ptr[list[i]] == Next(list, i)
  }

  function Next(list: seq<nat>, i: nat): (a: nat)
    requires i < |list|
  {
    if i + 1 < |list| then list[i + 1] else list[0]
  }

  /** Free blocks have room for at least a header, base has none, and no two are adjacent. */
  ghost predicate Spaced(size: Fields, list: seq<nat>) {
    && |list| > 0 && list[0] in size && size[list[0]] == 0
    && (forall i :: 0 < i < |list| ==> list[i] in size && size[list[i]] >= 1)
    && (forall i :: 0 < i < |list| - 1 ==> list[i] + size[list[i]] < list[i + 1])
  }

  // ---------------------------------------------------------------------------
  // Every unit obtained from sbrk is in exactly one block
  // ---------------------------------------------------------------------------

  ghost predicate IsBlock(list: seq<nat>, live: set<nat>, b: nat) { b in live || (list != [] && b in list[1..]) }

  /** `owner` gives the block of every unit that was obtained from sbrk. */
  ghost predicate Owned(size: Fields, list: seq<nat>, live: set<nat>, owner: map<nat, nat>, base: nat) {
    && (forall b: nat :: IsBlock(list, live, b) ==> b > base && b in size && size[b] >= 1)
    && (forall b: nat, u: nat :: IsBlock(list, live, b) && b <= u < b + size[b] ==> u in owner && owner[u] == b)
    && (forall u :: u in owner ==> IsBlock(list, live, owner[u]) && owner[u] <= u < owner[u] + size[owner[u]])
    && (forall b: nat :: b in live ==> b !in list)
  }

  /** Blocks do not overlap. */
  lemma Disjoint(size: Fields, list: seq<nat>, live: set<nat>, owner: map<nat, nat>, base: nat, a: nat, b: nat)
    requires Owned(size, list, live, owner, base) && IsBlock(list, live, a) && IsBlock(list, live, b) && a < b
    ensures a in size && a + size[a] <= b
  {
    assert b in owner && owner[b] == b;
  }

  /** Where a block at `bp` belongs: behind the last free block below it. */
  ghost predicate Place(list: seq<nat>, bp: nat, k: nat) {
    k < |list| && list[k] < bp && (k + 1 < |list| ==> bp < list[k + 1])
  }

  lemma {:induction false} PlaceExists(list: seq<nat>, bp: nat, n: nat) returns (k: nat)
    requires 0 < n <= |list| && list[0] < bp && bp !in list
    requires Sorted(list)
    ensures k < n && list[k] < bp && (k + 1 < n ==> bp < list[k + 1])
  {
    if n == 1 || list[n - 1] < bp {
      k := n - 1;
    } else {
      k := PlaceExists(list, bp, n - 1);
    }
  }

  // ---------------------------------------------------------------------------
  // Freeing a block
  // ---------------------------------------------------------------------------

  /** The new list: bp joins it unless it is merged with the block below; the block above leaves it if merged. */
  function NewList(list: seq<nat>, k: nat, bp: nat, up: bool, low: bool): (r: seq<nat>)
    requires k < |list| && (up ==> k + 1 < |list|)
  {
    list[..k + 1] + (if low then [] else [bp]) + list[if up then k + 2 else k + 1..]
  }

  /** What free makes of the sizes. */
  function NewSize(size: Fields, list: seq<nat>, k: nat, bp: nat, up: bool, low: bool): (r: Fields)
    requires k < |list| && bp in size && (up ==> k + 1 < |list| && list[k + 1] in size) && (low ==> list[k] in size)
  {
    var s1 := if up then size[bp := size[bp] + size[list[k + 1]]] else size;
    if low then s1[list[k] := size[list[k]] + s1[bp]] else s1
  }

  /**
    bp may be freed behind the k-th free block: it lies between its neighbours, and is merged with
    those it touches.
   */
  ghost predicate Fits(size: Fields, list: seq<nat>, k: nat, bp: nat, up: bool, low: bool) {
    && Place(list, bp, k) && bp in size && size[bp] >= 1 && list[k] in size
    && (up <==> k + 1 < |list| && bp + size[bp] == list[k + 1])
    && (low <==> list[k] + size[list[k]] == bp)
    && (k + 1 < |list| ==> bp + size[bp] <= list[k + 1])
    && list[k] + size[list[k]] <= bp
  }

  /** base has no units, so nothing is merged with it. */
  lemma NotBase(size: Fields, list: seq<nat>, k: nat, bp: nat, up: bool, low: bool)
    requires Spaced(size, list) && Fits(size, list, k, bp, up, low)
    ensures low ==> k > 0
  {
  }

  /** A block that is not on the list fits where the search puts it. */
  lemma FitsAt(size: Fields, list: seq<nat>, live: set<nat>, owner: map<nat, nat>, base: nat, k: nat, bp: nat)
    requires Spaced(size, list) && Owned(size, list, live, owner, base) && bp in live && Place(list, bp, k) &&
            list[0] == base
    ensures Fits(size, list, k, bp, k + 1 < |list| && bp + size[bp] == list[k + 1], list[k] + size[list[k]] == bp)
  {
    if k > 0 {
      assert list[k] == list[1..][k - 1];
      Disjoint(size, list, live, owner, base, list[k], bp);
    }
    if k + 1 < |list| {
      assert list[k + 1] == list[1..][k];
      Disjoint(size, list, live, owner, base, bp, list[k + 1]);
    }
  }

  /** The elements of the new list. */
  lemma NewListAt(list: seq<nat>, k: nat, bp: nat, up: bool, low: bool, i: nat)
    requires k < |list| && (up ==> k + 1 < |list|) && i < |NewList(list, k, bp, up, low)|
    ensures |NewList(list, k, bp, up, low)| == |list| + (if low then 0 else 1) - (if up then 1 else 0)
    ensures NewList(list, k, bp, up, low)[i] ==
      if i <= k then list[i] else if i == k + 1 && !low then bp
          else list[i - (if low then 0 else 1) + (if up then 1 else 0)]
  {
  }

  ghost predicate Sorted(list: seq<nat>) { forall i, j :: 0 <= i < j < |list| ==> list[i] < list[j] }

  lemma NewSorted(size: Fields, list: seq<nat>, k: nat, bp: nat, up: bool, low: bool)
    requires Sorted(list) && Fits(size, list, k, bp, up, low)
    ensures Sorted(NewList(list, k, bp, up, low))
  {
    var l := NewList(list, k, bp, up, low);
    forall i, j | 0 <= i < j < |l| ensures l[i] < l[j] {
      NewListAt(list, k, bp, up, low, i);
      NewListAt(list, k, bp, up, low, j);
    }
  }

  /** The size of the i-th block of the new list. */
  lemma NewSizeAt(size: Fields, list: seq<nat>, k: nat, bp: nat, up: bool, low: bool, j: nat)
    requires Spaced(size, list) && Sorted(list) && Fits(size, list, k, bp, up, low) && j < |list| && j != k
    ensures list[j] in NewSize(size, list, k, bp, up, low) &&
            NewSize(size, list, k, bp, up, low)[list[j]] == size[list[j]]
  {
    assert list[j] != list[k] && list[j] != bp;
  }

  lemma NewGap(size: Fields, list: seq<nat>, k: nat, bp: nat, up: bool, low: bool, i: nat)
    requires Spaced(size, list) && Sorted(list) && Fits(size, list, k, bp, up, low)
    requires 0 < i < |NewList(list, k, bp, up, low)|
    ensures var l, s := NewList(list, k, bp, up, low), NewSize(size, list, k, bp, up, low);
      l[i] in s && s[l[i]] >= 1 && (i + 1 < |l| ==> l[i] + s[l[i]] < l[i + 1])
  {
    NotBase(size, list, k, bp, up, low);
    var l := NewList(list, k, bp, up, low);
    NewListAt(list, k, bp, up, low, i);
    if i + 1 < |l| {
      NewListAt(list, k, bp, up, low, i + 1);
    }
    hide NewList;
    var j := if i <= k then i else i - (if low then 0 else 1) + (if up then 1 else 0);
    if j != k && !(i == k + 1 && !low) {
      NewSizeAt(size, list, k, bp, up, low, j);
    }
  }

  lemma NewSpaced(size: Fields, list: seq<nat>, k: nat, bp: nat, up: bool, low: bool)
    requires Spaced(size, list) && Sorted(list) && Fits(size, list, k, bp, up, low)
    ensures Spaced(NewSize(size, list, k, bp, up, low), NewList(list, k, bp, up, low))
  {
    NotBase(size, list, k, bp, up, low);
    var l, s := NewList(list, k, bp, up, low), NewSize(size, list, k, bp, up, low);
    NewListAt(list, k, bp, up, low, 0);
    assert list[0] != bp && (low ==> list[0] != list[k]);
    assert l[0] in s && s[l[0]] == 0;
    hide NewList, NewSize, Fits;
    forall i | 0 < i < |l| ensures l[i] in s && s[l[i]] >= 1 && (i + 1 < |l| ==> l[i] + s[l[i]] < l[i + 1]) {
      NewGap(size, list, k, bp, up, low, i);
    }
  }

  /** The two tests of the search of free together hold exactly at the place of bp. */
  lemma AtPlace(list: seq<nat>, bp: nat, k: nat)
    requires Sorted(list) && k < |list| && list[0] < bp && bp !in list
    ensures var p, nx := list[k], Next(list, k);
      Place(list, bp, k) <==> (bp > p && bp < nx) || (p >= nx && (bp > p || bp < nx))
  {
  }

  /** What free makes of the links. */
  function NewPtr(ptr: Fields, list: seq<nat>, k: nat, bp: nat, up: bool, low: bool): (r: Fields)
    requires k < |list| && list[k] in ptr && (up ==> k + 1 < |list| && list[k + 1] in ptr)
  {
    var p1 := ptr[bp := if up then ptr[list[k + 1]] else ptr[list[k]]];
    p1[list[k] := if low then p1[bp] else bp]
  }

  lemma NewLink(ptr: Fields, size: Fields, list: seq<nat>, base: nat, k: nat, bp: nat, up: bool, low: bool, i: nat)
    requires Listed(ptr, list, base) && Fits(size, list, k, bp, up, low) && i < |NewList(list, k, bp, up, low)|
    requires LinkAt(ptr, list, k) && (up ==> LinkAt(ptr, list, k + 1))
    ensures LinkAt(NewPtr(ptr, list, k, bp, up, low), NewList(list, k, bp, up, low), i)
  {
    hide NewList;
    var l := NewList(list, k, bp, up, low);
    NewListAt(list, k, bp, up, low, i);
    NewListAt(list, k, bp, up, low, 0);
    if i + 1 < |l| {
      NewListAt(list, k, bp, up, low, i + 1);
    }
    var j := if i <= k then i else i - (if low then 0 else 1) + (if up then 1 else 0);
    if i <= k || !(i == k + 1 && !low) {
      assert LinkAt(ptr, list, j);
      assert j != k ==> list[j] != list[k];
    }
  }

  lemma NewListed(ptr: Fields, size: Fields, list: seq<nat>, base: nat, k: nat, bp: nat, up: bool, low: bool)
    requires Listed(ptr, list, base) && Fits(size, list, k, bp, up, low) && LinkAt(ptr, list, k) &&
            (up ==> LinkAt(ptr, list, k + 1))
    ensures Listed(NewPtr(ptr, list, k, bp, up, low), NewList(list, k, bp, up, low), base)
  {
    assert LinkAt(ptr, list, k) && (up ==> LinkAt(ptr, list, k + 1));
    NewSorted(size, list, k, bp, up, low);
    NewListAt(list, k, bp, up, low, 0);
    var l, q := NewList(list, k, bp, up, low), NewPtr(ptr, list, k, bp, up, low);
    hide NewList, NewPtr, Fits;
    assert LinkAt(ptr, list, k) && (up ==> LinkAt(ptr, list, k + 1));
    forall i | 0 <= i < |l| ensures LinkAt(q, l, i) {
      NewLink(ptr, size, list, base, k, bp, up, low, i);
    }
  }

  /** bp becomes a free block, or part of the one below; the one above disappears if it was merged. */
  lemma NewBlocks(size: Fields, list: seq<nat>, live: set<nat>, k: nat, bp: nat, up: bool, low: bool, b: nat)
    requires Sorted(list) && Fits(size, list, k, bp, up, low) && (forall a :: a in live ==> a !in list)
    ensures IsBlock(NewList(list, k, bp, up, low), live - {bp}, b) <==>
      (b == bp && !low) || (b != bp && IsBlock(list, live, b) && !(up && b == list[k + 1]))
    ensures b in live - {bp} ==> b !in NewList(list, k, bp, up, low)
  {
    var l := NewList(list, k, bp, up, low);
    assert forall i :: 1 <= i < |list| ==> list[1..][i - 1] == list[i];
    assert forall i :: 1 <= i < |l| ==> l[1..][i - 1] == l[i];
    InNewList(list, k, bp, up, low, b);
    NewListAt(list, k, bp, up, low, 0);
    hide NewList;
  }

  lemma InNewList(list: seq<nat>, k: nat, bp: nat, up: bool, low: bool, b: nat)
    requires k < |list| && (up ==> k + 1 < |list|) && Sorted(list)
    ensures b in NewList(list, k, bp, up, low) <==> (b == bp && !low) || (b in list && !(up && b == list[k + 1]))
  {
    var l := NewList(list, k, bp, up, low);
    if b in list {
      var i :| 0 <= i < |list| && list[i] == b;
      if i <= k {
        assert l[i] == b;
      } else if !(up && i == k + 1) {
        assert l[i + (if low then 0 else 1) - (if up then 1 else 0)] == b;
      }
    }
    if !low {
      assert l[k + 1] == bp;
    }
  }

  /** The units of merged blocks go to the block they are merged into. */
  function NewOwner(owner: map<nat, nat>, list: seq<nat>, k: nat, bp: nat, up: bool, low: bool): (r: map<nat, nat>)
    requires k < |list| && (up ==> k + 1 < |list|)
  {
    map u | u in owner :: if owner[u] == bp || (up && owner[u] == list[k + 1]) then (if low then list[k] else bp)
        else owner[u]
  }

  /** bp is a live block that is freed behind the k-th free block. */
  ghost predicate Freeing(size: Fields, list: seq<nat>, live: set<nat>, owner: map<nat, nat>, base: nat, k: nat,
                          bp: nat, up: bool, low: bool) {
    && Sorted(list) && Spaced(size, list) && Owned(size, list, live, owner, base) && Fits(size, list, k, bp, up, low)
    && bp in live && list[0] == base
  }

  /** Sizes after the merge, by block. */
  lemma MergedSize(size: Fields, list: seq<nat>, live: set<nat>, owner: map<nat, nat>, base: nat, k: nat, bp: nat,
                   up: bool, low: bool, b: nat)
    requires Freeing(size, list, live, owner, base, k, bp, up, low)
    requires IsBlock(NewList(list, k, bp, up, low), live - {bp}, b)
    ensures var s := NewSize(size, list, k, bp, up, low); var upper := if up then size[list[k + 1]] else 0;
      && b in s && b > base && s[b] >= 1
      && s[b] == (if b == bp then size[bp] + upper else if low && b == list[k] then size[list[k]] + size[bp] + upper
          else size[b])
  {
    NewBlocks(size, list, live, k, bp, up, low, b);
    NotBase(size, list, k, bp, up, low);
    assert list[k] != bp;
    assert bp > base && IsBlock(list, live, bp);
    hide NewList;
  }

  lemma MergedUnit(size: Fields, list: seq<nat>, live: set<nat>, owner: map<nat, nat>, base: nat, k: nat, bp: nat,
                   up: bool, low: bool, b: nat, u: nat)
    requires Freeing(size, list, live, owner, base, k, bp, up, low)
    requires IsBlock(NewList(list, k, bp, up, low), live - {bp}, b)
    requires b in NewSize(size, list, k, bp, up, low) && b <= u < b + NewSize(size, list, k, bp, up, low)[b]
    ensures var o := NewOwner(owner, list, k, bp, up, low); u in o && o[u] == b
  {
    NewBlocks(size, list, live, k, bp, up, low, b);
    MergedSize(size, list, live, owner, base, k, bp, up, low, b);
    NotBase(size, list, k, bp, up, low);
    assert IsBlock(list, live, bp);
    if k > 0 { assert list[k] == list[1..][k - 1]; assert IsBlock(list, live, list[k]); }
    if up { assert list[k + 1] == list[1..][k]; assert IsBlock(list, live, list[k + 1]); }
    hide NewList, NewSize, Spaced, Sorted;
  }

  lemma MergedOwner(size: Fields, list: seq<nat>, live: set<nat>, owner: map<nat, nat>, base: nat, k: nat, bp: nat,
                    up: bool, low: bool, u: nat)
    requires Freeing(size, list, live, owner, base, k, bp, up, low) && u in owner
    ensures var b := NewOwner(owner, list, k, bp, up, low)[u]; var s := NewSize(size, list, k, bp, up, low);
      IsBlock(NewList(list, k, bp, up, low), live - {bp}, b) && b in s && b <= u < b + s[b]
  {
    var b := NewOwner(owner, list, k, bp, up, low)[u];
    NotBase(size, list, k, bp, up, low);
    if low { assert list[k] == list[1..][k - 1]; assert IsBlock(list, live, list[k]); }
    NewBlocks(size, list, live, k, bp, up, low, b);
    assert low && up ==> list[k] != list[k + 1];
    MergedSize(size, list, live, owner, base, k, bp, up, low, b);
    hide NewList, NewSize, Spaced, Sorted;
  }

  lemma FreedOwned(size: Fields, list: seq<nat>, live: set<nat>, owner: map<nat, nat>, base: nat, k: nat, bp: nat,
                   up: bool, low: bool)
    requires Freeing(size, list, live, owner, base, k, bp, up, low)
    ensures Owned(NewSize(size, list, k, bp, up, low), NewList(list, k, bp, up, low), live - {bp},
            NewOwner(owner, list, k, bp, up, low), base)
  {
    hide Owned, IsBlock, NewList, NewSize, NewOwner;
    var s, l, o := NewSize(size, list, k, bp, up, low), NewList(list, k, bp, up, low),
        NewOwner(owner, list, k, bp, up, low);
    forall b: nat | IsBlock(l, live - {bp}, b) ensures b > base && b in s && s[b] >= 1 {
      MergedSize(size, list, live, owner, base, k, bp, up, low, b);
    }
    forall b: nat, u: nat | IsBlock(l, live - {bp}, b) && b <= u < b + s[b] ensures u in o && o[u] == b {
      MergedUnit(size, list, live, owner, base, k, bp, up, low, b, u);
    }
    forall u | u in o ensures IsBlock(l, live - {bp}, o[u]) && o[u] <= u < o[u] + s[o[u]] {
      SameUnits(owner, list, k, bp, up, low);
      MergedOwner(size, list, live, owner, base, k, bp, up, low, u);
    }
    forall b: nat | b in live - {bp} ensures b !in l {
      LiveNotListed(size, list, live, owner, base);
      NewBlocks(size, list, live, k, bp, up, low, b);
    }
    OwnedIf(s, l, live - {bp}, o, base);
  }

  lemma SameUnits(owner: map<nat, nat>, list: seq<nat>, k: nat, bp: nat, up: bool, low: bool)
    requires k < |list| && (up ==> k + 1 < |list|)
    ensures NewOwner(owner, list, k, bp, up, low).Keys == owner.Keys
  {
  }

  lemma LiveNotListed(size: Fields, list: seq<nat>, live: set<nat>, owner: map<nat, nat>, base: nat)
    requires Owned(size, list, live, owner, base)
    ensures forall a :: a in live ==> a !in list
  {
  }

  lemma OwnedIf(size: Fields, list: seq<nat>, live: set<nat>, owner: map<nat, nat>, base: nat)
    requires forall b: nat :: IsBlock(list, live, b) ==> b > base && b in size && size[b] >= 1
    requires forall b: nat, u: nat :: IsBlock(list, live, b) && b <= u < b + size[b] ==> u in owner && owner[u] == b
    requires forall u :: u in owner ==> IsBlock(list, live, owner[u]) && owner[u] <= u < owner[u] + size[owner[u]]
    requires forall b: nat :: b in live ==> b !in list
    ensures Owned(size, list, live, owner, base)
  {
  }

  // ---------------------------------------------------------------------------
  // Allocating a block
  // ---------------------------------------------------------------------------

  function Without(list: seq<nat>, j: nat): (r: seq<nat>)
    requires j < |list|
  {
    list[..j] + list[j + 1..]
  }

  /** Taking the whole j-th free block off the list. */
  lemma TakenListed(ptr: Fields, size: Fields, list: seq<nat>, base: nat, j: nat)
    requires Listed(ptr, list, base) && Spaced(size, list) && 0 < j < |list| && LinkAt(ptr, list, j)
    ensures Listed(ptr[list[j - 1] := ptr[list[j]]], Without(list, j), base) && Spaced(size, Without(list, j))
  {
    var l, q := Without(list, j), ptr[list[j - 1] := ptr[list[j]]];
    forall i | 0 <= i < |l| ensures LinkAt(q, l, i) {
      assert LinkAt(ptr, list, if i < j then i else i + 1);
      assert i != j - 1 ==> l[i] != list[j - 1];
    }
    assert forall i :: 0 < i < |l| ==> l[i] == list[if i < j then i else i + 1];
  }

  lemma TakenOwned(size: Fields, list: seq<nat>, live: set<nat>, owner: map<nat, nat>, base: nat, j: nat)
    requires Sorted(list) && Owned(size, list, live, owner, base) && 0 < j < |list|
    ensures Owned(size, Without(list, j), live + {list[j]}, owner, base) && list[j] !in live && list[j] in size
  {
    var l := Without(list, j);
    assert list[j] in list;
    forall b: nat ensures IsBlock(l, live + {list[j]}, b) <==> IsBlock(list, live, b) { SameBlocks(list, live, j, b); }
    forall b: nat | b in live + {list[j]} ensures b !in l {
      assert forall i :: 0 <= i < |l| ==> l[i] == list[if i < j then i else i + 1];
    }
    hide IsBlock;
  }

  lemma SameBlocks(list: seq<nat>, live: set<nat>, j: nat, b: nat)
    requires Sorted(list) && 0 < j < |list|
    ensures IsBlock(Without(list, j), live + {list[j]}, b) <==> IsBlock(list, live, b)
  {
    var l := Without(list, j);
    assert l[1..] == list[1..j] + list[j + 1..];
    assert list[1..] == list[1..j] + [list[j]] + list[j + 1..];
  }

  /** Cutting n units off the tail of the j-th free block. */
  function CutSize(size: Fields, p: nat, n: nat): (r: Fields)
    requires p in size && size[p] > n
  {
    size[p := size[p] - n][p + (size[p] - n) := n]
  }

  function CutOwner(owner: map<nat, nat>, a: nat, n: nat): (r: map<nat, nat>) {
    map u | u in owner :: if a <= u < a + n then a else owner[u]
  }

  /** The tail is no block yet. */
  lemma TailFree(size: Fields, list: seq<nat>, live: set<nat>, owner: map<nat, nat>, base: nat, p: nat, n: nat)
    requires Owned(size, list, live, owner, base) && IsBlock(list, live, p) && size[p] > n >= 1
    ensures var a := p + size[p] - n; !IsBlock(list, live, a) && a in owner && owner[a] == p && p < a
  {
    var a := p + size[p] - n;
    assert a in owner && owner[a] == p;
  }

  /** A free block other than base is a block. */
  lemma ListedBlock(list: seq<nat>, live: set<nat>, i: nat)
    requires 0 < i < |list|
    ensures IsBlock(list, live, list[i])
  {
    assert list[1..][i - 1] == list[i];
  }

  lemma CutSpaced(size: Fields, list: seq<nat>, live: set<nat>, owner: map<nat, nat>, base: nat, j: nat, n: nat)
    requires Sorted(list) && list != [] && list[0] == base && Spaced(size, list) && Owned(size, list, live, owner, base)
    requires 0 < j < |list| && size[list[j]] > n >= 1
    ensures Spaced(CutSize(size, list[j], n), list)
  {
    hide Owned, IsBlock;
    var p := list[j];
    ListedBlock(list, live, j);
    TailFree(size, list, live, owner, base, p, n);
    AboveBase(size, list, live, owner, base, p);
    var a := p + size[p] - n;
    forall i | 0 <= i < |list| ensures list[i] != a {
      if i > 0 { ListedBlock(list, live, i); }
    }
  }

  lemma AboveBase(size: Fields, list: seq<nat>, live: set<nat>, owner: map<nat, nat>, base: nat, u: nat)
    requires Owned(size, list, live, owner, base)
    ensures (u in owner ==> u > base) && (IsBlock(list, live, u) ==>
            u > base && u in size && size[u] >= 1 && u in owner && owner[u] == u)
  {
  }

  lemma CutBlocks(size: Fields, list: seq<nat>, live: set<nat>, owner: map<nat, nat>, base: nat, p: nat, n: nat, b: nat)
    requires Owned(size, list, live, owner, base) && IsBlock(list, live, p) && size[p] > n >= 1
    ensures var a := p + size[p] - n; var s := CutSize(size, p, n);
      && (IsBlock(list, live + {a}, b) <==> IsBlock(list, live, b) || b == a)
      && (IsBlock(list, live, b) ==> b in size && b > base && b in s && s[b] == if b == p then size[p] - n else size[b])
      && s[a] == n
  {
    TailFree(size, list, live, owner, base, p, n);
  }

  /** Cutting n units off the tail of block p. */
  ghost predicate Cutting(size: Fields, list: seq<nat>, live: set<nat>, owner: map<nat, nat>, base: nat, p: nat,
                          n: nat) {
    && p in size && size[p] > n >= 1 && IsBlock(list, live, p) && Owned(size, list, live, owner, base)
  }

  lemma CutUnit(size: Fields, list: seq<nat>, live: set<nat>, owner: map<nat, nat>, base: nat, p: nat, n: nat, a: nat,
                b: nat, u: nat)
    requires Cutting(size, list, live, owner, base, p, n) && a == p + size[p] - n && IsBlock(list, live + {a}, b)
    ensures var s, o := CutSize(size, p, n), CutOwner(owner, a, n);
      b in s && s[b] >= 1 && b > base && (b <= u < b + s[b] ==> u in o && o[u] == b)
  {
    CutBlocks(size, list, live, owner, base, p, n, b);
    CutBlocks(size, list, live, owner, base, p, n, p);
    if a <= u < a + n {
      assert u in owner && owner[u] == p;
    }
    hide CutSize;
  }

  lemma CutOwnerAt(size: Fields, list: seq<nat>, live: set<nat>, owner: map<nat, nat>, base: nat, p: nat, n: nat,
                   a: nat, u: nat)
    requires Cutting(size, list, live, owner, base, p, n) && a == p + size[p] - n && u in owner
    ensures var s, o := CutSize(size, p, n), CutOwner(owner, a, n);
      IsBlock(list, live + {a}, o[u]) && o[u] in s && o[u] <= u < o[u] + s[o[u]]
  {
    CutBlocks(size, list, live, owner, base, p, n, owner[u]);
    CutBlocks(size, list, live, owner, base, p, n, a);
    hide CutSize;
  }

  lemma CutUnits(size: Fields, list: seq<nat>, live: set<nat>, owner: map<nat, nat>, base: nat, p: nat, n: nat, a: nat,
                 s: Fields, o: map<nat, nat>)
    requires Cutting(size, list, live, owner, base, p, n) && a == p + size[p] - n && s == CutSize(size, p, n) &&
            o == CutOwner(owner, a, n)
    ensures forall b: nat :: IsBlock(list, live + {a}, b) ==> b > base && b in s && s[b] >= 1
    ensures forall b: nat, u: nat :: IsBlock(list, live + {a}, b) && b <= u < b + s[b] ==> u in o && o[u] == b
  {
    hide CutSize, IsBlock, CutOwner, Owned;
    forall b: nat | IsBlock(list, live + {a}, b) ensures b > base && b in s && s[b] >= 1 {
      CutUnit(size, list, live, owner, base, p, n, a, b, b);
    }
    forall b: nat, u: nat | IsBlock(list, live + {a}, b) && b <= u < b + s[b] ensures u in o && o[u] == b {
      CutUnit(size, list, live, owner, base, p, n, a, b, u);
    }
  }

  lemma CutOwners(size: Fields, list: seq<nat>, live: set<nat>, owner: map<nat, nat>, base: nat, p: nat, n: nat,
                  a: nat, s: Fields, o: map<nat, nat>)
    requires Cutting(size, list, live, owner, base, p, n) && a == p + size[p] - n && s == CutSize(size, p, n) &&
            o == CutOwner(owner, a, n)
    ensures forall u :: u in o ==> IsBlock(list, live + {a}, o[u]) && o[u] in s && o[u] <= u < o[u] + s[o[u]]
  {
    hide CutSize, IsBlock, CutOwner, Owned;
    CutKeys(owner, a, n);
    forall u | u in o ensures IsBlock(list, live + {a}, o[u]) && o[u] in s && o[u] <= u < o[u] + s[o[u]] {
      CutOwnerAt(size, list, live, owner, base, p, n, a, u);
    }
  }

  lemma NotListed(list: seq<nat>, live: set<nat>, a: nat)
    requires list != [] && !IsBlock(list, live, a) && a != list[0]
    ensures a !in list
  {
    assert list == [list[0]] + list[1..];
  }

  lemma CutOwned(size: Fields, list: seq<nat>, live: set<nat>, owner: map<nat, nat>, base: nat, p: nat, n: nat, a: nat)
    requires Cutting(size, list, live, owner, base, p, n) && a == p + size[p] - n && list != [] && list[0] == base
    ensures Owned(CutSize(size, p, n), list, live + {a}, CutOwner(owner, a, n), base)
  {
    var s, o := CutSize(size, p, n), CutOwner(owner, a, n);
    hide CutSize, Owned, IsBlock, CutOwner;
    CutUnits(size, list, live, owner, base, p, n, a, s, o);
    CutOwners(size, list, live, owner, base, p, n, a, s, o);
    TailFree(size, list, live, owner, base, p, n);
    AboveBase(size, list, live, owner, base, a);
    NotListed(list, live, a);
    LiveNotListed(size, list, live, owner, base);
    OwnedIf(s, list, live + {a}, o, base);
  }

  lemma CutKeys(owner: map<nat, nat>, a: nat, n: nat)
    ensures CutOwner(owner, a, n).Keys == owner.Keys
  {
  }

  // ---------------------------------------------------------------------------
  // Requests
  // ---------------------------------------------------------------------------

  /** The units malloc needs for nbytes, with the header. */
  function NUnits(nbytes: nat): (n: nat)
    ensures n >= 1 && 16 * (n - 1) >= nbytes && 16 * (n - 1) < nbytes + 16
  {
    (nbytes + 15) / 16 + 1
  }

  /** What morecore asks for: at least 4096 units. */
  function MoreUnits(nu: nat): (n: nat) { if nu < 4096 then 4096 else nu }

  /** The argument that sbrk, which takes a 32-bit int, receives for nu units. */
  function SbrkArg(nu: nat): (n: int) {
    var low := (16 * nu) % 0x1_0000_0000;
    if low < 0x8000_0000 then low else low - 0x1_0000_0000
  }

  /** morecore asks sbrk for the memory it goes on to use exactly for requests up to 2^31 - 32 bytes. */
  lemma RequestExact(nbytes: nat)
    requires nbytes < 0x1_0000_0000
    ensures SbrkArg(MoreUnits(NUnits(nbytes))) == 16 * MoreUnits(NUnits(nbytes)) <==> nbytes <= 2147483616
  {
    var nu := MoreUnits(NUnits(nbytes));
    assert nbytes <= 2147483616 <==> nu < 0x800_0000;
  }

  /** growproc adds to the size of the process as unsigned 64-bit integers. */
  function Grown(sz: nat, n: int): (sz': nat) { (sz + n) % 0x1_0000_0000_0000_0000 }

  /**
    The first request beyond asks sbrk for -2 GB.  For a process of less than 2 GB the new size wraps
    around to more than the old one; uvmdealloc then leaves the process as it is, and sbrk succeeds
    without having given it memory.
   */
  lemma RequestTruncated(sz: nat)
    requires sz < 0x8000_0000
    ensures SbrkArg(MoreUnits(NUnits(2147483617))) == -0x8000_0000
    ensures Grown(sz, SbrkArg(MoreUnits(NUnits(2147483617)))) > sz
  {
  }

  /** How many steps along the ring lead from the j-th to the f-th of n elements. */
  function Dist(j: nat, f: nat, n: nat): (d: nat)
    requires j < n && f < n
    ensures d < n && (d == 0 <==> j == f)
  {
    if j <= f then f - j else n - j + f
  }

  /** Of the n blocks, those passed on the way from behind f to j are too small. */
  ghost predicate Passed(size: Fields, list: seq<nat>, j: nat, f: nat, nunits: nat)
    requires j < |list| && f < |list|
  {
    forall m :: 0 <= m < |list| && Dist(m, f, |list|) > Dist(j, f, |list|) ==> list[m] in size && size[list[m]] < nunits
  }

  lemma PassedNone(size: Fields, list: seq<nat>, f: nat, nunits: nat)
    requires f < |list|
    ensures Passed(size, list, (if f + 1 < |list| then f + 1 else 0), f, nunits)
  {
  }

  lemma PassedMore(size: Fields, list: seq<nat>, j: nat, f: nat, nunits: nat)
    requires j < |list| && f < |list| && Passed(size, list, j, f, nunits) && list[j] in size && size[list[j]] < nunits
    ensures j == f ==> forall m :: 0 <= m < |list| ==> list[m] in size && size[list[m]] < nunits
    ensures j != f ==> Passed(size, list, (if j + 1 < |list| then j + 1 else 0), f, nunits)
    ensures j != f ==> Dist((if j + 1 < |list| then j + 1 else 0), f, |list|) == Dist(j, f, |list|) - 1
  {
  }

  class Heap {
    const base: nat
    var ptr: Fields
    var size: Fields
    /** -1 until the first call of malloc */
    var freep: int
    /** The free list from base on, the live blocks, and the block of every unit obtained from sbrk. */
    ghost var list: seq<nat>
    ghost var live: set<nat>
    ghost var owner: map<nat, nat>

    ghost predicate Ready()
      reads this
    {
      && Listed(ptr, list, base) && Spaced(size, list) && Owned(size, list, live, owner, base)
      && freep in list
    }

    ghost predicate Valid()
      reads this
    {
      if freep == -1 then live == {} && owner == map[] && list == [base] else Ready()
    }

    constructor (base: nat)
      ensures Valid() && live == {} && owner == map[]
    {
      this.base := base;
      ptr, size, freep := map[], map[], -1;
      list, live, owner := [base], {}, map[];
    }

    /** The search of free: the free block behind which bp belongs. */
    method Search(bp: nat) returns (p: nat, ghost k: nat)
      requires Ready() && bp > base && bp !in list
      ensures Place(list, bp, k) && p == list[k] && LinkAt(ptr, list, k)
      ensures p in list && p in ptr && p < bp && (bp < ptr[p] || ptr[p] == base)
    {
      hide Owned, Spaced;
      ghost var t := PlaceExists(list, bp, |list|);
      p := freep;
      k :| 0 <= k < |list| && list[k] == freep;
      assert LinkAt(ptr, list, k);
      while !(bp > p && bp < ptr[p])
        invariant 0 <= k < |list| && p == list[k] && LinkAt(ptr, list, k)
        decreases if k <= t then t - k else |list| - k + t
      {
        AtPlace(list, bp, k);
        assert LinkAt(ptr, list, k);
        if p >= ptr[p] && (bp > p || bp < ptr[p]) {
          break;
        }
        p := ptr[p];
        k := if k + 1 < |list| then k + 1 else 0;
        assert LinkAt(ptr, list, k);
      }
      AtPlace(list, bp, k);
    }

    /** The body of free behind the search: bp is linked in behind p, and merged with the blocks it touches. */
    method Link(p: nat, bp: nat)
      requires p in ptr && p in size && bp in size && p < bp
      requires bp + size[bp] == ptr[p] ==> ptr[p] in size && ptr[p] in ptr && ptr[p] > bp
      modifies `ptr, `size
      ensures var up, low := bp + old(size[bp]) == old(ptr[p]), p + old(size[p]) == bp;
        && ptr == Linked(old(ptr), p, bp, up, low)
        && size == Merged(old(size), old(ptr), p, bp, up, low)
    {
      if bp + size[bp] == ptr[p] {
        size := size[bp := size[bp] + size[ptr[p]]];
        ptr := ptr[bp := ptr[ptr[p]]];
      } else {
        ptr := ptr[bp := ptr[p]];
      }
      if p + size[p] == bp {
        size := size[p := size[p] + size[bp]];
        ptr := ptr[p := ptr[bp]];
      } else {
        ptr := ptr[p := bp];
      }
    }

    /** free: the block joins the free list, merged with its free neighbours; no other block changes. */
    method Free(bp: nat)
      requires Ready() && bp in live
      modifies this
      ensures Ready() && Valid() && live == old(live) - {bp} && owner.Keys == old(owner.Keys)
      ensures forall b :: b in live ==> b in size && b in old(size) && size[b] == old(size[b])
      ensures forall u :: u in owner ==> (owner[u] in live <==> old(owner[u]) in live)
      ensures bp in old(size) && bp in owner && owner[bp] in size && size[owner[bp]] >= old(size[bp])
      ensures freep in ptr && (owner[bp] == freep || owner[bp] == ptr[freep])
    {
      hide Owned, Spaced, Listed, Freeing, Fits, NewList, NewOwner, NewPtr, NewSize, IsBlock;
      InHeap(ptr, size, list, live, owner, base, bp);
      var p; ghost var k;
      p, k := Search(bp);
      ghost var up, low := k + 1 < |list| && bp + size[bp] == list[k + 1], list[k] + size[list[k]] == bp;
      FreeSetup(ptr, size, list, live, owner, base, k, bp, up, low);
      FreeResult(ptr, size, list, live, owner, base, k, bp, up, low);
      LinkedIs(ptr, size, list, k, bp, up, low);
      FreedFacts(ptr, size, list, live, owner, base, k, bp, up, low);
      Link(p, bp);
      freep := p;
      list, live, owner := NewList(list, k, bp, up, low), live - {bp}, NewOwner(owner, list, k, bp, up, low);
    }

    /** Memory that sbrk may return: above base, and nothing obtained before. */
    ghost predicate Fresh(core: int, n: nat)
      reads this
    {
      core == -1 || (core > base && forall u: nat :: core <= u < core + n ==> u !in owner)
    }

    /** morecore, with the address that sbrk returns: all the new units become free. */
    method Morecore(nunits: nat, core: int) returns (p: int)
      requires Ready() && Fresh(core, MoreUnits(nunits))
      modifies this
      ensures Ready() && live == old(live) && (forall b :: b in live ==>
              b in size && b in old(size) && size[b] == old(size[b]))
      ensures core == -1 ==> p == -1 && list == old(list) && size == old(size) && owner == old(owner)
      ensures core != -1 ==> p == freep && owner.Keys == old(owner.Keys) + Region(core, MoreUnits(nunits))
      ensures core != -1 ==> forall u :: core <= u < core + 4096 || core <= u < core + nunits ==>
                u in owner && u !in old(owner) && owner[u] !in live
      ensures core != -1 ==> forall u :: u in owner ==> (owner[u] in live <==> u in old(owner) && old(owner[u]) in live)
      ensures core != -1 ==> core in owner && owner[core] in size && size[owner[core]] >= nunits
      ensures core != -1 ==> freep in ptr && (owner[core] == freep || owner[core] == ptr[freep])
    {
      hide Owned, Spaced, Sorted, IsBlock, Region;
      LiveSizes(size, list, live, owner, base);
      if core == -1 {
        return -1;
      }
      var nu := MoreUnits(nunits);
      var hp: nat := core;
      Added(size, list, live, owner, base, hp, nu);
      InRegion(hp, nu);
      size := size[hp := nu];
      live, owner := live + {hp}, owner + (map u | u in Region(hp, nu) :: hp);
      Free(hp);
      assert live == old(live);
      p := freep;
    }

    /** malloc takes block p off the list. */
    method CarveWhole(prevp: nat, p: nat, ghost j: nat)
      requires Ready() && 0 < j < |list| && list[j] == p && prevp == list[j - 1]
      modifies this
      ensures Ready() && live == old(live) + {p} && p !in old(live) && size == old(size) && owner == old(owner)
    {
      hide Owned, Spaced, IsBlock;
      assert LinkAt(ptr, list, j);
      TakenListed(ptr, size, list, base, j);
      TakenOwned(size, list, live, owner, base, j);
      assert Without(list, j)[j - 1] == prevp;
      hide Listed;
      ptr := ptr[prevp := ptr[p]];
      list, live := Without(list, j), live + {p};
      freep := prevp;
    }

    /** malloc cuts the tail off block p. */
    method CarveTail(prevp: nat, p: nat, nunits: nat, ghost j: nat) returns (a: nat)
      requires Ready() && 0 < j < |list| && list[j] == p && prevp == list[j - 1] && size[p] > nunits >= 1
      modifies this
      ensures Ready() && a == p + old(size[p]) - nunits && live == old(live) + {a} && a !in old(live)
      ensures size == CutSize(old(size), p, nunits) && owner.Keys == old(owner.Keys)
    {
      hide Owned, IsBlock, Listed, CutSize, CutOwner;
      ListedBlock(list, live, j);
      ListHead(ptr, size, list, base);
      ghost var tail := p + size[p] - nunits;
      CutSpaced(size, list, live, owner, base, j, nunits);
      CutOwned(size, list, live, owner, base, p, nunits, tail);
      TailFree(size, list, live, owner, base, p, nunits);
      CutKeys(owner, tail, nunits);
      NotLive(list, live, tail);
      CutIs(size, p, nunits);
      hide Spaced;
      size := size[p := size[p] - nunits];
      a := p + size[p];
      size := size[a := nunits];
      live, owner := live + {a}, CutOwner(owner, a, nunits);
      freep := prevp;
    }

    /** The end of malloc: block p is taken off the list, or its tail is cut off. */
    method Carve(prevp: nat, p: nat, nunits: nat, ghost j: nat) returns (a: nat)
      requires Ready() && 0 < j < |list| && list[j] == p && prevp == list[j - 1] && size[p] >= nunits >= 1
      modifies this
      ensures Ready() && live == old(live) + {a} && a !in old(live) && a in size && size[a] == nunits
      ensures owner.Keys == old(owner.Keys) && (forall b :: b in old(live) ==>
              b in size && b in old(size) && size[b] == old(size[b]))
      ensures forall u :: a <= u < a + nunits ==> u in old(owner) && old(owner[u]) !in old(live)
    {
      hide Owned, IsBlock, Listed;
      ListedBlock(list, live, j);
      BlockUnits(size, list, live, owner, base, p);
      LiveNotListed(size, list, live, owner, base);
      LiveSizes(size, list, live, owner, base);
      assert p in list;
      if size[p] == nunits {
        CarveWhole(prevp, p, j);
        a := p;
      } else {
        TailFree(size, list, live, owner, base, p, nunits);
        LiveBlocks(list, live);
        a := CarveTail(prevp, p, nunits, j);
      }
    }

    /** The first call of malloc makes base the only element of the list. */
    method Init()
      requires Valid()
      modifies this
      ensures Ready() && live == old(live) && owner == old(owner) && (old(freep) != -1 ==>
              size == old(size) && list == old(list))
    {
      if freep == -1 {
        ptr, size := ptr[base := base], size[base := 0];
        freep := base;
        assert LinkAt(ptr, list, 0);
      }
    }

    /**
      malloc; `core` is what sbrk returns if it is asked, -1 or the address of as much memory as
      morecore goes on to use.  0 stands for the null pointer.  It fails only when no free block is
      large enough and sbrk fails, and otherwise returns units that belonged to no live block.
     */
    method Malloc(nbytes: nat, core: int) returns (r: nat)
      requires Valid() && nbytes < 0x1_0000_0000 && Fresh(core, MoreUnits(NUnits(nbytes)))
      modifies this
      ensures Ready() && Valid() && (forall b :: b in old(live) ==>
              b in size && b in old(size) && size[b] == old(size[b]))
      ensures r == 0 ==> live == old(live) && owner == old(owner) && core == -1 && (forall i :: 0 <= i < |list| ==>
              size[list[i]] < NUnits(nbytes))
      ensures r != 0 ==> var a := r - 1;
        && a !in old(live) && live == old(live) + {a} && a in size && size[a] == NUnits(nbytes)
        && nbytes <= 16 * (size[a] - 1) < nbytes + 16
        && (forall u :: a <= u < a + NUnits(nbytes) ==> u in owner && (u in old(owner) ==> old(owner[u]) !in old(live)))
      ensures owner.Keys == old(owner.Keys) ||
              (core != -1 && owner.Keys == old(owner.Keys) + Region(core, MoreUnits(NUnits(nbytes))))
    {
      hide Owned, IsBlock, Region, Spaced, Passed, MoreUnits, NUnits;
      var nunits := NUnits(nbytes);
      LiveSizesValid();
      Init();
      var prevp: nat := freep;
      ghost var f: nat := IndexOf(list, freep);
      ghost var i: nat := f;
      assert LinkAt(ptr, list, i);
      var p := ptr[prevp];
      ghost var j: nat := if i + 1 < |list| then i + 1 else 0;
      ghost var asked := false;
      PassedNone(size, list, f, nunits);
      while true
        invariant Ready() && live == old(live) && (forall b :: b in live ==>
                b in size && b in old(size) && size[b] == old(size[b]))
        invariant f < |list| && freep == list[f] && j < |list| && p == list[j] && i < |list| && prevp == list[i] &&
                j == (if i + 1 < |list| then i + 1 else 0)
        invariant Passed(size, list, j, f, nunits)
        invariant !asked ==> owner == old(owner)
        invariant asked ==> core != -1 && owner.Keys == old(owner.Keys) + Region(core, MoreUnits(nunits))
        invariant asked ==> forall u :: u in owner ==> (owner[u] in live <==> u in old(owner) && old(owner[u]) in live)
        invariant asked ==> exists t :: 0 <= t < |list| && list[t] in size && size[list[t]] >= nunits
        decreases if asked then 0 else 1, Dist(j, f, |list|)
      {
        InList(size, list, j);
        if size[p] >= nunits {
          BaseEmpty(size, list);
          var a := Carve(prevp, p, nunits, j);
          return a + 1;
        }
        PassedMore(size, list, j, f, nunits);
        if p == freep {
          SameIndex(list, j, f);
          var q := Morecore(nunits, core);
          if q == -1 {
            return 0;
          }
          asked := true;
          p := freep;
          f := IndexOf(list, freep);
          j := f;
          BigEnough(size, ptr, list, base, f, owner[core]);
          PassedNone(size, list, f, nunits);
        }
        assert LinkAt(ptr, list, j);
        prevp, i := p, j;
        p := ptr[p];
        j := if j + 1 < |list| then j + 1 else 0;
      }
    }

    lemma LiveSizesValid()
      requires Valid()
      ensures forall b :: b in live ==> b in size
    {
      if freep != -1 {
        LiveSizes(size, list, live, owner, base);
      }
    }
  }

  function Linked(ptr: Fields, p: nat, bp: nat, up: bool, low: bool): (r: Fields)
    requires p in ptr && (up ==> ptr[p] in ptr)
  {
    var p1 := ptr[bp := if up then ptr[ptr[p]] else ptr[p]];
    p1[p := if low then p1[bp] else bp]
  }

  function Merged(size: Fields, ptr: Fields, p: nat, bp: nat, up: bool, low: bool): (r: Fields)
    requires bp in size && p in ptr && p in size && (up ==> ptr[p] in size)
  {
    var s1 := if up then size[bp := size[bp] + size[ptr[p]]] else size;
    if low then s1[p := size[p] + s1[bp]] else s1
  }

  lemma InHeap(ptr: Fields, size: Fields, list: seq<nat>, live: set<nat>, owner: map<nat, nat>, base: nat, bp: nat)
    requires Listed(ptr, list, base) && Spaced(size, list) && Owned(size, list, live, owner, base) && bp in live
    ensures bp > base && bp in size && size[bp] >= 1 && bp !in list && (forall i :: 0 <= i < |list| ==> list[i] in size)
  {
    AboveBase(size, list, live, owner, base, bp);
    hide Owned;
    LiveNotListed(size, list, live, owner, base);
  }

  /** What the search of free has found. */
  ghost predicate Found(ptr: Fields, size: Fields, list: seq<nat>, live: set<nat>, owner: map<nat, nat>, base: nat,
                        k: nat, bp: nat, up: bool, low: bool) {
    && Place(list, bp, k) && bp in size && list[k] in size && bp in live
    && Listed(ptr, list, base) && Spaced(size, list) && Owned(size, list, live, owner, base) && LinkAt(ptr, list, k)
    && up == (k + 1 < |list| && bp + size[bp] == list[k + 1]) && low == (list[k] + size[list[k]] == bp)
  }

  lemma FreeSetup(ptr: Fields, size: Fields, list: seq<nat>, live: set<nat>, owner: map<nat, nat>, base: nat, k: nat,
                  bp: nat, up: bool, low: bool)
    requires Found(ptr, size, list, live, owner, base, k, bp, up, low)
    ensures Freeing(size, list, live, owner, base, k, bp, up, low) && (up ==> LinkAt(ptr, list, k + 1))
    ensures up <==> bp + size[bp] == ptr[list[k]]
    ensures up ==> ptr[list[k]] == list[k + 1] && list[k + 1] in size && list[k + 1] in ptr && list[k + 1] > bp
  {
    hide Owned, IsBlock;
    FitsAt(size, list, live, owner, base, k, bp);
    LiveBlock(list, live, bp);
    AboveBase(size, list, live, owner, base, bp);
    NoWrap(size, list, k, bp);
    if up {
      assert LinkAt(ptr, list, k + 1);
    }
  }

  /** Freeing bp behind the k-th free block keeps the heap in order. */
  lemma FreeResult(ptr: Fields, size: Fields, list: seq<nat>, live: set<nat>, owner: map<nat, nat>, base: nat, k: nat,
                   bp: nat, up: bool, low: bool)
    requires Found(ptr, size, list, live, owner, base, k, bp, up, low)
    requires Freeing(size, list, live, owner, base, k, bp, up, low) && (up ==> LinkAt(ptr, list, k + 1))
    ensures Listed(NewPtr(ptr, list, k, bp, up, low), NewList(list, k, bp, up, low), base)
    ensures Spaced(NewSize(size, list, k, bp, up, low), NewList(list, k, bp, up, low))
    ensures Owned(NewSize(size, list, k, bp, up, low), NewList(list, k, bp, up, low), live - {bp},
            NewOwner(owner, list, k, bp, up, low), base)
  {
    hide Owned, NewList, NewOwner, IsBlock, NewPtr, NewSize, Spaced, Sorted, Fits;
    NewListed(ptr, size, list, base, k, bp, up, low);
    NewSpaced(size, list, k, bp, up, low);
    FreedOwned(size, list, live, owner, base, k, bp, up, low);
  }

  /** The code of free computes the new fields. */
  lemma LinkedIs(ptr: Fields, size: Fields, list: seq<nat>, k: nat, bp: nat, up: bool, low: bool)
    requires k < |list| && bp in size && list[k] in size && list[k] in ptr
    requires up ==> k + 1 < |list| && ptr[list[k]] == list[k + 1] && list[k + 1] in size && list[k + 1] in ptr
    ensures Linked(ptr, list[k], bp, up, low) == NewPtr(ptr, list, k, bp, up, low)
    ensures Merged(size, ptr, list[k], bp, up, low) == NewSize(size, list, k, bp, up, low)
  {
  }

  /** The block above is merged exactly when bp ends where the next free block begins; base is never that block. */
  lemma NoWrap(size: Fields, list: seq<nat>, k: nat, bp: nat)
    requires k < |list| && bp > list[0] && bp in size
    ensures bp + size[bp] == Next(list, k) <==> k + 1 < |list| && bp + size[bp] == list[k + 1]
  {
  }

  /** Where the freed block is found again, and that the other live blocks are as before. */
  lemma FreedFacts(ptr: Fields, size: Fields, list: seq<nat>, live: set<nat>, owner: map<nat, nat>, base: nat, k: nat,
                   bp: nat, up: bool, low: bool)
    requires Freeing(size, list, live, owner, base, k, bp, up, low) && LinkAt(ptr, list, k) &&
            (up ==> LinkAt(ptr, list, k + 1))
    ensures var l, s, q, o := NewList(list, k, bp, up, low), NewSize(size, list, k, bp, up, low),
            NewPtr(ptr, list, k, bp, up, low), NewOwner(owner, list, k, bp, up, low);
      && o.Keys == owner.Keys && list[k] in l && list[k] in q
      && (forall b :: b in live && b != bp ==> b in size && b in s && s[b] == size[b])
      && (forall u :: u in o ==> (o[u] in live - {bp} <==> owner[u] in live - {bp}))
      && bp in o && o[bp] in s && s[o[bp]] >= size[bp] && (o[bp] == list[k] || o[bp] == q[list[k]])
  {
    hide Owned, IsBlock;
    AboveBase(size, list, live, owner, base, bp);
    assert IsBlock(list, live, bp) by { LiveBlock(list, live, bp); }
    LiveNotListed(size, list, live, owner, base);
    NewListAt(list, k, bp, up, low, k);
    assert list[k] in list && (up ==> list[k + 1] in list);
    SameUnits(owner, list, k, bp, up, low);
    forall b | b in live && b != bp ensures b in size && b in NewSize(size, list, k, bp, up, low) &&
        NewSize(size, list, k, bp, up, low)[b] == size[b] {
      LiveBlock(list, live, b);
      AboveBase(size, list, live, owner, base, b);
    }
    hide NewList, NewSize;
    forall u | u in owner ensures NewOwner(owner, list, k, bp, up, low)[u] in live - {bp} <==>
        owner[u] in live - {bp} { }
    BpSize(size, list, k, bp, up, low);
  }

  lemma LiveBlock(list: seq<nat>, live: set<nat>, b: nat)
    requires b in live
    ensures IsBlock(list, live, b)
  {
  }

  lemma BpSize(size: Fields, list: seq<nat>, k: nat, bp: nat, up: bool, low: bool)
    requires Fits(size, list, k, bp, up, low) && (up ==> list[k + 1] in size)
    ensures var s := NewSize(size, list, k, bp, up, low); var b := if low then list[k] else bp;
      b in s && s[b] >= size[bp]
  {
  }

  /** The n units from a on. */
  ghost function Region(a: nat, n: nat): (r: set<nat>) {
    if n == 0 then {} else Region(a, n - 1) + {a + n - 1}
  }

  lemma LiveSizes(size: Fields, list: seq<nat>, live: set<nat>, owner: map<nat, nat>, base: nat)
    requires Owned(size, list, live, owner, base)
    ensures forall b :: b in live ==> b in size
  {
    forall b | b in live ensures b in size {
      LiveBlock(list, live, b);
    }
  }

  lemma LiveBlocks(list: seq<nat>, live: set<nat>)
    ensures forall b :: b in live ==> IsBlock(list, live, b)
  {
  }

  lemma BlockUnits(size: Fields, list: seq<nat>, live: set<nat>, owner: map<nat, nat>, base: nat, p: nat)
    requires Owned(size, list, live, owner, base) && IsBlock(list, live, p)
    ensures p in size && forall u: nat :: p <= u < p + size[p] ==> u in owner && owner[u] == p
  {
  }

  /** New memory is a block of its own. */
  lemma Added(size: Fields, list: seq<nat>, live: set<nat>, owner: map<nat, nat>, base: nat, hp: nat, nu: nat)
    requires Owned(size, list, live, owner, base) && Spaced(size, list) && list[0] == base
    requires hp > base && nu >= 1 && (forall u: nat :: hp <= u < hp + nu ==> u !in owner)
    ensures var s, o := size[hp := nu], owner + (map u | u in Region(hp, nu) :: hp);
      Owned(s, list, live + {hp}, o, base) && Spaced(s, list) && hp !in live
  {
    hide Owned, IsBlock, Region;
    AboveBase(size, list, live, owner, base, hp);
    NotListed(list, live, hp);
    NotLive(list, live, hp);
    LiveNotListed(size, list, live, owner, base);
    InRegion(hp, nu);
    var s: Fields, o: map<nat, nat> := size[hp := nu], owner + (map u | u in Region(hp, nu) :: hp);
    assert Spaced(s, list);
    hide Spaced;
    forall b: nat | IsBlock(list, live + {hp}, b) ensures b > base && b in s && s[b] >= 1 {
      AddedBlock(list, live, hp, b);
      AboveBase(size, list, live, owner, base, b);
    }
    forall b: nat, u: nat | IsBlock(list, live + {hp}, b) && b <= u < b + s[b] ensures u in o && o[u] == b {
      AddedBlock(list, live, hp, b);
      if b != hp {
        BlockUnits(size, list, live, owner, base, b);
      }
    }
    forall u: nat | u in o ensures IsBlock(list, live + {hp}, o[u]) && o[u] <= u < o[u] + s[o[u]] {
      AddedBlock(list, live, hp, o[u]);
      if u in owner {
        UnitOwner(size, list, live, owner, base, u);
      }
    }
    OwnedIf(s, list, live + {hp}, o, base);
  }

  lemma AddedBlock(list: seq<nat>, live: set<nat>, hp: nat, b: nat)
    ensures IsBlock(list, live + {hp}, b) <==> IsBlock(list, live, b) || b == hp
  {
  }

  lemma UnitOwner(size: Fields, list: seq<nat>, live: set<nat>, owner: map<nat, nat>, base: nat, u: nat)
    requires Owned(size, list, live, owner, base) && u in owner
    ensures IsBlock(list, live, owner[u]) && owner[u] in size && owner[u] <= u < owner[u] + size[owner[u]]
  {
  }

  lemma IndexOf(list: seq<nat>, a: nat) returns (f: nat)
    requires a in list
    ensures f < |list| && list[f] == a
  {
    f :| 0 <= f < |list| && list[f] == a;
  }

  lemma InList(size: Fields, list: seq<nat>, j: nat)
    requires Spaced(size, list) && j < |list|
    ensures list[j] in size
  {
  }

  lemma BaseEmpty(size: Fields, list: seq<nat>)
    requires Spaced(size, list)
    ensures size[list[0]] == 0
  {
  }

  lemma SameIndex(list: seq<nat>, j: nat, f: nat)
    requires Sorted(list) && j < |list| && f < |list| && list[j] == list[f]
    ensures j == f
  {
  }

  lemma {:induction false} InRegion(a: nat, n: nat)
    ensures forall u: nat {:trigger u in Region(a, n)} :: u in Region(a, n) <==> a <= u < a + n
  {
    if n > 0 {
      InRegion(a, n - 1);
    }
  }

  lemma ListHead(ptr: Fields, size: Fields, list: seq<nat>, base: nat)
    requires Listed(ptr, list, base)
    ensures list != [] && list[0] == base && Sorted(list)
  {
  }

  lemma NotLive(list: seq<nat>, live: set<nat>, a: nat)
    requires !IsBlock(list, live, a)
    ensures a !in live
  {
  }

  lemma CutIs(size: Fields, p: nat, n: nat)
    requires p in size && size[p] > n
    ensures CutSize(size, p, n) == size[p := size[p] - n][p + (size[p] - n) := n]
  {
  }

  lemma BigEnough(size: Fields, ptr: Fields, list: seq<nat>, base: nat, f: nat, b: nat)
    requires Listed(ptr, list, base) && f < |list| && list[f] in ptr && (b == list[f] || b == ptr[list[f]])
    ensures exists t :: 0 <= t < |list| && list[t] == b
  {
    assert LinkAt(ptr, list, f);
    assert b == list[f] || b == list[if f + 1 < |list| then f + 1 else 0];
  }
}
