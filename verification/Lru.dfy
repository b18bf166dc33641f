/**
  The buffer cache of `kernel/fs/xv6fs/bio.c`: what bcache.lock protects.

  Buffers are numbered 0 .. n-1 and the list head is n.  The links thread all buffers in the
  order of their latest final release, so that bget recycles the unused buffer that has been
  unused for longest.
 */
module Lru {

  datatype Buf = Buf(valid: bool, dev: nat, blockno: nat, refcnt: nat)

  predicate Matches(b: Buf, dev: nat, blockno: nat) { b.dev == dev && b.blockno == blockno }

  /** bget: the buffer that has the block, or else an unused one that is given to it. */
  ghost predicate Gets(bufs: seq<Buf>, dev: nat, blockno: nat, b: nat, bufs': seq<Buf>) {
    && b < |bufs|
    && if exists i :: 0 <= i < |bufs| && Matches(bufs[i], dev, blockno) then
         Matches(bufs[b], dev, blockno) && bufs' == bufs[b := bufs[b].(refcnt := bufs[b].refcnt + 1)]
       else
         bufs[b].refcnt == 0 && bufs' == bufs[b := Buf(false, dev, blockno, 1)]
  }

  /** brelse */
  ghost predicate Puts(bufs: seq<Buf>, b: nat, bufs': seq<Buf>) {
    b < |bufs| && bufs[b].refcnt > 0 && bufs' == bufs[b := bufs[b].(refcnt := bufs[b].refcnt - 1)]
  }

  // ---------------------------------------------------------------------------
  // The list
  // ---------------------------------------------------------------------------

  /** The i-th node of the ring that starts and ends at the head. */
  function Ring(order: seq<nat>, n: nat, i: nat): (v: nat)
    requires i <= |order| + 1
  {
    if i == 0 || i == |order| + 1 then n else order[i - 1]
  }

  ghost predicate Nodes(order: seq<nat>, n: nat) {
    && (forall i :: 0 <= i < |order| ==> order[i] < n)
    && (forall i, j :: 0 <= i < j < |order| ==> order[i] != order[j])
  }

  /** The next and prev links thread the nodes of `order` and the head, in both directions. */
  ghost predicate Linked(next: seq<nat>, prev: seq<nat>, order: seq<nat>, n: nat) {
    && |next| == n + 1 && |prev| == n + 1 && Nodes(order, n)
    && (forall i :: 0 <= i <= |order| ==> next[Ring(order, n, i)] == Ring(order, n, i + 1))
    && (forall i :: 0 <= i <= |order| ==> prev[Ring(order, n, i + 1)] == Ring(order, n, i))
  }

  lemma RingDistinct(order: seq<nat>, n: nat, i: nat, j: nat)
    requires Nodes(order, n) && i <= |order| && j <= |order| && i != j
    ensures Ring(order, n, i) != Ring(order, n, j) && Ring(order, n, i) <= n
  {
  }

  lemma RingDistinctUp(order: seq<nat>, n: nat, i: nat, j: nat)
    requires Nodes(order, n) && 1 <= i <= |order| + 1 && 1 <= j <= |order| + 1 && i != j
    ensures Ring(order, n, i) != Ring(order, n, j)
  {
  }

  /** Linking b in behind the head. */
  lemma Inserted(next: seq<nat>, prev: seq<nat>, order: seq<nat>, n: nat, b: nat)
    requires Linked(next, prev, order, n) && b < n && b !in order
    ensures next[n] <= n
    ensures Linked(next[b := next[n]][n := b], prev[b := n][next[n] := b], [b] + order, n)
  {
    var order' := [b] + order;
    var first := next[n];
    assert first == Ring(order, n, 1) by { assert next[Ring(order, n, 0)] == Ring(order, n, 0 + 1); }
    var next', prev' := next[b := first][n := b], prev[b := n][first := b];
    forall i | 0 <= i <= |order'| ensures next'[Ring(order', n, i)] == Ring(order', n, i + 1) {
      if i >= 2 {
        assert next[Ring(order, n, i - 1)] == Ring(order, n, i - 1 + 1);
      }
    }
    forall i | 0 <= i <= |order'| ensures prev'[Ring(order', n, i + 1)] == Ring(order', n, i) {
      if i >= 2 {
        assert prev[Ring(order, n, i - 1 + 1)] == Ring(order, n, i - 1);
        RingDistinctUp(order, n, i, 1);
      }
    }
  }

  /** Linking out the k-th buffer. */
  lemma Removed(next: seq<nat>, prev: seq<nat>, order: seq<nat>, n: nat, k: nat)
    requires Linked(next, prev, order, n) && k < |order|
    ensures var b := order[k];
      && next[b] <= n && prev[b] <= n
      && Linked(next[prev[b] := next[b]], prev[next[b] := prev[b]], order[..k] + order[k + 1..], n)
  {
    var b := order[k];
    var order' := order[..k] + order[k + 1..];
    assert next[Ring(order, n, k + 1)] == Ring(order, n, k + 1 + 1);
    assert prev[Ring(order, n, k + 1)] == Ring(order, n, k);
    var next', prev' := next[prev[b] := next[b]], prev[next[b] := prev[b]];
    forall i | 0 <= i <= |order'| ensures next'[Ring(order', n, i)] == Ring(order', n, i + 1) {
      var j := if i <= k then i else i + 1;
      assert Ring(order', n, i) == Ring(order, n, j);
      assert next[Ring(order, n, j)] == Ring(order, n, j + 1);
      if i != k { RingDistinct(order, n, j, k); }
    }
    forall i | 0 <= i <= |order'| ensures prev'[Ring(order', n, i + 1)] == Ring(order', n, i) {
      var j := if i < k then i else i + 1;
      assert Ring(order', n, i + 1) == Ring(order, n, j + 1);
      assert prev[Ring(order, n, j + 1)] == Ring(order, n, j);
      if i != k { RingDistinctUp(order, n, j + 1, k + 2); }
    }
  }

  // ---------------------------------------------------------------------------
  // The cache
  // ---------------------------------------------------------------------------

  /** Buffers released later come earlier. */
  ghost predicate ByRelease(order: seq<nat>, stamp: seq<int>, clock: int) {
    && (forall i :: 0 <= i < |order| ==> order[i] < |stamp| && stamp[order[i]] <= clock)
    && (forall i, j :: 0 <= i < j < |order| ==> stamp[order[i]] > stamp[order[j]])
  }

  /** Every buffer is on the list. */
  ghost predicate Covers(order: seq<nat>, n: nat) { forall b: nat :: b < n ==> b in order }

  /** The order after a buffer has come to the front. */
  function ToFront(order: seq<nat>, k: nat): (r: seq<nat>)
    requires k < |order|
  {
    [order[k]] + (order[..k] + order[k + 1..])
  }

  /** Releasing the k-th buffer for good keeps the list complete and ordered by release. */
  lemma Released(order: seq<nat>, stamp: seq<int>, clock: int, n: nat, k: nat)
    requires Nodes(order, n) && Covers(order, n) && ByRelease(order, stamp, clock) && |stamp| == n && k < |order|
    ensures Covers(ToFront(order, k), n) && ByRelease(ToFront(order, k), stamp[order[k] := clock + 1], clock + 1)
  {
    var order' := ToFront(order, k);
    forall b: nat | b < n ensures b in order' {
      assert b in order;
      var i :| 0 <= i < |order| && order[i] == b;
      assert i == k || order'[if i < k then i + 1 else i] == b;
      assert order'[0] == order[k];
    }
    assert forall i :: 1 <= i < |order'| ==> order'[i] == order[if i <= k then i - 1 else i];
  }

  /** Where buffer b is on the list. */
  lemma Position(next: seq<nat>, prev: seq<nat>, order: seq<nat>, n: nat, b: nat) returns (k: nat)
    requires Linked(next, prev, order, n) && Covers(order, n) && b < n
    ensures k < |order| && order[k] == b && Nodes(order, n)
  {
    assert b in order;
    k :| 0 <= k < |order| && order[k] == b;
  }

  lemma Without(order: seq<nat>, n: nat, k: nat)
    requires Nodes(order, n) && k < |order|
    ensures order[k] !in order[..k] + order[k + 1..]
  {
  }

  class Bcache {
    const n: nat
    var next: seq<nat>
    var prev: seq<nat>
    var bufs: seq<Buf>
    /** The buffers from head.next to head.prev, and the times of their latest final release. */
    ghost var order: seq<nat>
    ghost var stamp: seq<int>
    ghost var clock: int

    ghost predicate Valid()
      reads this
    {
      && Linked(next, prev, order, n) && Covers(order, n) && ByRelease(order, stamp, clock)
      && |bufs| == n && |stamp| == n
    }

    /** binit */
    constructor (n: nat)
      ensures Valid() && this.n == n && |order| == n
      ensures forall i :: 0 <= i < n ==> order[i] == n - 1 - i && bufs[i] == Buf(false, 0, 0, 0)
    {
      this.n := n;
      next := seq(n + 1, _ => n);
      prev := seq(n + 1, _ => n);
      bufs := seq(n, _ => Buf(false, 0, 0, 0));
      order := [];
      stamp := seq(n, i => i);
      clock := n;
      new;
      var b := 0;
      while b < n
        invariant 0 <= b <= n && Linked(next, prev, order, n) && |order| == b
        invariant forall i :: 0 <= i < b ==> order[i] == b - 1 - i
        invariant bufs == seq(n, _ => Buf(false, 0, 0, 0)) && stamp == seq(n, i => i) && clock == n
      {
        Inserted(next, prev, order, n, b);
        next := next[b := next[n]];
        prev := prev[b := n];
        prev := prev[next[n] := b];
        next := next[n := b];
        order := [b] + order;
        b := b + 1;
      }
      forall c: nat | c < n ensures c in order { assert order[n - 1 - c] == c; }
    }

    /** Some buffer has the block. */
    ghost predicate Cached(dev: nat, blockno: nat)
      reads this
    {
      exists i :: 0 <= i < |bufs| && Matches(bufs[i], dev, blockno)
    }

    /** The first loop of bget: from the most recently released on. */
    method Find(dev: nat, blockno: nat) returns (b: nat)
      requires Valid()
      ensures b <= n && (b < n ==> Matches(bufs[b], dev, blockno))
      ensures b == n <==> !Cached(dev, blockno)
    {
      ghost var i := 1;
      assert next[Ring(order, n, 0)] == Ring(order, n, 0 + 1);
      b := next[n];
      while b != n
        invariant 1 <= i <= |order| + 1 && b == Ring(order, n, i)
        invariant forall j :: 0 <= j < i - 1 ==> !Matches(bufs[order[j]], dev, blockno)
        decreases |order| + 1 - i
      {
        if bufs[b].dev == dev && bufs[b].blockno == blockno {
          return;
        }
        assert next[Ring(order, n, i)] == Ring(order, n, i + 1);
        b := next[b];
        i := i + 1;
      }
      assert i == |order| + 1;
      forall c | 0 <= c < |bufs| ensures !Matches(bufs[c], dev, blockno) {
        assert c in order;
        var j :| 0 <= j < |order| && order[j] == c;
      }
    }

    /** The second loop of bget: from the least recently released on. */
    method FindUnused() returns (b: nat)
      requires Valid()
      ensures b <= n && (b < n ==> bufs[b].refcnt == 0)
      ensures b < n ==> forall c :: 0 <= c < n && bufs[c].refcnt == 0 && c != b ==> stamp[b] < stamp[c]
      ensures b == n <==> forall c :: 0 <= c < n ==> bufs[c].refcnt > 0
    {
      ghost var i := |order|;
      assert prev[Ring(order, n, i + 1)] == Ring(order, n, i);
      b := prev[n];
      while b != n
        invariant 0 <= i <= |order| && b == Ring(order, n, i)
        invariant forall j :: i <= j < |order| ==> bufs[order[j]].refcnt > 0
        decreases i
      {
        if bufs[b].refcnt == 0 {
          break;
        }
        assert prev[Ring(order, n, i - 1 + 1)] == Ring(order, n, i - 1);
        b := prev[b];
        i := i - 1;
      }
      forall c | 0 <= c < n && bufs[c].refcnt == 0 && c != b ensures b < n && stamp[b] < stamp[c] {
        assert c in order;
        var j :| 0 <= j < |order| && order[j] == c;
      }
    }

    /** bget, up to the acquisition of the buffer's sleep lock; b == n stands for its panic. */
    method Bget(dev: nat, blockno: nat) returns (b: nat)
      requires Valid()
      modifies `bufs
      ensures Valid() && b <= n
      ensures b < n ==> Gets(old(bufs), dev, blockno, b, bufs)
      ensures b == n ==> bufs == old(bufs)
      ensures b == n <==> !old(Cached(dev, blockno)) && (forall c :: 0 <= c < n ==> old(bufs)[c].refcnt > 0)
      ensures b < n && !old(Cached(dev, blockno)) ==>
        forall c :: 0 <= c < n && old(bufs)[c].refcnt == 0 && c != b ==> stamp[b] < stamp[c]
    {
      b := Find(dev, blockno);
      if b != n {
        bufs := bufs[b := bufs[b].(refcnt := bufs[b].refcnt + 1)];
        return;
      }
      b := FindUnused();
      if b != n {
        bufs := bufs[b := Buf(false, dev, blockno, 1)];
      }
    }

    /** brelse, after the release of the buffer's sleep lock. */
    method Brelse(b: nat)
      requires Valid() && b < n && bufs[b].refcnt > 0
      modifies this
      ensures Valid() && Puts(old(bufs), b, bufs)
      ensures old(bufs)[b].refcnt > 1 ==> order == old(order) && stamp == old(stamp)
      ensures old(bufs)[b].refcnt == 1 ==>
        && |order| > 0 && order[0] == b && stamp[b] == clock && clock > old(clock)
        && (forall c :: 0 <= c < n && c != b ==> stamp[c] == old(stamp)[c])
    {
      hide ByRelease, Covers, Nodes;
      bufs := bufs[b := bufs[b].(refcnt := bufs[b].refcnt - 1)];
      if bufs[b].refcnt == 0 {
        ghost var k := Position(next, prev, order, n, b);
        Released(order, stamp, clock, n, k);
        Removed(next, prev, order, n, k);
        prev := prev[next[b] := prev[b]];
        next := next[prev[b] := next[b]];
        Without(order, n, k);
        order := order[..k] + order[k + 1..];
        Inserted(next, prev, order, n, b);
        next := next[b := next[n]];
        prev := prev[b := n];
        prev := prev[next[n] := b];
        next := next[n := b];
        order := [b] + order;
        stamp := stamp[b := clock + 1];
        clock := clock + 1;
      }
    }
  }
}
