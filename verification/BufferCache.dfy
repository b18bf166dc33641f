/**
  The buffer cache in use (`kernel/fs/xv6fs/bio.c`): any number of threads calling bread, bwrite
  and brelse, in every interleaving.  Device numbers are positive; a buffer that was never
  assigned carries device 0.

  A thread follows the rule of the file system: it calls brelse only when the buffer it holds
  has not been changed since its last bread or bwrite.
 */
module BufferCache {
  import opened Lru

  type Data = seq<int>

  datatype User =
    | Idle
    | Waits(b: nat, dev: nat, blockno: nat)                 // in bget, before acquiresleep returns
    | Has(b: nat, dev: nat, blockno: nat)                   // in bread, holding the buffer's sleep lock
    | Holds(b: nat, dev: nat, blockno: nat, clean: bool)    // after bread
    | Leaves(b: nat, dev: nat, blockno: nat)                // in brelse, after releasesleep

  datatype State = State(bufs: seq<Buf>, data: seq<Data>, holder: seq<int>, disk: map<(nat, nat), Data>,
      users: seq<User>)

  function Key(b: Buf): (k: (nat, nat)) { (b.dev, b.blockno) }

  // ---------------------------------------------------------------------------
  // Steps
  // ---------------------------------------------------------------------------

  /** The first half of bget, under bcache.lock. */
  ghost predicate Get(s: State, u: nat, s': State) {
    && u < |s.users| && s.users[u].Idle?
    && exists b: nat, dev: nat, blockno: nat, bufs' ::
         && dev > 0 && (dev, blockno) in s.disk && Gets(s.bufs, dev, blockno, b, bufs')
         && s' == s.(bufs := bufs', users := s.users[u := Waits(b, dev, blockno)])
  }

  /** acquiresleep returns. */
  ghost predicate Lock(s: State, u: nat, s': State) {
    && u < |s.users| && s.users[u].Waits?
    && var w := s.users[u];
       w.b < |s.holder| && s.holder[w.b] == -1
       && s' == s.(holder := s.holder[w.b := u], users := s.users[u := Has(w.b, w.dev, w.blockno)])
  }

  /** The rest of bread: the block is read from the disk unless the buffer is valid. */
  ghost predicate Fill(s: State, u: nat, s': State) {
    && u < |s.users| && s.users[u].Has?
    && var w := s.users[u];
       w.b < |s.bufs| && w.b < |s.data|
       && var held := s.(users := s.users[u := Holds(w.b, w.dev, w.blockno, true)]);
          if s.bufs[w.b].valid then s' == held
          else Key(s.bufs[w.b]) in s.disk
               && s' == held.(data := s.data[w.b := s.disk[Key(s.bufs[w.b])]],
                   bufs := s.bufs[w.b := s.bufs[w.b].(valid := true)])
  }

  /** The holder changes the contents of its buffer. */
  ghost predicate Modify(s: State, u: nat, s': State) {
    && u < |s.users| && s.users[u].Holds? && s.users[u].b < |s.data| == |s'.data|
    && var b := s.users[u].b;
       s' == s.(data := s.data[b := s'.data[b]], users := s.users[u := s.users[u].(clean := false)])
  }

  /** bwrite */
  ghost predicate Write(s: State, u: nat, s': State) {
    && u < |s.users| && s.users[u].Holds? && s.users[u].b < |s.bufs| && s.users[u].b < |s.data|
    && s' == s.(disk := s.disk[Key(s.bufs[s.users[u].b]) := s.data[s.users[u].b]],
        users := s.users[u := s.users[u].(clean := true)])
  }

  /** brelse calls releasesleep ... */
  ghost predicate Unlock(s: State, u: nat, s': State) {
    && u < |s.users| && s.users[u].Holds? && s.users[u].clean
    && var w := s.users[u];
       w.b < |s.holder| && s' == s.(holder := s.holder[w.b := -1], users := s.users[u := Leaves(w.b, w.dev, w.blockno)])
  }

  /** ... and drops its reference under bcache.lock. */
  ghost predicate Put(s: State, u: nat, s': State) {
    && u < |s.users| && s.users[u].Leaves?
    && exists bufs' :: Puts(s.bufs, s.users[u].b, bufs') && s' == s.(bufs := bufs', users := s.users[u := Idle])
  }

  ghost predicate Step(s: State, u: nat, s': State) {
    Get(s, u, s') || Lock(s, u, s') || Fill(s, u, s') || Modify(s, u, s') || Write(s, u, s') || Unlock(s, u, s') ||
        Put(s, u, s')
  }

  ghost predicate Initial(s: State) {
    && |s.data| == |s.bufs| && |s.holder| == |s.bufs|
    && (forall b :: 0 <= b < |s.bufs| ==> s.bufs[b] == Buf(false, 0, 0, 0) && s.holder[b] == -1)
    && (forall u :: 0 <= u < |s.users| ==> s.users[u] == Idle)
  }

  // ---------------------------------------------------------------------------
  // Counting users
  // ---------------------------------------------------------------------------

  predicate Uses(w: User, b: nat) { !w.Idle? && w.b == b }

  /** The threads between bget and brelse of buffer b. */
  function Count(users: seq<User>, b: nat): (k: nat) {
    if users == [] then 0 else (if Uses(users[0], b) then 1 else 0) + Count(users[1..], b)
  }

  lemma {:induction false} CountUpdate(users: seq<User>, u: nat, w: User, b: nat)
    requires u < |users|
    ensures Count(users[u := w], b) ==
            Count(users, b) - (if Uses(users[u], b) then 1 else 0) + (if Uses(w, b) then 1 else 0)
  {
    if u == 0 {
      assert users[0 := w][1..] == users[1..];
    } else {
      assert users[u := w][1..] == users[1..][u - 1 := w];
      CountUpdate(users[1..], u - 1, w, b);
    }
  }

  lemma {:induction false} CountZero(users: seq<User>, b: nat)
    ensures Count(users, b) == 0 <==> forall u :: 0 <= u < |users| ==> !Uses(users[u], b)
  {
    if users != [] {
      CountZero(users[1..], b);
      assert forall u :: 0 < u < |users| ==> users[u] == users[1..][u - 1];
      assert forall u :: 0 <= u < |users[1..]| ==> users[1..][u] == users[u + 1];
    }
  }

  // ---------------------------------------------------------------------------
  // The invariant
  // ---------------------------------------------------------------------------

  ghost predicate Shaped(s: State) { |s.data| == |s.bufs| && |s.holder| == |s.bufs| }

  /** At most one buffer is assigned to a block. */
  ghost predicate Unique(s: State) {
    forall i, j :: 0 <= i < j < |s.bufs| && s.bufs[i].dev > 0 ==> Key(s.bufs[i]) != Key(s.bufs[j])
  }

  ghost predicate Counted(s: State) { forall b :: 0 <= b < |s.bufs| ==> s.bufs[b].refcnt == Count(s.users, b) }

  /** Whoever uses a buffer has the one it asked for. */
  ghost predicate UserOk(s: State, w: User) {
    !w.Idle? ==> w.b < |s.bufs| && w.dev > 0 && Key(s.bufs[w.b]) == (w.dev, w.blockno) && (w.Holds? ==>
        s.bufs[w.b].valid)
  }

  predicate Locked(w: User) { w.Has? || w.Holds? }

  ghost predicate HoldersOk(s: State)
    requires Shaped(s)
  {
    && (forall u :: 0 <= u < |s.users| && Locked(s.users[u]) ==>
        s.users[u].b < |s.holder| && s.holder[s.users[u].b] == u)
    && (forall b :: 0 <= b < |s.holder| && s.holder[b] != -1 ==>
        0 <= s.holder[b] < |s.users| && Locked(s.users[s.holder[b]]) && s.users[s.holder[b]].b == b)
  }

  /** The holder of b has changed it and not yet written it. */
  ghost predicate Dirty(s: State, b: nat)
    requires b < |s.holder|
  {
    0 <= s.holder[b] < |s.users| && s.users[s.holder[b]].Holds? && !s.users[s.holder[b]].clean
  }

  ghost predicate BufferOk(s: State, b: nat)
    requires Shaped(s) && b < |s.bufs|
  {
    && (s.bufs[b].valid ==> s.bufs[b].dev > 0)
    && (s.bufs[b].dev > 0 ==> Key(s.bufs[b]) in s.disk)
    && (s.bufs[b].valid && !Dirty(s, b) ==> s.data[b] == s.disk[Key(s.bufs[b])])
  }

  ghost predicate Inv(s: State) {
    && Shaped(s) && Unique(s) && Counted(s) && HoldersOk(s)
    && (forall u :: 0 <= u < |s.users| ==> UserOk(s, s.users[u]))
    && (forall b :: 0 <= b < |s.bufs| ==> BufferOk(s, b))
  }

  lemma InvInitial(s: State)
    requires Initial(s)
    ensures Inv(s)
  {
    forall b | 0 <= b < |s.bufs| ensures s.bufs[b].refcnt == Count(s.users, b) { CountZero(s.users, b); }
  }

  /** A step that changes user u alone keeps the counts in step. */
  lemma CountedKept(s: State, u: nat, s': State, b: nat)
    requires Counted(s) && u < |s.users| && |s'.bufs| == |s.bufs| && |s'.users| == |s.users| && b < |s.bufs|
    requires s'.users == s.users[u := s'.users[u]]
    requires s'.bufs[b].refcnt ==
            s.bufs[b].refcnt - (if Uses(s.users[u], b) then 1 else 0) + (if Uses(s'.users[u], b) then 1 else 0)
    ensures s'.bufs[b].refcnt == Count(s'.users, b)
  {
    CountUpdate(s.users, u, s'.users[u], b);
  }

  /** bget finds the block cached. */
  lemma HitKept(s: State, u: nat, b: nat, s': State)
    requires Inv(s) && u < |s.users| && s.users[u].Idle? && b < |s.bufs| && s.bufs[b].dev > 0
    requires s' == s.(bufs := s.bufs[b := s.bufs[b].(refcnt := s.bufs[b].refcnt + 1)],
                      users := s.users[u := Waits(b, s.bufs[b].dev, s.bufs[b].blockno)])
    ensures Inv(s')
  {
    forall c | 0 <= c < |s'.bufs| ensures s'.bufs[c].refcnt == Count(s'.users, c) { CountedKept(s, u, s', c); }
    forall c | 0 <= c < |s'.bufs| ensures BufferOk(s', c) { assert BufferOk(s, c); }
    forall v | 0 <= v < |s'.users| ensures UserOk(s', s'.users[v]) { assert UserOk(s, s.users[v]); }
  }

  /** bget recycles an unused buffer: nobody has it, and no other has its new block. */
  lemma MissKept(s: State, u: nat, b: nat, dev: nat, blockno: nat, s': State)
    requires Inv(s) && u < |s.users| && s.users[u].Idle? && b < |s.bufs| && s.bufs[b].refcnt == 0
    requires dev > 0 && (dev, blockno) in s.disk && (forall i :: 0 <= i < |s.bufs| ==> Key(s.bufs[i]) != (dev, blockno))
    requires s' == s.(bufs := s.bufs[b := Buf(false, dev, blockno, 1)], users := s.users[u := Waits(b, dev, blockno)])
    ensures Inv(s')
  {
    CountZero(s.users, b);
    forall c | 0 <= c < |s'.bufs| ensures s'.bufs[c].refcnt == Count(s'.users, c) { CountedKept(s, u, s', c); }
    forall c | 0 <= c < |s'.bufs| ensures BufferOk(s', c) { assert BufferOk(s, c); }
    forall v | 0 <= v < |s'.users| ensures UserOk(s', s'.users[v]) {
      assert UserOk(s, s.users[v]) && !Uses(s.users[v], b);
    }
  }

  lemma GetKept(s: State, u: nat, s': State)
    requires Inv(s) && Get(s, u, s')
    ensures Inv(s')
  {
    hide Inv;
    var b: nat, dev: nat, blockno: nat, bufs' :|
      dev > 0 && (dev, blockno) in s.disk && Gets(s.bufs, dev, blockno, b, bufs') &&
          s' == s.(bufs := bufs', users := s.users[u := Waits(b, dev, blockno)]);
    if exists i :: 0 <= i < |s.bufs| && Matches(s.bufs[i], dev, blockno) {
      HitKept(s, u, b, s');
    } else {
      assert forall i :: 0 <= i < |s.bufs| ==> !Matches(s.bufs[i], dev, blockno);
      MissKept(s, u, b, dev, blockno, s');
    }
  }

  lemma LockKept(s: State, u: nat, s': State)
    requires Inv(s) && Lock(s, u, s')
    ensures Inv(s')
  {
    forall c | 0 <= c < |s'.bufs| ensures s'.bufs[c].refcnt == Count(s'.users, c) { CountedKept(s, u, s', c); }
    forall c | 0 <= c < |s'.bufs| ensures BufferOk(s', c) { assert BufferOk(s, c); }
    forall v | 0 <= v < |s'.users| ensures UserOk(s', s'.users[v]) { assert UserOk(s, s.users[v]); }
  }

  lemma FillKept(s: State, u: nat, s': State)
    requires Inv(s) && Fill(s, u, s')
    ensures Inv(s')
  {
    forall c | 0 <= c < |s'.bufs| ensures s'.bufs[c].refcnt == Count(s'.users, c) { CountedKept(s, u, s', c); }
    forall c | 0 <= c < |s'.bufs| ensures BufferOk(s', c) { assert BufferOk(s, c); }
    forall v | 0 <= v < |s'.users| ensures UserOk(s', s'.users[v]) { assert UserOk(s, s.users[v]); }
  }

  lemma ModifyKept(s: State, u: nat, s': State)
    requires Inv(s) && Modify(s, u, s')
    ensures Inv(s')
  {
    forall c | 0 <= c < |s'.bufs| ensures s'.bufs[c].refcnt == Count(s'.users, c) { CountedKept(s, u, s', c); }
    forall c | 0 <= c < |s'.bufs| ensures BufferOk(s', c) { assert BufferOk(s, c); }
    forall v | 0 <= v < |s'.users| ensures UserOk(s', s'.users[v]) { assert UserOk(s, s.users[v]); }
  }

  lemma WriteKept(s: State, u: nat, s': State)
    requires Inv(s) && Write(s, u, s')
    ensures Inv(s')
  {
    forall c | 0 <= c < |s'.bufs| ensures s'.bufs[c].refcnt == Count(s'.users, c) { CountedKept(s, u, s', c); }
    forall c | 0 <= c < |s'.bufs| ensures BufferOk(s', c) { assert BufferOk(s, c) && UserOk(s, s.users[u]); }
    forall v | 0 <= v < |s'.users| ensures UserOk(s', s'.users[v]) { assert UserOk(s, s.users[v]); }
  }

  lemma UnlockKept(s: State, u: nat, s': State)
    requires Inv(s) && Unlock(s, u, s')
    ensures Inv(s')
  {
    forall c | 0 <= c < |s'.bufs| ensures s'.bufs[c].refcnt == Count(s'.users, c) { CountedKept(s, u, s', c); }
    forall c | 0 <= c < |s'.bufs| ensures BufferOk(s', c) { assert BufferOk(s, c); }
    forall v | 0 <= v < |s'.users| ensures UserOk(s', s'.users[v]) { assert UserOk(s, s.users[v]); }
  }

  lemma PutKept(s: State, u: nat, s': State)
    requires Inv(s) && Put(s, u, s')
    ensures Inv(s')
  {
    forall c | 0 <= c < |s'.bufs| ensures s'.bufs[c].refcnt == Count(s'.users, c) { CountedKept(s, u, s', c); }
    forall c | 0 <= c < |s'.bufs| ensures BufferOk(s', c) { assert BufferOk(s, c); }
    forall v | 0 <= v < |s'.users| ensures UserOk(s', s'.users[v]) { assert UserOk(s, s.users[v]); }
  }

  lemma InvKept(s: State, u: nat, s': State)
    requires Inv(s) && Step(s, u, s')
    ensures Inv(s')
  {
    hide Inv, Get, Lock, Fill, Modify, Write, Unlock, Put;
    if Get(s, u, s') { GetKept(s, u, s'); }
    else if Lock(s, u, s') { LockKept(s, u, s'); }
    else if Fill(s, u, s') { FillKept(s, u, s'); }
    else if Modify(s, u, s') { ModifyKept(s, u, s'); }
    else if Write(s, u, s') { WriteKept(s, u, s'); }
    else if Unlock(s, u, s') { UnlockKept(s, u, s'); }
    else { PutKept(s, u, s'); }
  }

  // ---------------------------------------------------------------------------
  // Every run
  // ---------------------------------------------------------------------------

  ghost predicate Next(s: State, s': State) { exists u :: Step(s, u, s') }

  ghost predicate Run(states: seq<State>) {
    |states| > 0 && Initial(states[0]) && forall i :: 0 <= i < |states| - 1 ==> Next(states[i], states[i + 1])
  }

  lemma {:induction false} RunInv(states: seq<State>, i: nat)
    requires Run(states) && i < |states|
    ensures Inv(states[i])
  {
    hide Inv, Step, Initial;
    if i == 0 {
      InvInitial(states[0]);
    } else {
      RunInv(states, i - 1);
      assert Next(states[i - 1], states[i - 1 + 1]);
      var u :| Step(states[i - 1], u, states[i]);
      InvKept(states[i - 1], u, states[i]);
    }
  }

  /** What bread returned, or bwrite wrote, is the disk's block, and the caller alone has the buffer of that block. */
  lemma BreadReturnsTheBlock(s: State, u: nat)
    requires Inv(s) && u < |s.users| && s.users[u].Holds? && s.users[u].clean
    ensures var w := s.users[u];
      && w.b < |s.bufs| && (w.dev, w.blockno) in s.disk && s.data[w.b] == s.disk[(w.dev, w.blockno)]
      && (forall v :: 0 <= v < |s.users| && v != u && Locked(s.users[v]) ==>
          (s.users[v].dev, s.users[v].blockno) != (w.dev, w.blockno))
  {
    var w := s.users[u];
    assert UserOk(s, w) && BufferOk(s, w.b);
    forall v | 0 <= v < |s.users| && v != u &&
        Locked(s.users[v]) ensures (s.users[v].dev, s.users[v].blockno) != (w.dev, w.blockno) {
      assert UserOk(s, s.users[v]);
    }
  }

  /** While u holds a block, nobody else changes it on the disk or in the cache. */
  lemma HoldersBlockIsStable(s: State, u: nat, v: nat, s': State)
    requires Inv(s) && Step(s, v, s') && u < |s.users| && u != v && s.users[u].Holds?
    ensures var w := s.users[u];
      && |s'.users| == |s.users| && s'.users[u] == w && w.b < |s.bufs| && w.b < |s'.data| && s'.data[w.b] == s.data[w.b]
      && (w.dev, w.blockno) in s.disk && (w.dev, w.blockno) in s'.disk &&
          s'.disk[(w.dev, w.blockno)] == s.disk[(w.dev, w.blockno)]
  {
    var w, x := s.users[u], s.users[v];
    assert UserOk(s, w) && UserOk(s, x) && BufferOk(s, w.b);
    if Locked(x) {
      assert s.holder[x.b] == v && s.holder[w.b] == u;
      assert x.b != w.b;
    }
  }

  /** Disk contents change only by bwrite, to what the writer has in its buffer. */
  lemma OnlyBwriteWrites(s: State, u: nat, s': State, k: (nat, nat))
    requires Inv(s) && Step(s, u, s') && k in s.disk && (k !in s'.disk || s'.disk[k] != s.disk[k])
    ensures s.users[u].Holds? && k == (s.users[u].dev, s.users[u].blockno) && s.users[u].b < |s.data|
    ensures k in s'.disk && s'.disk[k] == s.data[s.users[u].b] && s.holder[s.users[u].b] == u
  {
    assert UserOk(s, s.users[u]);
  }

  /** holdingsleep holds for whoever calls bwrite or brelse, so they do not panic. */
  lemma HolderMayWrite(s: State, u: nat)
    requires Inv(s) && u < |s.users| && s.users[u].Holds?
    ensures s.users[u].b < |s.holder| && s.holder[s.users[u].b] == u
  {
  }

  /** The panic of bget needs as many threads as there are buffers. */
  lemma NoBuffersNeedsUsers(s: State)
    requires Inv(s) && (forall b :: 0 <= b < |s.bufs| ==> s.bufs[b].refcnt > 0)
    ensures |s.bufs| <= |s.users|
  {
    hide Inv;
    var w := Takers(s, |s.bufs|);
    SmallSet(w, |s.users|);
  }

  /** One thread for each of the first k buffers. */
  lemma {:induction false} Takers(s: State, k: nat) returns (w: set<nat>)
    requires Inv(s) && k <= |s.bufs| && (forall b :: 0 <= b < |s.bufs| ==> s.bufs[b].refcnt > 0)
    ensures |w| == k && forall u :: u in w ==> u < |s.users| && !s.users[u].Idle? && s.users[u].b < k
  {
    if k == 0 {
      w := {};
    } else {
      w := Takers(s, k - 1);
      assert s.bufs[k - 1].refcnt == Count(s.users, k - 1);
      CountZero(s.users, k - 1);
      var u :| 0 <= u < |s.users| && Uses(s.users[u], k - 1);
      w := w + {u};
    }
  }

  lemma {:induction false} SmallSet(w: set<nat>, n: nat)
    requires forall u :: u in w ==> u < n
    ensures |w| <= n
  {
    if n == 0 {
      assert w == {};
    } else {
      SmallSet(w - {n - 1}, n - 1);
      if n - 1 in w {
        assert |w| == |w - {n - 1}| + 1;
      } else {
        assert w - {n - 1} == w;
      }
    }
  }
}
