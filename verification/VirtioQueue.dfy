/**
  The virtio disk driver (`kernel/virtio_disk.c`) in concurrent use: any number of threads that request
  transfers or run the interrupt handler, and the device, in every interleaving.  A step is one access
  of a thread to the shared memory or to vdisk_lock, or one action of the device, which may fall
  between any two accesses of the driver.

  The caller of virtio_disk_rw holds the sleep lock of its buffer, so a buffer is in at most one
  request.  The device works on its requests in any order and reports success; it moves the data of a
  request, writes its status, enters it in the used ring and raises the index in steps of their own.
  sleep gives up the lock and sleeps in one step, and wakeup wakes all sleepers of a channel in one step.
 */
module VirtioQueue {
  import opened VirtioDesc
  import opened VirtioMem

  /** What a thread asks for; the sector is computed before the lock is taken. */
  datatype Want = Want(b: nat, write: bool, sector: nat)

  datatype Pc =
    | Idle
    // virtio_disk_rw: up to the allocation of descriptors, which may have to wait for free ones
    | Start(w: Want) | Alloc(w: Want) | AskSleep(w: Want) | AskWoken(w: Want)
    // with the chain that starts at h: make the request, wait for it, and free the chain
    | Fill(h: nat) | Test(h: nat) | Asleep(h: nat) | Woken(h: nat)
    | Clear(h: nat) | Drop(h: nat, d: nat) | WakeFree(h: nat, flag: bool, nxt: nat) | Leave
    // virtio_disk_intr
    | IStart | ITest | IRead | IHave(id: nat) | IWake(id: nat, b: nat) | IAdv(id: nat)

  /** `lock` is the thread that holds vdisk_lock, or -1. */
  datatype State = State(mem: Mem, agents: seq<Pc>, lock: int)

  /** Where a thread holds vdisk_lock. */
  predicate Holds(pc: Pc) {
    || pc.Alloc? || pc.Fill? || pc.Test? || pc.Clear? || pc.Drop? || pc.WakeFree? || pc.Leave?
    || pc.ITest? || pc.IRead? || pc.IHave? || pc.IWake? || pc.IAdv?
  }

  /** The request a thread has, by the head of its chain. */
  function HeadOf(pc: Pc): (h: int) {
    if pc.Fill? || pc.Test? || pc.Asleep? || pc.Woken? || pc.Clear? || pc.Drop? || (pc.WakeFree? && pc.flag) then pc.h
        else -1
  }

  predicate Asks(pc: Pc) { pc.Start? || pc.Alloc? || pc.AskSleep? || pc.AskWoken? }

  /** The buffer a thread is transferring. */
  function BufOf(m: Mem, pc: Pc): (b: int) {
    if Asks(pc) then pc.w.b else if HeadOf(pc) >= 0 && HeadOf(pc) in m.reqs then m.reqs[HeadOf(pc)].b else -1
  }

  // ---------------------------------------------------------------------------
  // Steps
  // ---------------------------------------------------------------------------

  /** wakeup(&disk.free[0]) */
  function WokeFree(agents: seq<Pc>): (r: seq<Pc>)
    ensures |r| == |agents|
  {
    seq(|agents|, i requires 0 <= i < |agents| => if agents[i].AskSleep? then AskWoken(agents[i].w) else agents[i])
  }

  /** wakeup(b) */
  function WokeBuf(agents: seq<Pc>, m: Mem, b: nat): (r: seq<Pc>)
    ensures |r| == |agents|
  {
    seq(|agents|, i requires 0 <= i < |agents| =>
      if agents[i].Asleep? && BufOf(m, agents[i]) == b then Woken(agents[i].h) else agents[i])
  }

  /** Thread a goes on at `pc`, with the memory and the lock as given. */
  ghost predicate Goes(s: State, a: nat, m: Mem, pc: Pc, lock: int, s': State)
    requires a < |s.agents|
  {
    s' == State(m, s.agents[a := pc], lock)
  }

  ghost predicate Unclaimed(s: State, b: int) { forall c :: 0 <= c < |s.agents| ==> BufOf(s.mem, s.agents[c]) != b }

  /** The steps of virtio_disk_rw up to a complete chain. */
  ghost predicate Requests(s: State, a: nat, s': State)
    requires a < |s.agents| && Sized(s.mem)
  {
    var m := s.mem;
    match s.agents[a]
    case Idle =>
      exists b: nat, write :: b < |m.bufDisk| && Sector(m.blockno[b]) in m.disk && Unclaimed(s, b)
        && Goes(s, a, m, Start(Want(b, write, Sector(m.blockno[b]))), s.lock, s')
    case Start(w) => s.lock == -1 && Goes(s, a, m, Alloc(w), a, s')
    case AskWoken(w) => s.lock == -1 && Goes(s, a, m, Alloc(w), a, s')
    case Alloc(w) =>
      if CountFree(m.free) >= 3 then
        exists i: nat, j: nat, k: nat :: ThreeFree(m, i, j, k)
          && Goes(s, a, Allocated(m, a, w.b, w.write, w.sector, i, j, k), Fill(i), a, s')
      else
        // alloc3_desc gives back what it had taken, and free_desc calls wakeup each time
        s' == State(m, (if CountFree(m.free) > 0 then WokeFree(s.agents) else s.agents)[a := AskSleep(w)], -1)
    case Fill(h) =>
      InTables(m, h) && m.reqs[h].phase.Building? &&
      if m.reqs[h].phase.n < 8 then Goes(s, a, Written(m, h), Fill(h), a, s')
          else Goes(s, a, Published(m, h), Test(h), a, s')
    case _ => false
  }

  /** The steps of virtio_disk_rw from there on. */
  ghost predicate Collects(s: State, a: nat, s': State)
    requires a < |s.agents| && Sized(s.mem)
  {
    var m := s.mem;
    match s.agents[a]
    case Test(h) =>
      InTables(m, h) && if m.bufDisk[m.reqs[h].b] then Goes(s, a, m, Asleep(h), -1, s')
          else Goes(s, a, m, Clear(h), a, s')
    case Woken(h) => s.lock == -1 && Goes(s, a, m, Test(h), a, s')
    case Clear(h) => InTables(m, h) && Goes(s, a, InfoCleared(m, h), Drop(h, h), a, s')
    case Drop(h, d) =>
      d < NUM && !m.free[d] && Goes(s, a, FreedOne(m, h, d), WakeFree(h, m.desc[d].more, m.desc[d].next), a, s')
    case WakeFree(h, flag, nxt) =>
      s' == State(m, WokeFree(s.agents)[a := if flag then Drop(h, nxt) else Leave], a)
    case Leave => Goes(s, a, m, Idle, -1, s')
    case _ => false
  }

  ghost predicate Handles(s: State, a: nat, s': State)
    requires a < |s.agents| && Sized(s.mem)
  {
    var m := s.mem;
    match s.agents[a]
    case Idle => Goes(s, a, m, IStart, s.lock, s')
    case IStart => s.lock == -1 && Goes(s, a, m, ITest, a, s')
    case ITest =>
      if m.usedSeen != m.usedIdx then Goes(s, a, m, IRead, a, s') else Goes(s, a, m, Idle, -1, s')
    case IRead => Goes(s, a, m, IHave(m.used[m.usedSeen % NUM]), a, s')
    case IHave(id) => IntrSafe(m, id) && Goes(s, a, DiskCleared(m, id), IWake(id, m.info[id].b), a, s')
    case IWake(id, b) => s' == State(m, WokeBuf(s.agents, m, b)[a := IAdv(id)], a)
    case IAdv(_) => Goes(s, a, Advanced(m), ITest, a, s')
    case _ => false
  }

  /** kill wakes a thread that sleeps. */
  ghost predicate Kills(s: State, a: nat, s': State)
    requires a < |s.agents|
  {
    match s.agents[a]
    case AskSleep(w) => Goes(s, a, s.mem, AskWoken(w), s.lock, s')
    case Asleep(h) => Goes(s, a, s.mem, Woken(h), s.lock, s')
    case _ => false
  }

  /** The holder of a buffer that is in no transfer changes it. */
  ghost predicate Modifies(s: State, b: nat, x: Data, blockno: nat, s': State)
    requires Sized(s.mem)
  {
    b < |s.mem.data| && Unclaimed(s, b) && s' == s.(mem := Modified(s.mem, b, x, blockno))
  }

  ghost predicate AgentStep(s: State, a: nat, s': State)
    requires Sized(s.mem)
  {
    a < |s.agents| && (Requests(s, a, s') || Collects(s, a, s') || Handles(s, a, s') || Kills(s, a, s'))
  }

  ghost predicate DeviceStep(s: State, s': State)
    requires Sized(s.mem)
  {
    && s' == s.(mem := s'.mem)
    && (|| Take(s.mem, s'.mem) || (exists h :: Carries(s.mem, h, s'.mem)) || (exists h :: Completes(s.mem, h, s'.mem)))
  }

  ghost predicate Step(s: State, s': State) {
    && Sized(s.mem)
    && (|| (exists a: nat :: AgentStep(s, a, s')) || DeviceStep(s, s')
        || (exists b: nat, x, blockno: nat :: Modifies(s, b, x, blockno, s')))
  }

  ghost predicate Initial(s: State) {
    var m := s.mem;
    && Sized(m) && (forall i :: 0 <= i < NUM ==> m.free[i] && m.desc[i] == CLEAR)
    && m.availIdx == 0 && m.usedIdx == 0 && m.usedSeen == 0 && m.devSeen == 0 && m.working == map[]
    && m.reqs == map[] && m.posted == [] && m.done == []
    && s.lock == -1 && forall a :: 0 <= a < |s.agents| ==> s.agents[a].Idle?
  }

  // ---------------------------------------------------------------------------
  // The invariant
  // ---------------------------------------------------------------------------

  /** A request that its thread waits for. */
  predicate Flying(p: Phase) { p.Posted? || p.Taken? || p.Done? || p.Cleared? || p.Seen? }

  ghost predicate Mine(m: Mem, a: nat, h: nat) { h in m.reqs && m.reqs[h].agent == a }

  /** The handler is at the oldest entry of the used ring. */
  ghost predicate AtOldest(m: Mem, id: nat) { |m.done| > 0 && m.done[0] == id && id in m.reqs }

  /** What is known at each place of a thread. */
  ghost predicate AgentOk(m: Mem, a: nat, pc: Pc) {
    match pc
    case Idle => true
    case Start(w) => WantOk(m, w)
    case Alloc(w) => WantOk(m, w)
    case AskSleep(w) => WantOk(m, w)
    case AskWoken(w) => WantOk(m, w)
    case Fill(h) => Mine(m, a, h) && m.reqs[h].phase.Building?
    case Test(h) => Mine(m, a, h) && Flying(m.reqs[h].phase)
    case Asleep(h) => Mine(m, a, h) && Flying(m.reqs[h].phase)
    case Woken(h) => Mine(m, a, h) && Flying(m.reqs[h].phase)
    case Clear(h) => Mine(m, a, h) && m.reqs[h].phase.Seen?
    case Drop(h, d) => Mine(m, a, h) && m.reqs[h].phase.Freeing? && d == Nth(h, m.reqs[h], m.reqs[h].phase.n)
    case WakeFree(h, flag, nxt) =>
      flag ==> Mine(m, a, h) && m.reqs[h].phase.Freeing? && nxt == Nth(h, m.reqs[h], m.reqs[h].phase.n)
    case Leave => true
    case IStart => true
    case ITest => true
    case IRead => |m.done| > 0 && m.done[0] in m.reqs && m.reqs[m.done[0]].phase.Done?
    case IHave(id) => AtOldest(m, id) && m.reqs[id].phase.Done?
    case IWake(id, b) => AtOldest(m, id) && m.reqs[id].phase.Cleared? && m.reqs[id].b == b
    case IAdv(id) => AtOldest(m, id) && m.reqs[id].phase.Cleared?
  }

  ghost predicate WantOk(m: Mem, w: Want) {
    w.b < |m.blockno| && w.sector == Sector(m.blockno[w.b]) && w.sector in m.disk
  }

  ghost predicate AgentsOk(s: State) { forall a :: 0 <= a < |s.agents| ==> AgentOk(s.mem, a, s.agents[a]) }

  /** Exactly the thread that holds the lock is where it is held. */
  ghost predicate LockOk(s: State) {
    -1 <= s.lock < |s.agents| && forall a :: 0 <= a < |s.agents| ==> (Holds(s.agents[a]) <==> a == s.lock)
  }

  /** Every request belongs to the thread that made it. */
  ghost predicate OwnersOk(s: State) {
    forall h :: h in s.mem.reqs ==> s.mem.reqs[h].agent < |s.agents| && HeadOf(s.agents[s.mem.reqs[h].agent]) == h
  }

  ghost predicate BuffersOk(s: State) {
    forall a, c :: 0 <= a < |s.agents| && 0 <= c < |s.agents| && a != c && BufOf(s.mem, s.agents[a]) >= 0 ==>
      BufOf(s.mem, s.agents[a]) != BufOf(s.mem, s.agents[c])
  }

  /** The handler that has cleared b->disk has the lock until it has moved on. */
  ghost predicate ClearedOk(s: State) {
    forall h :: h in s.mem.reqs && s.mem.reqs[h].phase.Cleared? ==> HandlerAt(s, h)
  }

  ghost predicate HandlerAt(s: State, h: nat) {
    0 <= s.lock < |s.agents| && (s.agents[s.lock].IWake? || s.agents[s.lock].IAdv?) && s.agents[s.lock].id == h
  }

  /** Nobody sleeps for what is there, unless the thread with the lock is about to call wakeup. */
  ghost predicate WakesOk(s: State) {
    forall a :: 0 <= a < |s.agents| ==> AwaitsOk(s, s.agents[a])
  }

  ghost predicate AwaitsOk(s: State, pc: Pc) {
    && (pc.AskSleep? && CountFree(s.mem.free) >= 3 ==> 0 <= s.lock < |s.agents| && s.agents[s.lock].WakeFree?)
    && (pc.Asleep? && pc.h in s.mem.reqs && !Waited(s.mem.reqs[pc.h].phase) ==>
          HandlerAt(s, pc.h) && s.agents[s.lock].IWake?)
  }

  ghost predicate Inv(s: State) {
    MemOk(s.mem) && LockOk(s) && AgentsOk(s) && OwnersOk(s) && BuffersOk(s) && ClearedOk(s) && WakesOk(s)
  }

  // ---------------------------------------------------------------------------
  // What a step of one thread leaves the others
  // ---------------------------------------------------------------------------

  predicate Wakes(pc: Pc, pc': Pc) { (pc.AskSleep? && pc' == AskWoken(pc.w)) || (pc.Asleep? && pc' == Woken(pc.h)) }

  /** Thread a goes on at pc'; others may be woken. */
  ghost predicate Moved(s: State, a: nat, pc': Pc, s': State) {
    && a < |s.agents| && |s'.agents| == |s.agents| && s'.agents[a] == pc'
    && forall c :: 0 <= c < |s.agents| && c != a ==> s'.agents[c] == s.agents[c] || Wakes(s.agents[c], s'.agents[c])
  }

  ghost predicate LockMove(s: State, a: nat, pc': Pc, lock': int)
    requires a < |s.agents|
  {
    if Holds(s.agents[a]) then lock' == (if Holds(pc') then a else -1)
    else if Holds(pc') then s.lock == -1 && lock' == a else lock' == s.lock
  }

  predicate SameReq(r: Request, r': Request) {
    && r' == r.(phase := r'.phase, moved := r'.moved)
    && (r'.phase == r.phase || (Flying(r.phase) && Flying(r'.phase) && !r.phase.Seen?))
  }

  /** The requests of other threads than a stay, but for what the device and the handler do to them. */
  ghost predicate Frame(m: Mem, m': Mem, a: nat) {
    && m'.blockno == m.blockno && m.disk.Keys <= m'.disk.Keys
    && (forall h :: h in m.reqs && m.reqs[h].agent != a ==> h in m'.reqs && SameReq(m.reqs[h], m'.reqs[h]))
    && (forall h :: h in m'.reqs && m'.reqs[h].agent != a ==> h in m.reqs && m'.reqs[h].agent == m.reqs[h].agent)
  }

  ghost predicate OldestStays(m: Mem, m': Mem) {
    |m.done| > 0 && m.done[0] in m.reqs ==>
      |m'.done| > 0 && m'.done[0] == m.done[0] && m.done[0] in m'.reqs && m'.reqs[m.done[0]] == m.reqs[m.done[0]]
  }

  lemma OtherOk(m: Mem, a: nat, m': Mem, c: nat, pc: Pc)
    requires AgentOk(m, c, pc) && Frame(m, m', a) && c != a && (!Holds(pc) || OldestStays(m, m'))
    ensures AgentOk(m', c, pc) && BufOf(m', pc) == BufOf(m, pc)
  {
  }

  lemma WokenOk(m: Mem, c: nat, pc: Pc, pc': Pc)
    requires AgentOk(m, c, pc) && Wakes(pc, pc')
    ensures AgentOk(m, c, pc') && BufOf(m, pc') == BufOf(m, pc) && HeadOf(pc') == HeadOf(pc) && !Holds(pc) &&
            !Holds(pc')
  {
  }

  lemma LockKept(s: State, a: nat, pc': Pc, s': State)
    requires LockOk(s) && Moved(s, a, pc', s') && LockMove(s, a, pc', s'.lock)
    ensures LockOk(s')
  {
  }

  /** The others know what they knew, and have the buffers they had. */
  lemma OthersKept(s: State, a: nat, pc': Pc, s': State)
    requires LockOk(s) && AgentsOk(s) && Moved(s, a, pc', s') && Frame(s.mem, s'.mem, a)
    requires s'.mem == s.mem || Holds(s.agents[a])
    ensures forall c :: 0 <= c < |s.agents| && c != a ==>
      && AgentOk(s'.mem, c, s'.agents[c]) && BufOf(s'.mem, s'.agents[c]) == BufOf(s.mem, s.agents[c])
      && HeadOf(s'.agents[c]) == HeadOf(s.agents[c])
  {
    hide AgentOk, Frame, BufOf, HeadOf;
    forall c | 0 <= c < |s.agents| && c != a
      ensures AgentOk(s'.mem, c, s'.agents[c]) && BufOf(s'.mem, s'.agents[c]) == BufOf(s.mem, s.agents[c])
      ensures HeadOf(s'.agents[c]) == HeadOf(s.agents[c])
    {
      assert AgentOk(s.mem, c, s.agents[c]);
      OtherOk(s.mem, a, s'.mem, c, s.agents[c]);
      if s'.agents[c] != s.agents[c] {
        WokenOk(s.mem, c, s.agents[c], s'.agents[c]);
        WokenOk(s'.mem, c, s.agents[c], s'.agents[c]);
      }
    }
  }

  /** What holds of thread a itself after its step. */
  ghost predicate SelfOk(s: State, a: nat, pc': Pc, s': State)
    requires a < |s.agents|
  {
    var b' := BufOf(s'.mem, pc');
    && AgentOk(s'.mem, a, pc')
    && (forall h :: h in s'.mem.reqs && s'.mem.reqs[h].agent == a ==> HeadOf(pc') == h)
    && (b' == BufOf(s.mem, s.agents[a]) || b' == -1 || forall c :: 0 <= c < |s.agents| && c != a ==>
        BufOf(s.mem, s.agents[c]) != b')
  }

  lemma Assembled(s: State, a: nat, pc': Pc, s': State)
    requires Inv(s) && MemOk(s'.mem) && Moved(s, a, pc', s') && LockMove(s, a, pc', s'.lock) && Frame(s.mem, s'.mem, a)
    requires s'.mem == s.mem || Holds(s.agents[a])
    requires SelfOk(s, a, pc', s') && ClearedOk(s') && WakesOk(s')
    ensures Inv(s')
  {
    hide MemOk, ClearedOk, WakesOk, AgentOk, BufOf, HeadOf, LockMove;
    LockKept(s, a, pc', s');
    OthersKept(s, a, pc', s');
    hide LockOk;
  }

  /** The thread with the lock, if it is another one, is where it was. */
  lemma HolderStays(s: State, a: nat, pc': Pc, s': State)
    requires LockOk(s) && Moved(s, a, pc', s') && LockMove(s, a, pc', s'.lock) && s.lock >= 0 && s.lock != a
    ensures s'.lock == s.lock && s'.agents[s.lock] == s.agents[s.lock]
  {
  }

  /** A step that leaves phases and descriptors alone wakes nobody wrongly. */
  lemma SleepersKept(s: State, a: nat, pc': Pc, s': State)
    requires Inv(s) && Moved(s, a, pc', s') && LockMove(s, a, pc', s'.lock) && s'.mem == s.mem
    requires !s.agents[a].WakeFree? && !s.agents[a].IWake? && !s.agents[a].IAdv? && AwaitsOk(s', pc')
    ensures ClearedOk(s') && WakesOk(s')
  {
    hide MemOk, AgentsOk, OwnersOk, BuffersOk, CountFree;
    if s.lock >= 0 && s.lock != a {
      HolderStays(s, a, pc', s');
    }
    forall c | 0 <= c < |s'.agents| ensures AwaitsOk(s', s'.agents[c]) {
      assert AwaitsOk(s, s.agents[c]);
    }
  }

  // ---------------------------------------------------------------------------
  // Steps that leave the memory alone
  // ---------------------------------------------------------------------------

  /** A step of thread a from pc to pc' with the memory as it is. */
  ghost predicate Walks(s: State, a: nat, pc': Pc, s': State) {
    Moved(s, a, pc', s') && LockMove(s, a, pc', s'.lock) && s'.mem == s.mem
  }

  lemma WalkKept(s: State, a: nat, pc': Pc, s': State)
    requires Inv(s) && Walks(s, a, pc', s') && AgentOk(s.mem, a, pc') && AwaitsOk(s', pc')
    requires !s.agents[a].WakeFree? && !s.agents[a].IWake? && !s.agents[a].IAdv?
    requires HeadOf(pc') == HeadOf(s.agents[a])
    requires BufOf(s.mem, pc') == BufOf(s.mem, s.agents[a]) || BufOf(s.mem, pc') == -1 ||
            Unclaimed(s, BufOf(s.mem, pc'))
    ensures Inv(s')
  {
    hide MemOk, AgentOk, BufOf, HeadOf, CountFree, LockOk, BuffersOk;
    SleepersKept(s, a, pc', s');
    forall h | h in s.mem.reqs && s.mem.reqs[h].agent == a ensures HeadOf(pc') == h {
    }
    assert SelfOk(s, a, pc', s');
    assert Frame(s.mem, s'.mem, a);
    Assembled(s, a, pc', s');
  }

  /** Threads that wait for the lock, take it or give it up, and what they find when they have it. */
  lemma AskKept(s: State, a: nat, s': State)
    requires Inv(s) && a < |s.agents| && Requests(s, a, s') && !s.agents[a].Fill?
    requires s.agents[a].Alloc? ==> CountFree(s.mem.free) < 3
    ensures Inv(s')
  {
    hide ReqsOk, Partition, Queues, Rings, CountFree, Unclaimed, OwnersOk, BuffersOk, ClearedOk, WakesOk;
    assert AgentOk(s.mem, a, s.agents[a]);
    assert Walks(s, a, s'.agents[a], s');
    WalkKept(s, a, s'.agents[a], s');
  }

  /**
    A thread that has the lock and finds b->disk clear has a request that is complete: its buffer holds
    what its sector held when the device had moved the data.
   */
  lemma SeenWhenClear(s: State, a: nat, h: nat)
    requires Inv(s) && a < |s.agents| && s.agents[a] == Test(h)
    ensures InTables(s.mem, h) && (s.mem.bufDisk[s.mem.reqs[h].b] <==> Waited(s.mem.reqs[h].phase))
    ensures !s.mem.bufDisk[s.mem.reqs[h].b] ==>
              && s.mem.reqs[h].phase.Seen? && s.mem.info[h].status == 0
              && s.mem.data[s.mem.reqs[h].b] == s.mem.reqs[h].moved
  {
    hide ReqsOk, Partition, Queues, Rings, OwnersOk, BuffersOk, WakesOk, ChainOk;
    assert AgentOk(s.mem, a, s.agents[a]) && Holds(s.agents[a]);
    InTable(s.mem, h);
    NoneCleared(s, a);
  }

  lemma TestKept(s: State, a: nat, s': State)
    requires Inv(s) && a < |s.agents| && Collects(s, a, s')
    requires s.agents[a].Test? || s.agents[a].Woken? || s.agents[a].Leave?
    ensures Inv(s')
  {
    hide MemOk, CountFree, OwnersOk, BuffersOk, ClearedOk, WakesOk;
    assert AgentOk(s.mem, a, s.agents[a]);
    if s.agents[a].Test? {
      SeenWhenClear(s, a, s.agents[a].h);
    }
    assert Walks(s, a, s'.agents[a], s');
    WalkKept(s, a, s'.agents[a], s');
  }

  /** The handler finds the oldest completed request, whose b->disk no handler has cleared. */
  lemma HandlerFinds(s: State, a: nat)
    requires Inv(s) && a < |s.agents|
    ensures s.agents[a].ITest? && s.mem.usedSeen != s.mem.usedIdx ==> AgentOk(s.mem, a, IRead)
    ensures s.agents[a].IRead? ==> AgentOk(s.mem, a, IHave(s.mem.used[s.mem.usedSeen % NUM]))
  {
    hide ReqsOk, Partition, Queues, Rings, OwnersOk, BuffersOk, WakesOk;
    DoneFirst(s.mem);
    assert Holds(s.agents[a]) <==> a == s.lock;
    assert AgentOk(s.mem, a, s.agents[a]);
  }

  lemma PollKept(s: State, a: nat, s': State)
    requires Inv(s) && a < |s.agents| && Handles(s, a, s')
    requires s.agents[a].Idle? || s.agents[a].IStart? || s.agents[a].ITest? || s.agents[a].IRead?
    ensures Inv(s')
  {
    hide MemOk, CountFree, OwnersOk, BuffersOk, ClearedOk, WakesOk;
    HandlerFinds(s, a);
    assert Walks(s, a, s'.agents[a], s');
    WalkKept(s, a, s'.agents[a], s');
  }

  lemma KillKept(s: State, a: nat, s': State)
    requires Inv(s) && a < |s.agents| && Kills(s, a, s')
    ensures Inv(s')
  {
    hide MemOk, CountFree, OwnersOk, BuffersOk, ClearedOk, WakesOk;
    assert AgentOk(s.mem, a, s.agents[a]);
    assert Walks(s, a, s'.agents[a], s');
    WalkKept(s, a, s'.agents[a], s');
  }

  // ---------------------------------------------------------------------------
  // wakeup
  // ---------------------------------------------------------------------------

  lemma WakeFreeKept(s: State, a: nat, s': State)
    requires Inv(s) && a < |s.agents| && Collects(s, a, s') && s.agents[a].WakeFree?
    ensures Inv(s')
  {
    hide MemOk, CountFree, BuffersOk;
    var pc' := s'.agents[a];
    assert AgentOk(s.mem, a, s.agents[a]) && Holds(s.agents[a]);
    assert Moved(s, a, pc', s');
    assert ClearedOk(s');
    forall c | 0 <= c < |s'.agents| ensures AwaitsOk(s', s'.agents[c]) {
      assert AwaitsOk(s, s.agents[c]);
    }
    assert SelfOk(s, a, pc', s');
    assert Frame(s.mem, s'.mem, a);
    Assembled(s, a, pc', s');
  }

  lemma IWakeKept(s: State, a: nat, s': State)
    requires Inv(s) && a < |s.agents| && Handles(s, a, s') && s.agents[a].IWake?
    ensures Inv(s')
  {
    hide MemOk, CountFree, BuffersOk;
    var pc' := s'.agents[a];
    assert AgentOk(s.mem, a, s.agents[a]) && Holds(s.agents[a]);
    assert Moved(s, a, pc', s');
    assert ClearedOk(s');
    forall c | 0 <= c < |s'.agents| ensures AwaitsOk(s', s'.agents[c]) {
      assert AwaitsOk(s, s.agents[c]);
    }
    assert SelfOk(s, a, pc', s');
    assert Frame(s.mem, s'.mem, a);
    Assembled(s, a, pc', s');
  }

  // ---------------------------------------------------------------------------
  // Steps on the memory
  // ---------------------------------------------------------------------------

  /** While a thread with another pc has the lock, no handler has cleared b->disk and not moved on. */
  lemma NoneCleared(s: State, a: nat)
    requires LockOk(s) && ClearedOk(s) && a < |s.agents| && Holds(s.agents[a]) && !s.agents[a].IWake? &&
            !s.agents[a].IAdv?
    ensures forall h :: h in s.mem.reqs ==> !s.mem.reqs[h].phase.Cleared?
  {
  }

  /** While a thread allocates, no chain is half freed. */
  lemma AllocAlone(s: State, a: nat)
    requires Inv(s) && a < |s.agents| && s.agents[a].Alloc?
    ensures NoneFreeing(s.mem) && Unused(s.mem, s.agents[a].w.b) &&
            s.agents[a].w.sector == Sector(s.mem.blockno[s.agents[a].w.b])
  {
    hide ReqsOk, Partition, Queues, Rings, ClearedOk, WakesOk;
    assert AgentOk(s.mem, a, s.agents[a]) && Holds(s.agents[a]);
    forall h | h in s.mem.reqs ensures !s.mem.reqs[h].phase.Freeing? && s.mem.reqs[h].b != s.agents[a].w.b {
      var c := s.mem.reqs[h].agent;
      assert AgentOk(s.mem, c, s.agents[c]) && HeadOf(s.agents[c]) == h;
      assert BufOf(s.mem, s.agents[c]) == s.mem.reqs[h].b;
    }
  }

  /** While a thread makes a request, no other is being made. */
  lemma FillAlone(s: State, a: nat)
    requires Inv(s) && a < |s.agents| && s.agents[a].Fill?
    ensures InTables(s.mem, s.agents[a].h) && s.mem.reqs[s.agents[a].h].phase.Building? &&
            OnlyBuilding(s.mem, s.agents[a].h)
    ensures s.mem.reqs[s.agents[a].h].phase.n <= 8 && s.mem.reqs[s.agents[a].h].agent == a
  {
    hide ReqsOk, Partition, Queues, Rings, ClearedOk, WakesOk, BuffersOk, ChainOk, EntryOk;
    assert AgentOk(s.mem, a, s.agents[a]) && Holds(s.agents[a]);
    InTable(s.mem, s.agents[a].h);
    forall g | g in s.mem.reqs && g != s.agents[a].h ensures !s.mem.reqs[g].phase.Building? {
      var c := s.mem.reqs[g].agent;
      assert AgentOk(s.mem, c, s.agents[c]) && HeadOf(s.agents[c]) == g;
    }
  }

  lemma {:induction false} CountFreeLess(f: seq<bool>, g: seq<bool>)
    requires |f| == |g| && forall l :: 0 <= l < |f| ==> (f[l] ==> g[l])
    ensures CountFree(f) <= CountFree(g)
  {
    if f != [] {
      CountFreeLess(f[..|f| - 1], g[..|g| - 1]);
    }
  }

  lemma FewerFree(free: seq<bool>, i: nat, j: nat, k: nat)
    requires i < |free| && j < |free| && k < |free|
    ensures CountFree(SetAll(free, [i, j, k], false)) <= CountFree(free)
  {
    hide SetAll, CountFree;
    var f := SetAll(free, [i, j, k], false);
    forall l | 0 <= l < |free| ensures f[l] ==> free[l] {
      ThreeAt(free, i, j, k, false, l);
    }
    CountFreeLess(f, free);
  }

  /** A step of a thread with the lock that makes no b->disk drop, and frees nothing, wakes nobody wrongly. */
  lemma HolderSleepers(s: State, a: nat, pc': Pc, s': State)
    requires LockOk(s) && AgentsOk(s) && ClearedOk(s) && WakesOk(s) && a < |s.agents| && Holds(s.agents[a]) &&
            Holds(pc')
    requires s'.agents == s.agents[a := pc'] && s'.lock == a
    requires !s.agents[a].WakeFree? && !s.agents[a].IWake? && !s.agents[a].IAdv?
    requires forall h :: h in s.mem.reqs && s.mem.reqs[h].agent != a ==>
            h in s'.mem.reqs && s'.mem.reqs[h] == s.mem.reqs[h]
    requires forall h :: h in s'.mem.reqs && s'.mem.reqs[h].agent != a ==>
            h in s.mem.reqs && s'.mem.reqs[h] == s.mem.reqs[h]
    requires forall h :: h in s'.mem.reqs && s'.mem.reqs[h].agent == a ==> !s'.mem.reqs[h].phase.Cleared?
    requires CountFree(s'.mem.free) <= CountFree(s.mem.free) || pc'.WakeFree?
    ensures ClearedOk(s') && WakesOk(s')
  {
    hide CountFree;
    NoneCleared(s, a);
    forall c | 0 <= c < |s'.agents| ensures AwaitsOk(s', s'.agents[c]) {
      assert AwaitsOk(s, s.agents[c]) && AgentOk(s.mem, c, s.agents[c]);
    }
  }

  lemma AllocKept(s: State, a: nat, s': State)
    requires Inv(s) && a < |s.agents| && Requests(s, a, s') && s.agents[a].Alloc? && CountFree(s.mem.free) >= 3
    ensures Inv(s')
  {
    hide ReqsOk, Partition, Queues, Rings, CountFree, SetAll, BuffersOk, Unused, WakesOk, ClearedOk;
    var w := s.agents[a].w;
    var i: nat, j: nat, k: nat :| ThreeFree(s.mem, i, j, k)
      && Goes(s, a, Allocated(s.mem, a, w.b, w.write, w.sector, i, j, k), Fill(i), a, s');
    AllocAlone(s, a);
    AllocatedKept(s.mem, a, w.b, w.write, i, j, k);
    FewerFree(s.mem.free, i, j, k);
    assert AgentOk(s.mem, a, s.agents[a]) && Holds(s.agents[a]);
    assert Frame(s.mem, s'.mem, a);
    assert SelfOk(s, a, Fill(i), s');
    HolderSleepers(s, a, Fill(i), s');
    Assembled(s, a, Fill(i), s');
  }

  /** The requests but h are as they were. */
  ghost predicate OnlyReq(m: Mem, h: nat, m': Mem) {
    && h in m.reqs
    && (forall g :: g in m.reqs && g != h ==> g in m'.reqs && m'.reqs[g] == m.reqs[g])
    && (forall g :: g in m'.reqs ==> g in m.reqs)
    && (h in m'.reqs ==> m'.reqs[h] == m.reqs[h].(phase := m'.reqs[h].phase))
    && m'.blockno == m.blockno && m'.disk == m.disk
  }

  /** A step of the thread that has request h, on that request alone, by which no b->disk drops. */
  lemma OwnKept(s: State, a: nat, h: nat, pc': Pc, s': State)
    requires Inv(s) && a < |s.agents| && Holds(s.agents[a]) && HeadOf(s.agents[a]) == h && s'.lock == a
    requires s'.agents == s.agents[a := pc'] && Holds(pc') && MemOk(s'.mem) && OnlyReq(s.mem, h, s'.mem)
    requires s.mem.reqs[h].agent == a && AgentOk(s'.mem, a, pc')
    requires HeadOf(pc') == (if h in s'.mem.reqs then h else -1) && !Asks(pc')
    requires h in s'.mem.reqs ==> !s'.mem.reqs[h].phase.Cleared?
    requires CountFree(s'.mem.free) <= CountFree(s.mem.free) || pc'.WakeFree?
    requires !s.agents[a].WakeFree?
    ensures Inv(s')
  {
    hide MemOk, CountFree, BuffersOk, WakesOk, ClearedOk;
    HolderSleepers(s, a, pc', s');
    forall g | g in s'.mem.reqs && s'.mem.reqs[g].agent == a ensures HeadOf(pc') == g {
      assert HeadOf(s.agents[a]) == g;
    }
    assert Frame(s.mem, s'.mem, a);
    assert SelfOk(s, a, pc', s');
    Assembled(s, a, pc', s');
  }

  lemma FillKept(s: State, a: nat, s': State)
    requires Inv(s) && a < |s.agents| && Requests(s, a, s') && s.agents[a].Fill?
    ensures Inv(s')
  {
    hide ReqsOk, Partition, Queues, Rings, CountFree, LockOk, BuffersOk, WakesOk, OwnersOk, ClearedOk, WrittenDesc,
        WrittenInfo;
    var h := s.agents[a].h;
    FillAlone(s, a);
    if s.mem.reqs[h].phase.n < 8 {
      WrittenKept(s.mem, h);
      OwnKept(s, a, h, Fill(h), s');
    } else {
      PublishedKept(s.mem, h);
      OwnKept(s, a, h, Test(h), s');
    }
  }

  lemma ClearKept(s: State, a: nat, s': State)
    requires Inv(s) && a < |s.agents| && Collects(s, a, s') && s.agents[a].Clear?
    ensures Inv(s')
  {
    hide ReqsOk, Partition, Queues, Rings, CountFree, LockOk, BuffersOk, WakesOk, OwnersOk, ClearedOk;
    var h := s.agents[a].h;
    assert AgentOk(s.mem, a, s.agents[a]);
    InfoClearedKept(s.mem, h);
    OwnKept(s, a, h, Drop(h, h), s');
  }

  /** free_desc does not panic, and free_chain follows the chain to its end. */
  lemma DropNeverPanics(s: State, a: nat)
    requires Inv(s) && a < |s.agents| && s.agents[a].Drop?
    ensures var pc := s.agents[a]; pc.d < NUM && !s.mem.free[pc.d]
  {
    hide ReqsOk, Partition, Queues, Rings, LockOk, BuffersOk, WakesOk, OwnersOk, ClearedOk;
    assert AgentOk(s.mem, a, s.agents[a]);
    FreeNeverPanics(s.mem, s.agents[a].h);
  }

  lemma DropKept(s: State, a: nat, s': State)
    requires Inv(s) && a < |s.agents| && Collects(s, a, s') && s.agents[a].Drop?
    ensures Inv(s')
  {
    hide ReqsOk, Partition, Queues, Rings, CountFree, LockOk, BuffersOk, WakesOk, OwnersOk, ClearedOk;
    var h := s.agents[a].h;
    assert AgentOk(s.mem, a, s.agents[a]);
    FreeNeverPanics(s.mem, h);
    FreedKept(s.mem, h);
    OwnKept(s, a, h, s'.agents[a], s');
  }

  // ---------------------------------------------------------------------------
  // The handler and the device
  // ---------------------------------------------------------------------------

  /** The handler finds a completed request with status 0 and its buffer, so it does not panic. */
  lemma HandlerNeverPanics(s: State, a: nat)
    requires Inv(s) && a < |s.agents| && s.agents[a].IHave?
    ensures var id := s.agents[a].id;
      && IntrSafe(s.mem, id) && id in s.mem.reqs && s.mem.reqs[id].phase.Done?
      && s.mem.info[id].b == s.mem.reqs[id].b < |s.mem.data| && s.mem.data[s.mem.reqs[id].b] == s.mem.reqs[id].moved
  {
    hide MemOk, LockOk, BuffersOk, WakesOk, OwnersOk, ClearedOk;
    assert AgentOk(s.mem, a, s.agents[a]);
    IntrNeverPanics(s.mem, s.agents[a].id);
  }

  lemma IHaveKept(s: State, a: nat, s': State)
    requires Inv(s) && a < |s.agents| && Handles(s, a, s') && s.agents[a].IHave?
    ensures Inv(s')
  {
    hide ReqsOk, Partition, Queues, Rings, CountFree, BuffersOk;
    var id, pc' := s.agents[a].id, s'.agents[a];
    assert AgentOk(s.mem, a, s.agents[a]) && Holds(s.agents[a]);
    HandlerNeverPanics(s, a);
    DiskClearedKept(s.mem, id);
    NoneCleared(s, a);
    forall c | 0 <= c < |s'.agents| ensures AwaitsOk(s', s'.agents[c]) {
      assert AwaitsOk(s, s.agents[c]) && AgentOk(s.mem, c, s.agents[c]);
    }
    assert Frame(s.mem, s'.mem, a);
    assert SelfOk(s, a, pc', s');
    Assembled(s, a, pc', s');
  }

  lemma IAdvKept(s: State, a: nat, s': State)
    requires Inv(s) && a < |s.agents| && Handles(s, a, s') && s.agents[a].IAdv?
    ensures Inv(s')
  {
    hide ReqsOk, Partition, Queues, Rings, CountFree, BuffersOk;
    var id, pc' := s.agents[a].id, s'.agents[a];
    assert AgentOk(s.mem, a, s.agents[a]) && Holds(s.agents[a]);
    AdvancedKept(s.mem);
    forall c | 0 <= c < |s'.agents| ensures AwaitsOk(s', s'.agents[c]) {
      assert AwaitsOk(s, s.agents[c]) && AgentOk(s.mem, c, s.agents[c]);
    }
    assert Frame(s.mem, s'.mem, a);
    assert SelfOk(s, a, pc', s');
    Assembled(s, a, pc', s');
  }

  /** A step that no thread takes. */
  lemma OutsideKept(s: State, s': State)
    requires Inv(s) && MemOk(s'.mem) && s'.agents == s.agents && s'.lock == s.lock && s'.mem.free == s.mem.free
    requires forall c :: 0 <= c < |s.agents| ==>
            AgentOk(s'.mem, c, s.agents[c]) && BufOf(s'.mem, s.agents[c]) == BufOf(s.mem, s.agents[c])
    requires forall h :: h in s'.mem.reqs ==> h in s.mem.reqs && s'.mem.reqs[h].agent == s.mem.reqs[h].agent
    requires forall h :: h in s'.mem.reqs && s'.mem.reqs[h].phase.Cleared? ==> s.mem.reqs[h].phase.Cleared?
    requires forall h :: h in s'.mem.reqs && !Waited(s'.mem.reqs[h].phase) ==> !Waited(s.mem.reqs[h].phase)
    ensures Inv(s')
  {
    hide MemOk, CountFree, AgentOk, BufOf, HeadOf;
    forall c | 0 <= c < |s'.agents| ensures AwaitsOk(s', s'.agents[c]) {
      assert AwaitsOk(s, s.agents[c]);
    }
  }

  predicate Advances(p: Phase, p': Phase) { (p.Posted? && p'.Taken?) || (p.Taken? && (p'.Taken? || p'.Done?)) }

  lemma DeviceKept(s: State, h: nat, p: Phase, x: Data, s': State)
    requires Inv(s) && MemOk(s'.mem) && s'.agents == s.agents && s'.lock == s.lock && s'.mem.free == s.mem.free
    requires h in s.mem.reqs && s'.mem.reqs == s.mem.reqs[h := s.mem.reqs[h].(phase := p, moved := x)]
    requires Advances(s.mem.reqs[h].phase, p)
    requires s'.mem.blockno == s.mem.blockno && s.mem.disk.Keys <= s'.mem.disk.Keys && s.mem.done <= s'.mem.done
    ensures Inv(s')
  {
    hide MemOk, CountFree, AgentOk, BufOf, HeadOf, LockOk, BuffersOk, WakesOk, OwnersOk, ClearedOk;
    forall c | 0 <= c < |s.agents|
      ensures AgentOk(s'.mem, c, s.agents[c]) && BufOf(s'.mem, s.agents[c]) == BufOf(s.mem, s.agents[c])
    {
      assert AgentOk(s.mem, c, s.agents[c]);
      DeviceOther(s.mem, h, p, x, s'.mem, c, s.agents[c]);
    }
    OutsideKept(s, s');
  }

  lemma DeviceOther(m: Mem, h: nat, p: Phase, x: Data, m': Mem, c: nat, pc: Pc)
    requires AgentOk(m, c, pc) && h in m.reqs && m'.reqs == m.reqs[h := m.reqs[h].(phase := p, moved := x)]
    requires Advances(m.reqs[h].phase, p)
    requires m'.blockno == m.blockno && m.disk.Keys <= m'.disk.Keys && m.done <= m'.done
    ensures AgentOk(m', c, pc) && BufOf(m', pc) == BufOf(m, pc)
  {
  }

  lemma DeviceStepKept(s: State, s': State)
    requires Inv(s) && DeviceStep(s, s')
    ensures Inv(s')
  {
    hide ReqsOk, Partition, Queues, Rings, CountFree, LockOk, AgentsOk, BuffersOk, WakesOk, OwnersOk, ClearedOk,
        RingHolds, Readable;
    if Take(s.mem, s'.mem) {
      TakeFirst(s.mem);
      TakeKept(s.mem, s'.mem);
      DeviceKept(s, s.mem.posted[0], Taken(0), s.mem.reqs[s.mem.posted[0]].moved, s');
    } else if h :| Carries(s.mem, h, s'.mem) {
      CarriesOutTheRequest(s.mem, h, s'.mem);
      CarriesKept(s.mem, h, s'.mem);
      DeviceKept(s, h, s'.mem.reqs[h].phase, s'.mem.reqs[h].moved, s');
    } else {
      var h :| Completes(s.mem, h, s'.mem);
      CompletedEntry(s.mem, h);
      CompletesKept(s.mem, h, s'.mem);
      DeviceKept(s, h, Done, s.mem.reqs[h].moved, s');
    }
  }

  lemma ModifiesKept(s: State, b: nat, x: Data, blockno: nat, s': State)
    requires Inv(s) && Modifies(s, b, x, blockno, s')
    ensures Inv(s')
  {
    hide ReqsOk, Partition, Queues, Rings, CountFree, LockOk, BuffersOk, WakesOk, ClearedOk;
    forall h | h in s.mem.reqs ensures s.mem.reqs[h].b != b {
      assert BufOf(s.mem, s.agents[s.mem.reqs[h].agent]) == s.mem.reqs[h].b;
    }
    ModifiedKept(s.mem, b, x, blockno);
    forall c | 0 <= c < |s.agents|
      ensures AgentOk(s'.mem, c, s.agents[c]) && BufOf(s'.mem, s.agents[c]) == BufOf(s.mem, s.agents[c])
    {
      assert AgentOk(s.mem, c, s.agents[c]) && BufOf(s.mem, s.agents[c]) != b;
    }
    OutsideKept(s, s');
  }

  // ---------------------------------------------------------------------------
  // Every run
  // ---------------------------------------------------------------------------

  lemma AgentKept(s: State, a: nat, s': State)
    requires Inv(s) && AgentStep(s, a, s')
    ensures Inv(s')
  {
    hide ReqsOk, Partition, Queues, Rings, LockOk, AgentsOk, OwnersOk, BuffersOk, ClearedOk, WakesOk;
    hide CountFree, Goes, Unclaimed, InTables, IntrSafe, Written, ThreeFree;
    if Requests(s, a, s') {
      if s.agents[a].Fill? {
        FillKept(s, a, s');
      } else if s.agents[a].Alloc? && CountFree(s.mem.free) >= 3 {
        AllocKept(s, a, s');
      } else {
        AskKept(s, a, s');
      }
    } else if Collects(s, a, s') {
      if s.agents[a].Clear? {
        ClearKept(s, a, s');
      } else if s.agents[a].Drop? {
        DropKept(s, a, s');
      } else if s.agents[a].WakeFree? {
        WakeFreeKept(s, a, s');
      } else {
        TestKept(s, a, s');
      }
    } else if Handles(s, a, s') {
      if s.agents[a].IHave? {
        IHaveKept(s, a, s');
      } else if s.agents[a].IWake? {
        IWakeKept(s, a, s');
      } else if s.agents[a].IAdv? {
        IAdvKept(s, a, s');
      } else {
        PollKept(s, a, s');
      }
    } else {
      KillKept(s, a, s');
    }
  }

  lemma InvKept(s: State, s': State)
    requires Inv(s) && Step(s, s')
    ensures Inv(s')
  {
    hide Inv, AgentStep, DeviceStep, Modifies;
    if a: nat :| AgentStep(s, a, s') {
      AgentKept(s, a, s');
    } else if DeviceStep(s, s') {
      DeviceStepKept(s, s');
    } else {
      var b: nat, x, blockno: nat :| Modifies(s, b, x, blockno, s');
      ModifiesKept(s, b, x, blockno, s');
    }
  }

  lemma InvInitial(s: State)
    requires Initial(s)
    ensures Inv(s)
  {
  }

  ghost predicate Run(states: seq<State>) {
    |states| > 0 && Initial(states[0]) && forall i :: 0 <= i < |states| - 1 ==> Step(states[i], states[i + 1])
  }

  /** The invariant holds throughout every run, however far the 16-bit indices have wrapped. */
  lemma {:induction false} RunInv(states: seq<State>, i: nat)
    requires Run(states) && i < |states|
    ensures Inv(states[i])
  {
    hide Inv, Step, Initial;
    if i == 0 {
      InvInitial(states[0]);
    } else {
      RunInv(states, i - 1);
      assert Step(states[i - 1], states[i - 1 + 1]);
      InvKept(states[i - 1], states[i]);
    }
  }

  // ---------------------------------------------------------------------------
  // What the invariant means
  // ---------------------------------------------------------------------------

  /** At most two requests are under way. */
  lemma InFlight(s: State)
    requires Inv(s)
    ensures |s.mem.reqs| <= 2
  {
    hide ReqsOk, Queues, Rings, LockOk, AgentsOk, OwnersOk, BuffersOk, ClearedOk, WakesOk;
  }

  /**
    No wakeup is lost.  While vdisk_lock is free, a thread that sleeps for descriptors finds fewer
    than three free, and the buffer that a thread sleeps on is still with the device.
   */
  lemma NoLostWakeup(s: State, a: nat)
    requires Inv(s) && a < |s.agents| && s.lock == -1
    ensures s.agents[a].AskSleep? ==> CountFree(s.mem.free) < 3
    ensures s.agents[a].Asleep? ==> InTables(s.mem, s.agents[a].h) && s.mem.bufDisk[s.mem.reqs[s.agents[a].h].b]
  {
    hide ReqsOk, Partition, Queues, Rings, LockOk, OwnersOk, BuffersOk, ClearedOk, CountFree, ChainOk;
    assert AwaitsOk(s, s.agents[a]) && AgentOk(s.mem, a, s.agents[a]);
    if s.agents[a].Asleep? {
      InTable(s.mem, s.agents[a].h);
    }
  }

  /** The thread that has vdisk_lock always has a next step: no guard of the driver stops it, and no panic. */
  lemma HolderMoves(s: State)
    requires Inv(s) && s.lock >= 0
    ensures exists s' :: AgentStep(s, s.lock, s')
  {
    hide ReqsOk, Partition, Queues, Rings, OwnersOk, BuffersOk, ClearedOk, WakesOk, WrittenDesc, WrittenInfo, ChainOk,
        EntryOk;
    var a, m := s.lock, s.mem;
    assert AgentOk(m, a, s.agents[a]) && Holds(s.agents[a]);
    var pc := s.agents[a];
    if HeadOf(pc) >= 0 {
      InTable(m, pc.h);
    }
    if pc.Alloc? || pc.Fill? {
      RequesterMoves(s);
    } else if pc.ITest? || pc.IRead? || pc.IHave? || pc.IWake? || pc.IAdv? {
      HandlerMoves(s);
    } else {
      CollectorMoves(s);
    }
  }

  lemma {:induction false} ThreeExist(free: seq<bool>) returns (i: nat, j: nat, k: nat)
    requires CountFree(free) >= 3
    ensures i < j < k < |free| && free[i] && free[j] && free[k]
  {
    k := Last(free);
    j := Last(free[..k]);
    assert free[..k][..j] == free[..j];
    i := Last(free[..j]);
  }

  /** The last free descriptor: those before it are all the others. */
  lemma {:induction false} Last(free: seq<bool>) returns (k: nat)
    requires CountFree(free) >= 1
    ensures k < |free| && free[k] && CountFree(free[..k]) == CountFree(free) - 1
  {
    var n := |free| - 1;
    if free[n] {
      k := n;
    } else {
      k := Last(free[..n]);
      assert free[..n][..k] == free[..k];
    }
  }

  lemma RequesterMoves(s: State)
    requires Inv(s) && s.lock >= 0 && (s.agents[s.lock].Alloc? || s.agents[s.lock].Fill?)
    ensures exists s' :: AgentStep(s, s.lock, s')
  {
    hide ReqsOk, Partition, Queues, Rings, OwnersOk, BuffersOk, ClearedOk, WakesOk, CountFree, SetAll;
    var a, m, pc := s.lock, s.mem, s.agents[s.lock];
    if pc.Fill? {
      FillAlone(s, a);
      var s' := if m.reqs[pc.h].phase.n < 8 then State(Written(m, pc.h), s.agents[a := Fill(pc.h)], a)
                else State(Published(m, pc.h), s.agents[a := Test(pc.h)], a);
      assert Requests(s, a, s');
      assert AgentStep(s, a, s');
    } else if CountFree(m.free) >= 3 {
      var i, j, k := ThreeExist(m.free);
      assert ThreeFree(m, i, j, k);
      var s' := State(Allocated(m, a, pc.w.b, pc.w.write, pc.w.sector, i, j, k), s.agents[a := Fill(i)], a);
      assert Goes(s, a, Allocated(m, a, pc.w.b, pc.w.write, pc.w.sector, i, j, k), Fill(i), a, s');
      assert Requests(s, a, s');
      assert AgentStep(s, a, s');
    } else {
      var s' := State(m, (if CountFree(m.free) > 0 then WokeFree(s.agents) else s.agents)[a := AskSleep(pc.w)], -1);
      assert Requests(s, a, s');
      assert AgentStep(s, a, s');
    }
  }

  lemma CollectorMoves(s: State)
    requires Inv(s) && s.lock >= 0
    requires var pc := s.agents[s.lock]; pc.Test? || pc.Clear? || pc.Drop? || pc.WakeFree? || pc.Leave?
    ensures exists s' :: AgentStep(s, s.lock, s')
  {
    hide ReqsOk, Partition, Queues, Rings, OwnersOk, BuffersOk, ClearedOk, WakesOk, CountFree, ReqOk;
    var a, m, pc := s.lock, s.mem, s.agents[s.lock];
    assert AgentOk(m, a, pc);
    var s': State;
    if pc.Test? {
      InTable(m, pc.h);
      s' := if m.bufDisk[m.reqs[pc.h].b] then State(m, s.agents[a := Asleep(pc.h)], -1)
          else State(m, s.agents[a := Clear(pc.h)], a);
    } else if pc.Clear? {
      InTable(m, pc.h);
      s' := State(InfoCleared(m, pc.h), s.agents[a := Drop(pc.h, pc.h)], a);
    } else if pc.Drop? {
      DropNeverPanics(s, a);
      s' := State(FreedOne(m, pc.h, pc.d), s.agents[a := WakeFree(pc.h, m.desc[pc.d].more, m.desc[pc.d].next)], a);
    } else if pc.WakeFree? {
      s' := State(m, WokeFree(s.agents)[a := if pc.flag then Drop(pc.h, pc.nxt) else Leave], a);
    } else {
      s' := State(m, s.agents[a := Idle], -1);
    }
    assert Collects(s, a, s');
    assert AgentStep(s, a, s');
  }

  lemma HandlerMoves(s: State)
    requires Inv(s) && s.lock >= 0
    requires var pc := s.agents[s.lock]; pc.ITest? || pc.IRead? || pc.IHave? || pc.IWake? || pc.IAdv?
    ensures exists s' :: AgentStep(s, s.lock, s')
  {
    hide ReqsOk, Partition, Queues, Rings, OwnersOk, BuffersOk, ClearedOk, WakesOk, CountFree;
    var a, m, pc := s.lock, s.mem, s.agents[s.lock];
    var s': State;
    if pc.ITest? {
      s' := if m.usedSeen != m.usedIdx then State(m, s.agents[a := IRead], a) else State(m, s.agents[a := Idle], -1);
    } else if pc.IRead? {
      s' := State(m, s.agents[a := IHave(m.used[m.usedSeen % NUM])], a);
    } else if pc.IHave? {
      HandlerNeverPanics(s, a);
      s' := State(DiskCleared(m, pc.id), s.agents[a := IWake(pc.id, m.info[pc.id].b)], a);
    } else if pc.IWake? {
      s' := State(m, WokeBuf(s.agents, m, pc.b)[a := IAdv(pc.id)], a);
    } else {
      s' := State(Advanced(m), s.agents[a := ITest], a);
    }
    assert Handles(s, a, s');
    assert AgentStep(s, a, s');
  }

  lemma RequestsKeepData(s: State, a: nat, s': State)
    requires a < |s.agents| && Sized(s.mem) && Requests(s, a, s')
    ensures s'.mem.data == s.mem.data && s'.mem.blockno == s.mem.blockno
    ensures |s'.mem.bufDisk| == |s.mem.bufDisk| && forall b :: 0 <= b < |s.mem.bufDisk| && s.mem.bufDisk[b] ==>
              s'.mem.bufDisk[b]
  {
    hide CountFree, SetAll, WrittenDesc, WrittenInfo;
  }

  lemma CollectsKeepData(s: State, a: nat, s': State)
    requires a < |s.agents| && Sized(s.mem) && (Collects(s, a, s') || Kills(s, a, s'))
    ensures s'.mem.data == s.mem.data && s'.mem.blockno == s.mem.blockno && s'.mem.bufDisk == s.mem.bufDisk
  {
    hide CountFree;
  }

  lemma HandlesKeepData(s: State, a: nat, s': State)
    requires a < |s.agents| && Sized(s.mem) && Handles(s, a, s')
    ensures s'.mem.data == s.mem.data && s'.mem.blockno == s.mem.blockno
    ensures !s.agents[a].IHave? ==> s'.mem.bufDisk == s.mem.bufDisk
  {
  }

  /** No thread touches the data or the block of a buffer, in its driver or in the handler. */
  lemma AgentsKeepData(s: State, a: nat, s': State)
    requires Sized(s.mem) && AgentStep(s, a, s')
    ensures s'.mem.data == s.mem.data && s'.mem.blockno == s.mem.blockno
  {
    hide Requests, Collects, Handles, Kills;
    if Requests(s, a, s') {
      RequestsKeepData(s, a, s');
    } else if Handles(s, a, s') {
      HandlesKeepData(s, a, s');
    } else {
      CollectsKeepData(s, a, s');
    }
  }

  lemma HandlerClears(s: State, a: nat, s': State, b: nat)
    requires Inv(s) && a < |s.agents| && Handles(s, a, s') && b < |s.mem.bufDisk| == |s'.mem.bufDisk|
    requires s.mem.bufDisk[b] && !s'.mem.bufDisk[b]
    ensures s.agents[a].IHave? && s.agents[a].id in s.mem.reqs && s.mem.reqs[s.agents[a].id].b == b
  {
    hide ReqsOk, Partition, Queues, Rings, LockOk, AgentsOk, OwnersOk, BuffersOk, ClearedOk, WakesOk;
    HandlesKeepData(s, a, s');
    HandlerNeverPanics(s, a);
  }

  lemma DeviceKeepsBlocks(s: State, s': State)
    requires Sized(s.mem) && DeviceStep(s, s')
    ensures s'.mem.blockno == s.mem.blockno && s'.mem.bufDisk == s.mem.bufDisk
    ensures s'.mem.data == s.mem.data || exists g :: Carries(s.mem, g, s'.mem)
  {
    hide Readable;
  }

  /** b->disk drops only for the buffer whose chain the device has finished. */
  lemma DiskClearedOnlyWhenFinished(s: State, s': State, b: nat)
    requires Inv(s) && Step(s, s') && b < |s.mem.bufDisk| == |s'.mem.bufDisk| && s.mem.bufDisk[b] && !s'.mem.bufDisk[b]
    ensures exists h :: h in s.mem.reqs && h < |s.mem.info| && s.mem.reqs[h].b == b && s.mem.reqs[h].phase.Done?
                        && s.mem.info[h].status == 0
  {
    hide Inv, Requests, Collects, Handles, Kills, DeviceStep;
    if a: nat :| AgentStep(s, a, s') {
      if Requests(s, a, s') {
        RequestsKeepData(s, a, s');
      } else if Handles(s, a, s') {
        HandlerClears(s, a, s', b);
        HandlerNeverPanics(s, a);
      } else {
        CollectsKeepData(s, a, s');
      }
    } else if DeviceStep(s, s') {
      DeviceKeepsBlocks(s, s');
    }
  }

  /** The data of a buffer that a thread is transferring changes only when the device carries out that read. */
  lemma InFlightDataIsStable(s: State, s': State, h: nat)
    requires Inv(s) && Step(s, s') && h in s.mem.reqs && s.mem.reqs[h].b < |s.mem.data| && |s'.mem.data| == |s.mem.data|
    requires s'.mem.data[s.mem.reqs[h].b] != s.mem.data[s.mem.reqs[h].b]
    ensures Carries(s.mem, h, s'.mem) && !s.mem.reqs[h].write && s.mem.reqs[h].phase == Taken(0)
  {
    hide ReqsOk, Partition, Queues, Rings, LockOk, AgentsOk, BuffersOk, ClearedOk, WakesOk, AgentStep, DeviceStep,
        Carries;
    assert BufOf(s.mem, s.agents[s.mem.reqs[h].agent]) == s.mem.reqs[h].b;
    if a: nat :| AgentStep(s, a, s') {
      AgentsKeepData(s, a, s');
    } else if DeviceStep(s, s') {
      DeviceKeepsBlocks(s, s');
      var g :| Carries(s.mem, g, s'.mem);
      CarriesOutTheRequest(s.mem, g, s'.mem);
      if g != h {
        OtherBuffer(s.mem, g, h);
      }
    }
  }

  /** So does its block: the device transfers the sector the thread asked for. */
  lemma InFlightBlockIsStable(s: State, s': State, h: nat)
    requires Inv(s) && Step(s, s') && h in s.mem.reqs && s.mem.reqs[h].b < |s.mem.blockno| &&
            |s'.mem.blockno| == |s.mem.blockno|
    ensures s'.mem.blockno[s.mem.reqs[h].b] == s.mem.blockno[s.mem.reqs[h].b]
  {
    hide ReqsOk, Partition, Queues, Rings, LockOk, AgentsOk, BuffersOk, ClearedOk, WakesOk, AgentStep, DeviceStep;
    assert BufOf(s.mem, s.agents[s.mem.reqs[h].agent]) == s.mem.reqs[h].b;
    if a: nat :| AgentStep(s, a, s') {
      AgentsKeepData(s, a, s');
    } else if DeviceStep(s, s') {
      DeviceKeepsBlocks(s, s');
    }
  }
}
