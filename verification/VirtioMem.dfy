/**
  The memory that the virtio disk driver and the device share (`kernel/virtio_disk.c`), and what each
  of their accesses does to it.  Every request is at some stage of its life; `MemOk` says what the
  tables and the rings hold at each stage.
 */
module VirtioMem {
  import opened VirtioDesc

  type Data = seq<int>

  const WRAP := 65536

  datatype Op = Op(write: bool, sector: nat)
  datatype Info = Info(b: int, status: nat)

  /**
    The life of a request: its thread has made the first n of eight writes; it is in the avail ring;
    the device has it and has made the first n of three writes; it is in the used ring; the handler
    has cleared b->disk, and has moved on; its thread has cleared info.b and freed the first n of its
    descriptors.
   */
  datatype Phase = Building(n: nat) | Posted | Taken(n: nat) | Done | Cleared | Seen | Freeing(n: nat)

  /**
    Bookkeeping of the proof: the request of thread `agent` whose chain is (key, d1, d2), and what its
    sector held when the device had transferred it.
   */
  datatype Request = Request(agent: nat, b: nat, write: bool, sector: nat, d1: nat, d2: nat, phase: Phase,
                             moved: Data)

  /**
    The driver's tables, the rings, the device's own state (`working` says how many of its three writes
    it has made for each request it has), the buffers and the disk; the rest is bookkeeping.
   */
  datatype Mem = Mem(free: seq<bool>, desc: seq<Desc>, ops: seq<Op>, info: seq<Info>,
                     avail: seq<nat>, availIdx: nat, used: seq<nat>, usedIdx: nat, usedSeen: nat,
                     devSeen: nat, working: map<nat, nat>,
                     bufDisk: seq<bool>, blockno: seq<nat>, data: seq<Data>, disk: map<nat, Data>,
                     reqs: map<nat, Request>, posted: seq<nat>, done: seq<nat>)

  /** A product of 32-bit unsigned integers. */
  function Sector(blockno: nat): (s: nat) { 2 * blockno % 0x1_0000_0000 }

  /** Sectors have 512 bytes: the block's bytes on the disk are the sector's, unless the product wraps around. */
  lemma SectorExact(blockno: nat)
    requires blockno < 0x1_0000_0000
    ensures 512 * Sector(blockno) == 1024 * blockno <==> blockno < 0x8000_0000
  {
  }

  ghost predicate Sized(m: Mem) {
    && |m.free| == NUM && |m.desc| == NUM && |m.ops| == NUM && |m.info| == NUM && |m.avail| == NUM && |m.used| == NUM
    && |m.blockno| == |m.bufDisk| && |m.data| == |m.bufDisk|
  }

  // ---------------------------------------------------------------------------
  // What the driver does
  // ---------------------------------------------------------------------------

  function Head(h: nat, r: Request): (d: Desc) { Desc(Header(h), 16, true, false, r.d1) }
  function Body(r: Request): (d: Desc) { Desc(Contents(r.b), 1024, true, !r.write, r.d2) }
  function Tail(h: nat): (d: Desc) { Desc(Status(h), 1, false, true, 0) }

  ghost predicate InTables(m: Mem, h: nat) {
    && Sized(m) && h in m.reqs && h < NUM && m.reqs[h].d1 < NUM && m.reqs[h].d2 < NUM && m.reqs[h].b < |m.bufDisk|
  }

  function Staged(m: Mem, h: nat, p: Phase): (m': Mem)
    requires h in m.reqs
  {
    m.(reqs := m.reqs[h := m.reqs[h].(phase := p)])
  }

  /** alloc3_desc has given thread `agent` the descriptors i, j and k. */
  function Allocated(m: Mem, agent: nat, b: nat, write: bool, sector: nat, i: nat, j: nat, k: nat): (m': Mem)
    requires i < |m.free| && j < |m.free| && k < |m.free|
  {
    m.(free := SetAll(m.free, [i, j, k], false),
       reqs := m.reqs[i := Request(agent, b, write, sector, j, k, Building(0), [])])
  }

  /** The eight writes that make the request, in the driver's order; the last is the slot of the avail ring. */
  ghost function Written(m: Mem, h: nat): (m': Mem)
    requires InTables(m, h) && m.reqs[h].phase.Building?
  {
    var r := m.reqs[h];
    var n := r.phase.n;
    m.(ops := if n == 0 then m.ops[h := Op(r.write, r.sector)] else m.ops,
       desc := WrittenDesc(m.desc, h, r, n),
       info := WrittenInfo(m.info, h, r, n),
       bufDisk := if n == 5 then m.bufDisk[r.b := true] else m.bufDisk,
       avail := if n == 7 then m.avail[m.availIdx % NUM := h] else m.avail,
       reqs := m.reqs[h := r.(phase := Building(n + 1))])
  }

  function WrittenDesc(desc: seq<Desc>, h: nat, r: Request, n: nat): (desc': seq<Desc>)
    requires h < |desc| && r.d1 < |desc| && r.d2 < |desc|
  {
    if n == 1 then desc[h := Head(h, r)] else if n == 2 then desc[r.d1 := Body(r)]
    else if n == 4 then desc[r.d2 := Tail(h)] else desc
  }

  function WrittenInfo(info: seq<Info>, h: nat, r: Request, n: nat): (info': seq<Info>)
    requires h < |info|
  {
    if n == 3 then info[h := info[h].(status := 255)] else if n == 6 then info[h := info[h].(b := r.b)] else info
  }

  /** avail->idx += 1 */
  function Published(m: Mem, h: nat): (m': Mem)
    requires h in m.reqs
  {
    Staged(m, h, Posted).(availIdx := (m.availIdx + 1) % WRAP, posted := m.posted + [h])
  }

  /** What the handler needs in order not to panic. */
  ghost predicate IntrSafe(m: Mem, id: nat) {
    id < |m.info| && m.info[id].status == 0 && 0 <= m.info[id].b < |m.bufDisk|
  }

  /** b->disk = 0, where b is the buffer of the chain `id`. */
  ghost function DiskCleared(m: Mem, id: nat): (m': Mem)
    requires IntrSafe(m, id)
  {
    m.(bufDisk := m.bufDisk[m.info[id].b := false],
       reqs := if id in m.reqs then m.reqs[id := m.reqs[id].(phase := Cleared)] else m.reqs)
  }

  /** used_idx += 1 */
  function Advanced(m: Mem): (m': Mem) {
    m.(usedSeen := (m.usedSeen + 1) % WRAP,
       reqs := if |m.done| > 0 && m.done[0] in m.reqs then m.reqs[m.done[0] := m.reqs[m.done[0]].(phase := Seen)]
           else m.reqs,
       done := if |m.done| > 0 then m.done[1..] else [])
  }

  /** info[h].b = 0 */
  function InfoCleared(m: Mem, h: nat): (m': Mem)
    requires h in m.reqs && h < |m.info|
  {
    Staged(m, h, Freeing(0)).(info := m.info[h := m.info[h].(b := -1)])
  }

  /** free_desc(d), in the free_chain of request h. */
  function FreedOne(m: Mem, h: nat, d: nat): (m': Mem)
    requires d < |m.desc| && d < |m.free|
  {
    m.(desc := m.desc[d := CLEAR], free := m.free[d := true],
       reqs := if h !in m.reqs || !m.reqs[h].phase.Freeing? || m.reqs[h].phase.n >= 2 then m.reqs - {h}
               else m.reqs[h := m.reqs[h].(phase := Freeing(m.reqs[h].phase.n + 1))])
  }

  /** The holder of a buffer that is in no request gives it other contents or another block. */
  function Modified(m: Mem, b: nat, x: Data, blockno: nat): (m': Mem)
    requires b < |m.data| && b < |m.blockno|
  {
    m.(data := m.data[b := x], blockno := m.blockno[b := blockno])
  }

  // ---------------------------------------------------------------------------
  // What the device does
  // ---------------------------------------------------------------------------

  /** The device reads the next entry of the avail ring. */
  ghost predicate Take(m: Mem, m': Mem)
    requires Sized(m)
  {
    && m.devSeen != m.availIdx
    && var h := m.avail[m.devSeen % NUM];
       m' == m.(devSeen := (m.devSeen + 1) % WRAP, working := m.working[h := 0],
                reqs := if h in m.reqs then m.reqs[h := m.reqs[h].(phase := Taken(0))] else m.reqs,
                posted := if |m.posted| > 0 then m.posted[1..] else [])
  }

  /** The chain that starts at h is one the device can carry out. */
  ghost predicate Readable(m: Mem, h: nat)
    requires Sized(m)
  {
    && h < NUM && m.desc[h].addr.Header? && m.desc[h].addr.i < NUM && m.desc[h].more && m.desc[h].next < NUM
    && m.desc[h].len == 16 && !m.desc[h].write
    && var d1 := m.desc[m.desc[h].next];
       && d1.addr.Contents? && d1.addr.b < |m.data| && d1.len == 1024 && d1.more && d1.next < NUM
       && d1.write == !m.ops[m.desc[h].addr.i].write && m.ops[m.desc[h].addr.i].sector in m.disk
       && m.desc[d1.next].addr.Status? && m.desc[d1.next].addr.i < NUM && !m.desc[d1.next].more && m.desc[d1.next].write
       && m.desc[d1.next].len == 1
  }

  /**
    The three writes with which the device carries out a chain, each as the descriptors say: it moves
    the data, then writes the status, then its next slot of the used ring.
   */
  ghost predicate Carries(m: Mem, h: nat, m': Mem)
    requires Sized(m)
  {
    && h in m.working && m.working[h] < 3 && Readable(m, h) && (m.working[h] == 2 ==> OnlyEntering(m, h))
    && m' == Carried(m, h)
  }

  /** The device writes one slot of the used ring at a time. */
  ghost predicate OnlyEntering(m: Mem, h: nat) { forall g :: g in m.working && g != h ==> m.working[g] != 3 }

  ghost function Carried(m: Mem, h: nat): (m': Mem)
    requires Sized(m) && h in m.working && Readable(m, h)
  {
    var n, op, d1 := m.working[h], m.ops[m.desc[h].addr.i], m.desc[m.desc[h].next];
    var st := m.desc[d1.next].addr.i;
    m.(data := if n == 0 && !op.write then m.data[d1.addr.b := m.disk[op.sector]] else m.data,
       disk := if n == 0 && op.write then m.disk[op.sector := m.data[d1.addr.b]] else m.disk,
       info := if n == 1 then m.info[st := m.info[st].(status := 0)] else m.info,
       used := if n == 2 then m.used[m.usedIdx % NUM := h] else m.used,
       working := m.working[h := n + 1],
       reqs := if h !in m.reqs then m.reqs else m.reqs[h := m.reqs[h].(phase := Taken(n + 1),
           moved := if n > 0 then m.reqs[h].moved else if op.write then m.data[d1.addr.b] else m.disk[op.sector])])
  }

  /** used->idx += 1, by the device */
  ghost predicate Completes(m: Mem, h: nat, m': Mem) {
    && h in m.working && m.working[h] == 3
    && m' == m.(usedIdx := (m.usedIdx + 1) % WRAP, working := m.working - {h},
                reqs := if h in m.reqs then m.reqs[h := m.reqs[h].(phase := Done)] else m.reqs,
                done := m.done + [h])
  }

  // ---------------------------------------------------------------------------
  // The rings
  // ---------------------------------------------------------------------------

  /** The ring holds the queue q from index `start` on, and `end` is the index behind it, both 16 bits wide. */
  ghost predicate RingHolds(ring: seq<nat>, start: nat, end: nat, q: seq<nat>) {
    && |ring| == NUM && start < WRAP && |q| <= 2 && end == (start + |q|) % WRAP
    && (forall k {:trigger q[k]} :: 0 <= k < |q| ==> ring[(start + k) % NUM] == q[k])
  }

  lemma WrapMod(x: nat)
    ensures (x % WRAP) % NUM == x % NUM
  {
    assert x == WRAP * (x / WRAP) + x % WRAP;
    assert x % WRAP == x - NUM * (8192 * (x / WRAP));
    ModShift(x, 8192 * (x / WRAP));
  }

  lemma ModShift(x: nat, k: nat)
    requires x - NUM * k >= 0
    ensures (x - NUM * k) % NUM == x % NUM
  {
  }

  /** The slot that is written before the index moves is none that the reader has yet to read. */
  lemma RingSlot(ring: seq<nat>, start: nat, end: nat, q: seq<nat>, h: nat)
    requires RingHolds(ring, start, end, q)
    ensures RingHolds(ring[end % NUM := h], start, end, q)
  {
    WrapMod(start + |q|);
    assert forall k {:trigger q[k]} :: 0 <= k < |q| ==> (start + k) % NUM != (start + |q|) % NUM;
  }

  /** Moving the index enters the slot that was written. */
  lemma RingPush(ring: seq<nat>, start: nat, end: nat, q: seq<nat>, h: nat)
    requires RingHolds(ring, start, end, q) && |q| < 2 && ring[end % NUM] == h
    ensures RingHolds(ring, start, (end + 1) % WRAP, q + [h])
  {
    WrapMod(start + |q|);
    assert (end + 1) % WRAP == (start + |q| + 1) % WRAP;
  }

  /** The reader finds the oldest element, and finds nothing exactly when the queue is empty. */
  lemma RingPop(ring: seq<nat>, start: nat, end: nat, q: seq<nat>)
    requires RingHolds(ring, start, end, q)
    ensures start != end <==> |q| > 0
    ensures |q| > 0 ==> ring[start % NUM] == q[0] && RingHolds(ring, (start + 1) % WRAP, end, q[1..])
  {
    if |q| > 0 {
      assert ring[(start + 0) % NUM] == q[0];
      forall k | 0 <= k < |q[1..]| ensures ring[((start + 1) % WRAP + k) % NUM] == q[1..][k] {
        assert q[1..][k] == q[k + 1];
        assert ring[(start + (k + 1)) % NUM] == q[k + 1];
        if start + 1 == WRAP {
          assert (k % NUM) == (WRAP + k) % NUM by { ModShift(WRAP + k, 8192); }
        }
      }
    }
  }

  // ---------------------------------------------------------------------------
  // The invariant
  // ---------------------------------------------------------------------------

  /** How many of the eight writes that make a request have been made. */
  function Stage(p: Phase): (n: nat) { if p.Building? then p.n else 8 }

  /** How many of its descriptors have been freed. */
  function FreedOf(p: Phase): (n: nat) { if p.Freeing? then p.n else 0 }

  /** b->disk is set until the handler clears it. */
  predicate Waited(p: Phase) { !p.Cleared? && !p.Seen? && !p.Freeing? }

  /** The device has moved the data. */
  predicate Transferred(p: Phase) { !p.Building? && !p.Posted? && (p.Taken? ==> p.n > 0) }

  /** The device has written the status. */
  predicate Reported(p: Phase) { !p.Building? && !p.Posted? && (p.Taken? ==> p.n > 1) }

  /** The n-th descriptor of the chain. */
  function Nth(h: nat, r: Request, n: nat): (d: nat) { if n == 0 then h else if n == 1 then r.d1 else r.d2 }

  /** Descriptor d still belongs to request r with head h. */
  predicate Member(h: nat, r: Request, d: nat) {
    var n := FreedOf(r.phase);
    (d == h && n < 1) || (d == r.d1 && n < 2) || (d == r.d2 && n < 3)
  }

  /** The descriptors of a request that it still has are as far written as it has come. */
  ghost predicate ChainOk(m: Mem, h: nat, r: Request)
    requires Sized(m) && h < NUM && r.d1 < NUM && r.d2 < NUM
  {
    var n, f := Stage(r.phase), FreedOf(r.phase);
    && (n > 1 && f < 1 ==> m.desc[h] == Head(h, r))
    && (n > 2 && f < 2 ==> m.desc[r.d1] == Body(r))
    && (n > 4 ==> m.desc[r.d2] == Tail(h))
  }

  /** So are its entries in the other tables. */
  ghost predicate EntryOk(m: Mem, h: nat, r: Request)
    requires Sized(m) && h < NUM && r.b < |m.bufDisk|
  {
    var n, p := Stage(r.phase), r.phase;
    && (n > 0 ==> m.ops[h] == Op(r.write, r.sector))
    && (n > 3 ==> m.info[h].status == if Reported(p) then 0 else 255)
    && (n > 5 ==> m.bufDisk[r.b] == Waited(p))
    && (n > 6 && !p.Freeing? ==> m.info[h].b == r.b)
    && (p == Building(8) ==> m.avail[m.availIdx % NUM] == h)
    && (p == Taken(3) ==> m.used[m.usedIdx % NUM] == h)
    && (Transferred(p) ==> m.data[r.b] == r.moved)
  }

  ghost predicate ReqOk(m: Mem, h: nat, r: Request)
    requires Sized(m)
  {
    && h < NUM && r.d1 < NUM && r.d2 < NUM && h != r.d1 && r.d1 != r.d2 && h != r.d2
    && r.b < |m.bufDisk| && r.sector == Sector(m.blockno[r.b]) && r.sector in m.disk
    && Stage(r.phase) <= 8 && FreedOf(r.phase) < 3
    && ChainOk(m, h, r) && EntryOk(m, h, r)
  }

  /** Two requests share neither a descriptor nor a buffer. */
  ghost predicate Apart(g: nat, q: Request, h: nat, r: Request) {
    && q.b != r.b
    && g != h && g != r.d1 && g != r.d2
    && q.d1 != h && q.d1 != r.d1 && q.d1 != r.d2
    && q.d2 != h && q.d2 != r.d1 && q.d2 != r.d2
  }

  ghost predicate AllApart(reqs: map<nat, Request>) {
    forall g, h :: g in reqs && h in reqs && g != h ==> Apart(g, reqs[g], h, reqs[h])
  }

  ghost predicate ReqsOk(m: Mem)
    requires Sized(m)
  {
    (forall h :: h in m.reqs ==> ReqOk(m, h, m.reqs[h])) && AllApart(m.reqs)
  }

  ghost predicate Owned(reqs: map<nat, Request>, d: nat) { exists h :: h in reqs && Member(h, reqs[h], d) }

  /** A descriptor is free exactly when no request has it, and then it is clear; at most two requests fit. */
  ghost predicate Partition(m: Mem)
    requires Sized(m)
  {
    && FreeAreClear(m.free, m.desc)
    && (forall d :: 0 <= d < NUM ==> (m.free[d] <==> !Owned(m.reqs, d)))
    && |m.reqs| <= 2
  }

  ghost predicate Distinct(q: seq<nat>) { forall i, j :: 0 <= i < j < |q| ==> q[i] != q[j] }

  /** Every request is where its phase says it is, once. */
  ghost predicate Queues(m: Mem) {
    && Distinct(m.posted) && Distinct(m.done)
    && (forall h :: h in m.posted <==> h in m.reqs && m.reqs[h].phase.Posted?)
    && (forall h :: h in m.working <==> h in m.reqs && m.reqs[h].phase.Taken?)
    && (forall h :: h in m.working && h in m.reqs ==> m.reqs[h].phase == Taken(m.working[h]) && m.working[h] <= 3)
    && (forall g, h :: g in m.working && h in m.working && m.working[g] == 3 && m.working[h] == 3 ==> g == h)
    && (forall h :: h in m.done <==> h in m.reqs && (m.reqs[h].phase.Done? || m.reqs[h].phase.Cleared?))
  }

  ghost predicate Rings(m: Mem) {
    RingHolds(m.avail, m.devSeen, m.availIdx, m.posted) && RingHolds(m.used, m.usedSeen, m.usedIdx, m.done)
  }

  ghost predicate MemOk(m: Mem) {
    Sized(m) && ReqsOk(m) && Partition(m) && Queues(m) && Rings(m)
  }

  lemma {:induction false} InSet(q: seq<nat>, w: set<nat>)
    requires Distinct(q) && (forall h :: h in q ==> h in w)
    ensures |q| <= |w|
  {
    if q != [] {
      var l := |q| - 1;
      assert q == q[..l] + [q[l]];
      forall h | h in q[..l] ensures h in w - {q[l]} { assert h in q; }
      InSet(q[..l], w - {q[l]});
      assert q[l] in q;
    }
  }

  lemma InTable(m: Mem, g: nat)
    requires MemOk(m) && g in m.reqs
    ensures ReqOk(m, g, m.reqs[g]) && InTables(m, g)
  {
    hide Rings, Partition, Queues;
  }

  lemma OtherBuffer(m: Mem, g: nat, h: nat)
    requires MemOk(m) && g in m.reqs && h in m.reqs && g != h
    ensures Apart(g, m.reqs[g], h, m.reqs[h])
  {
    hide Rings, Partition, Queues, ReqOk, Apart;
  }

  // ---------------------------------------------------------------------------
  // One request moves on
  // ---------------------------------------------------------------------------

  /** The other requests find their entries as they were. */
  ghost predicate Leaves(m: Mem, g: nat, m': Mem)
    requires InTables(m, g) && Sized(m')
  {
    var r := m.reqs[g];
    && m'.desc[g] == m.desc[g] && m'.desc[r.d1] == m.desc[r.d1] && m'.desc[r.d2] == m.desc[r.d2]
    && m'.ops[g] == m.ops[g] && m'.info[g] == m.info[g]
    && |m'.bufDisk| == |m.bufDisk| && m'.bufDisk[r.b] == m.bufDisk[r.b] && m'.blockno[r.b] == m.blockno[r.b]
    && m.disk.Keys <= m'.disk.Keys && m'.data[r.b] == m.data[r.b]
    && (r.phase == Building(8) ==> m'.avail == m.avail && m'.availIdx == m.availIdx)
    && (r.phase == Taken(3) ==> m'.used == m.used && m'.usedIdx == m.usedIdx)
  }

  lemma ReqSame(m: Mem, g: nat, m': Mem)
    requires Sized(m) && Sized(m') && g in m.reqs && ReqOk(m, g, m.reqs[g]) && Leaves(m, g, m')
    ensures ReqOk(m', g, m.reqs[g])
  {
  }

  lemma OwnedSame(reqs: map<nat, Request>, h: nat, r: Request, d: nat)
    requires h in reqs && r == reqs[h].(phase := r.phase, moved := r.moved)
    requires FreedOf(r.phase) == FreedOf(reqs[h].phase)
    ensures Owned(reqs[h := r], d) <==> Owned(reqs, d)
  {
    var reqs' := reqs[h := r];
    if Owned(reqs, d) {
      var g :| g in reqs && Member(g, reqs[g], d);
      assert g in reqs' && Member(g, reqs'[g], d);
    }
    if Owned(reqs', d) {
      var g :| g in reqs' && Member(g, reqs'[g], d);
      assert g in reqs && Member(g, reqs[g], d);
    }
  }

  lemma Moves(m: Mem, h: nat, r: Request, m': Mem)
    requires MemOk(m) && Sized(m') && h in m.reqs && r == m.reqs[h].(phase := r.phase, moved := r.moved)
    requires FreedOf(r.phase) == FreedOf(m.reqs[h].phase) && m'.reqs == m.reqs[h := r]
    requires m'.free == m.free && FreeAreClear(m'.free, m'.desc) && ReqOk(m', h, r)
    requires forall g :: g in m.reqs && g != h ==> InTables(m, g) && Leaves(m, g, m')
    ensures ReqsOk(m') && Partition(m')
  {
    hide Rings, Queues, ReqOk, Owned, FreeAreClear, Leaves;
    forall g | g in m'.reqs ensures ReqOk(m', g, m'.reqs[g]) {
      if g != h {
        ReqSame(m, g, m');
      }
    }
    forall g, k | g in m'.reqs && k in m'.reqs && g != k ensures Apart(g, m'.reqs[g], k, m'.reqs[k]) {
      assert Apart(g, m.reqs[g], k, m.reqs[k]);
    }
    forall d | 0 <= d < NUM ensures m'.free[d] <==> !Owned(m'.reqs, d) {
      OwnedSame(m.reqs, h, r, d);
    }
    assert m'.reqs.Keys == m.reqs.Keys;
    assert |m'.reqs| == |m.reqs|;
  }

  /** A descriptor that a request has is not free. */
  lemma NotFree(m: Mem, h: nat, d: nat)
    requires MemOk(m) && h in m.reqs && d < NUM && Member(h, m.reqs[h], d)
    ensures !m.free[d]
  {
    hide Rings, Queues, ReqsOk;
    assert Owned(m.reqs, d);
  }

  // ---------------------------------------------------------------------------
  // Making a request
  // ---------------------------------------------------------------------------

  /** No request but h is being made. */
  ghost predicate OnlyBuilding(m: Mem, h: nat) {
    forall g :: g in m.reqs && g != h ==> !m.reqs[g].phase.Building?
  }

  lemma WrittenReq(m: Mem, h: nat)
    requires MemOk(m) && InTables(m, h) && m.reqs[h].phase.Building? && m.reqs[h].phase.n < 8
    ensures var m' := Written(m, h);
      && Sized(m') && ReqOk(m', h, m.reqs[h].(phase := Building(m.reqs[h].phase.n + 1)))
      && m'.reqs == m.reqs[h := m.reqs[h].(phase := Building(m.reqs[h].phase.n + 1))]
  {
    hide ReqsOk, Partition, Queues, Rings;
    InTable(m, h);
  }

  lemma WrittenOther(m: Mem, h: nat, g: nat)
    requires MemOk(m) && InTables(m, h) && m.reqs[h].phase.Building? && m.reqs[h].phase.n < 8 && OnlyBuilding(m, h)
    requires g in m.reqs && g != h
    ensures InTables(m, g) && Sized(Written(m, h)) && Leaves(m, g, Written(m, h))
  {
    hide ReqsOk, Partition, Queues, Rings, ReqOk;
    InTable(m, g);
    OtherBuffer(m, g, h);
  }

  lemma WrittenClear(m: Mem, h: nat)
    requires MemOk(m) && InTables(m, h) && m.reqs[h].phase.Building? && m.reqs[h].phase.n < 8
    ensures FreeAreClear(m.free, Written(m, h).desc)
  {
    hide Partition, Rings, Queues, ReqsOk;
    PartitionClear(m);
    NotFree(m, h, h);
    NotFree(m, h, m.reqs[h].d1);
    NotFree(m, h, m.reqs[h].d2);
  }

  lemma WrittenReqs(m: Mem, h: nat)
    requires MemOk(m) && InTables(m, h) && m.reqs[h].phase.Building? && m.reqs[h].phase.n < 8 && OnlyBuilding(m, h)
    ensures Sized(Written(m, h)) && ReqsOk(Written(m, h)) && Partition(Written(m, h))
  {
    hide ReqsOk, Partition, Queues, Rings, ReqOk, FreeAreClear, Leaves;
    var m' := Written(m, h);
    WrittenReq(m, h);
    WrittenClear(m, h);
    forall g | g in m.reqs && g != h ensures InTables(m, g) && Leaves(m, g, m') {
      WrittenOther(m, h, g);
    }
    hide WrittenDesc, WrittenInfo;
    Moves(m, h, m.reqs[h].(phase := Building(m.reqs[h].phase.n + 1)), m');
  }

  lemma WrittenQueues(m: Mem, h: nat)
    requires MemOk(m) && InTables(m, h) && m.reqs[h].phase.Building? && m.reqs[h].phase.n < 8
    ensures Queues(Written(m, h)) && Rings(Written(m, h))
  {
    hide ReqsOk, Partition, RingHolds, WrittenDesc, WrittenInfo;
    RingSlot(m.avail, m.devSeen, m.availIdx, m.posted, h);
  }

  /** None of the eight writes touches a chain that the device has, or a slot that it has yet to read. */
  lemma WrittenKept(m: Mem, h: nat)
    requires MemOk(m) && InTables(m, h) && m.reqs[h].phase.Building? && m.reqs[h].phase.n < 8 && OnlyBuilding(m, h)
    ensures MemOk(Written(m, h))
  {
    hide ReqsOk, Partition, Queues, Rings, Written;
    WrittenReqs(m, h);
    WrittenQueues(m, h);
  }

  lemma PublishedReqs(m: Mem, h: nat)
    requires MemOk(m) && h in m.reqs && m.reqs[h].phase == Building(8) && OnlyBuilding(m, h)
    ensures Sized(Published(m, h)) && ReqsOk(Published(m, h)) && Partition(Published(m, h))
  {
    hide ReqsOk, Partition, Queues, Rings, FreeAreClear;
    var m', r' := Published(m, h), m.reqs[h].(phase := Posted);
    InTable(m, h);
    forall g | g in m.reqs && g != h ensures InTables(m, g) && Leaves(m, g, m') {
      InTable(m, g);
    }
    PartitionClear(m);
    Moves(m, h, r', m');
  }

  lemma PublishedKept(m: Mem, h: nat)
    requires MemOk(m) && h in m.reqs && m.reqs[h].phase == Building(8) && OnlyBuilding(m, h)
    ensures MemOk(Published(m, h))
  {
    hide ReqsOk, Partition, RingHolds, ReqOk, Leaves;
    PublishedReqs(m, h);
    SlotWritten(m, h);
    Fewer(m, h);
    RingPush(m.avail, m.devSeen, m.availIdx, m.posted, h);
    assert forall g :: g in Published(m, h).posted <==> g in m.posted || g == h;
  }

  lemma SlotWritten(m: Mem, h: nat)
    requires MemOk(m) && h in m.reqs && m.reqs[h].phase == Building(8)
    ensures m.avail[m.availIdx % NUM] == h
  {
    hide Partition, Queues, Rings, ReqsOk;
    InTable(m, h);
  }

  lemma PartitionClear(m: Mem)
    requires MemOk(m)
    ensures FreeAreClear(m.free, m.desc)
  {
  }

  /** While a request is elsewhere, at most one is in a ring. */
  lemma Fewer(m: Mem, h: nat)
    requires MemOk(m) && h in m.reqs
    ensures h !in m.posted ==> |m.posted| < 2
    ensures h !in m.done ==> |m.done| < 2
  {
    hide ReqsOk, Rings, Owned, FreeAreClear;
    if h !in m.posted {
      InSet(m.posted, m.reqs.Keys - {h});
    }
    if h !in m.done {
      InSet(m.done, m.reqs.Keys - {h});
    }
  }

  // ---------------------------------------------------------------------------
  // Descriptors are taken
  // ---------------------------------------------------------------------------

  ghost predicate ThreeFree(m: Mem, i: nat, j: nat, k: nat)
    requires Sized(m)
  {
    i < NUM && j < NUM && k < NUM && i != j && j != k && i != k && m.free[i] && m.free[j] && m.free[k]
  }

  ghost predicate NoneFreeing(m: Mem) { forall g :: g in m.reqs ==> !m.reqs[g].phase.Freeing? }

  /** A free descriptor is in no chain, unless the chain is being freed. */
  lemma NotMine(m: Mem, h: nat, d: nat)
    requires MemOk(m) && h in m.reqs && !m.reqs[h].phase.Freeing? && d < NUM && m.free[d]
    ensures d != h && d != m.reqs[h].d1 && d != m.reqs[h].d2
  {
    hide Rings, Queues, ReqOk;
    if Member(h, m.reqs[h], d) {
      NotFree(m, h, d);
    }
  }

  lemma {:induction false} SubsetSize(a: set<nat>, b: set<nat>)
    requires a <= b
    ensures |a| <= |b|
    decreases a
  {
    if a != {} {
      var x :| x in a;
      SubsetSize(a - {x}, b - {x});
    }
  }

  function ThreeOf(a: nat, b: nat, c: nat): (t: set<nat>) { {a, b, c} }

  /** Three different descriptors. */
  ghost predicate Trio(t: set<nat>) { |t| == 3 && forall x :: x in t ==> x < NUM }

  lemma IsTrio(a: nat, b: nat, c: nat)
    requires a < NUM && b < NUM && c < NUM && a != b && b != c && a != c
    ensures Trio(ThreeOf(a, b, c))
  {
    assert {a, b, c} - {a} == {b, c} && {b, c} - {b} == {c};
  }

  /** There are not nine descriptors. */
  lemma NoThirdTrio(x: set<nat>, y: set<nat>, z: set<nat>)
    requires Trio(x) && Trio(y) && x !! y && x !! z && y !! z
    ensures !Trio(z)
  {
    if Trio(z) {
      assert |x + y| == 6 && |x + y + z| == 9;
      SubsetSize(x + y + z, {0, 1, 2, 3, 4, 5, 6, 7});
    }
  }

  lemma ChainTrio(m: Mem, h: nat)
    requires MemOk(m) && h in m.reqs
    ensures Trio(ThreeOf(h, m.reqs[h].d1, m.reqs[h].d2))
  {
    hide ReqsOk, Partition, Queues, Rings, ChainOk, EntryOk, Trio;
    InTable(m, h);
    IsTrio(h, m.reqs[h].d1, m.reqs[h].d2);
  }

  lemma ChainsApart(m: Mem, g: nat, h: nat)
    requires MemOk(m) && g in m.reqs && h in m.reqs && g != h
    ensures ThreeOf(g, m.reqs[g].d1, m.reqs[g].d2) !! ThreeOf(h, m.reqs[h].d1, m.reqs[h].d2)
  {
    hide ReqsOk, Partition, Queues, Rings;
    OtherBuffer(m, g, h);
  }

  lemma ChainTaken(m: Mem, h: nat, i: nat, j: nat, k: nat)
    requires MemOk(m) && h in m.reqs && ThreeFree(m, i, j, k) && NoneFreeing(m)
    ensures ThreeOf(h, m.reqs[h].d1, m.reqs[h].d2) !! ThreeOf(i, j, k)
  {
    hide ReqsOk, Partition, Queues, Rings;
    NotMine(m, h, i); NotMine(m, h, j); NotMine(m, h, k);
  }

  /** With three free descriptors, and no chain half freed, at most one request is under way. */
  lemma RoomForOne(m: Mem, i: nat, j: nat, k: nat)
    requires MemOk(m) && ThreeFree(m, i, j, k) && NoneFreeing(m)
    ensures |m.reqs| <= 1
  {
    IsTrio(i, j, k);
    hide ReqsOk, Partition, Queues, Rings, ThreeOf, Trio, ThreeFree;
    if |m.reqs| > 1 {
      var g: nat :| g in m.reqs.Keys;
      assert |m.reqs.Keys - {g}| == |m.reqs.Keys| - 1;
      var h: nat :| h in m.reqs.Keys - {g};
      ChainTrio(m, g); ChainTrio(m, h);
      ChainsApart(m, g, h);
      ChainTaken(m, g, i, j, k); ChainTaken(m, h, i, j, k);
      NoThirdTrio(ThreeOf(g, m.reqs[g].d1, m.reqs[g].d2), ThreeOf(h, m.reqs[h].d1, m.reqs[h].d2), ThreeOf(i, j, k));
    }
  }

  lemma ThreeAt<T>(f: seq<T>, i: nat, j: nat, k: nat, v: T, l: nat)
    requires i < |f| && j < |f| && k < |f| && l < |f|
    ensures SetAll(f, [i, j, k], v)[l] == if l == i || l == j || l == k then v else f[l]
  {
    var c := [i, j, k];
    assert l in c <==> l == c[0] || l == c[1] || l == c[2];
    SetAllAt(f, c, v, l);
  }

  lemma OwnedMore(reqs: map<nat, Request>, i: nat, r: Request, d: nat)
    requires i !in reqs
    ensures Owned(reqs[i := r], d) <==> Owned(reqs, d) || Member(i, r, d)
  {
    var reqs' := reqs[i := r];
    if Member(i, r, d) {
      assert i in reqs' && Member(i, reqs'[i], d);
    }
    if Owned(reqs, d) {
      var h :| h in reqs && Member(h, reqs[h], d);
      assert h in reqs' && Member(h, reqs'[h], d);
    }
  }

  /** A buffer that is in no request, with its block. */
  ghost predicate Unused(m: Mem, b: nat) {
    && b < |m.bufDisk| && b < |m.blockno| && Sector(m.blockno[b]) in m.disk
    && forall h :: h in m.reqs ==> m.reqs[h].b != b
  }

  lemma AllocatedOther(m: Mem, agent: nat, b: nat, write: bool, i: nat, j: nat, k: nat, h: nat)
    requires MemOk(m) && ThreeFree(m, i, j, k) && NoneFreeing(m) && Unused(m, b) && h in m.reqs
    ensures var m' := Allocated(m, agent, b, write, Sector(m.blockno[b]), i, j, k);
      && h != i && Sized(m') && ReqOk(m', h, m.reqs[h])
      && Apart(h, m.reqs[h], i, m'.reqs[i]) && Apart(i, m'.reqs[i], h, m.reqs[h])
  {
    hide ReqsOk, Partition, Queues, Rings, SetAll;
    var m' := Allocated(m, agent, b, write, Sector(m.blockno[b]), i, j, k);
    InTable(m, h);
    NotMine(m, h, i); NotMine(m, h, j); NotMine(m, h, k);
    ReqSame(m, h, m');
    hide ReqOk;
  }

  lemma AllocatedReqs(m: Mem, agent: nat, b: nat, write: bool, i: nat, j: nat, k: nat)
    requires MemOk(m) && ThreeFree(m, i, j, k) && NoneFreeing(m) && Unused(m, b)
    ensures var m' := Allocated(m, agent, b, write, Sector(m.blockno[b]), i, j, k);
      i !in m.reqs && Sized(m') && ReqsOk(m')
  {
    hide Rings, Queues, Partition, ReqsOk, SetAll, Apart;
    var m' := Allocated(m, agent, b, write, Sector(m.blockno[b]), i, j, k);
    assert ReqOk(m', i, m'.reqs[i]);
    hide ReqOk;
    forall h | h in m.reqs
      ensures h != i && ReqOk(m', h, m.reqs[h])
      ensures Apart(h, m.reqs[h], i, m'.reqs[i]) && Apart(i, m'.reqs[i], h, m.reqs[h])
    {
      AllocatedOther(m, agent, b, write, i, j, k, h);
    }
    forall g, h | g in m'.reqs && h in m'.reqs && g != h ensures Apart(g, m'.reqs[g], h, m'.reqs[h]) {
      if g != i && h != i {
        OtherBuffer(m, g, h);
      }
    }
    AreOk(m');
  }

  lemma AllocatedPartition(m: Mem, agent: nat, b: nat, write: bool, sector: nat, i: nat, j: nat, k: nat)
    requires MemOk(m) && ThreeFree(m, i, j, k) && NoneFreeing(m) && i !in m.reqs
    ensures var m' := Allocated(m, agent, b, write, sector, i, j, k); Sized(m') && Partition(m')
  {
    hide Rings, Queues, ReqsOk, SetAll, Owned;
    var m' := Allocated(m, agent, b, write, sector, i, j, k);
    RoomForOne(m, i, j, k);
    forall d | 0 <= d < NUM ensures m'.free[d] <==> !Owned(m'.reqs, d) {
      ThreeAt(m.free, i, j, k, false, d);
      OwnedMore(m.reqs, i, m'.reqs[i], d);
    }
    forall d | 0 <= d < NUM && m'.free[d] ensures m'.desc[d] == CLEAR {
      ThreeAt(m.free, i, j, k, false, d);
    }
    assert m'.reqs.Keys == m.reqs.Keys + {i};
    assert |m'.reqs| == |m.reqs| + 1;
  }

  lemma AllocatedKept(m: Mem, agent: nat, b: nat, write: bool, i: nat, j: nat, k: nat)
    requires MemOk(m) && ThreeFree(m, i, j, k) && NoneFreeing(m) && Unused(m, b)
    ensures MemOk(Allocated(m, agent, b, write, Sector(m.blockno[b]), i, j, k)) && i !in m.reqs
  {
    hide ReqsOk, Partition, Rings, SetAll;
    AllocatedReqs(m, agent, b, write, i, j, k);
    AllocatedPartition(m, agent, b, write, Sector(m.blockno[b]), i, j, k);
    assert Rings(Allocated(m, agent, b, write, Sector(m.blockno[b]), i, j, k)) by { SameRings(m,
        Allocated(m, agent, b, write, Sector(m.blockno[b]), i, j, k)); }
  }

  lemma SameRings(m: Mem, m': Mem)
    requires Rings(m) && m'.avail == m.avail && m'.devSeen == m.devSeen && m'.availIdx == m.availIdx &&
            m'.posted == m.posted
    requires m'.used == m.used && m'.usedSeen == m.usedSeen && m'.usedIdx == m.usedIdx && m'.done == m.done
    ensures Rings(m')
  {
  }

  // ---------------------------------------------------------------------------
  // The device
  // ---------------------------------------------------------------------------

  lemma Popped(q: seq<nat>)
    requires Distinct(q) && |q| > 0
    ensures Distinct(q[1..]) && forall h :: h in q[1..] <==> h in q && h != q[0]
  {
    assert q == [q[0]] + q[1..];
  }

  /** The device takes the oldest posted request, and none when there is none. */
  lemma TakeFirst(m: Mem)
    requires MemOk(m) && m.devSeen != m.availIdx
    ensures |m.posted| > 0 && m.avail[m.devSeen % NUM] == m.posted[0]
    ensures m.posted[0] in m.reqs && m.reqs[m.posted[0]].phase.Posted?
    ensures RingHolds(m.avail, (m.devSeen + 1) % WRAP, m.availIdx, m.posted[1..])
  {
    RingPop(m.avail, m.devSeen, m.availIdx, m.posted);
    hide RingHolds, ReqsOk, Partition;
    assert m.posted[0] in m.posted;
  }

  lemma TakeReqs(m: Mem, m': Mem)
    requires MemOk(m) && Take(m, m')
    ensures Sized(m') && ReqsOk(m') && Partition(m')
  {
    hide ReqsOk, Partition, Queues, Rings, RingHolds, FreeAreClear;
    TakeFirst(m);
    var h := m.posted[0];
    InTable(m, h);
    PartitionClear(m);
    forall g | g in m.reqs && g != h ensures InTables(m, g) && Leaves(m, g, m') {
      InTable(m, g);
    }
    Moves(m, h, m.reqs[h].(phase := Taken(0)), m');
  }

  lemma TakeKept(m: Mem, m': Mem)
    requires MemOk(m) && Take(m, m')
    ensures MemOk(m')
  {
    hide ReqsOk, Partition, RingHolds;
    TakeReqs(m, m');
    TakeFirst(m);
    Popped(m.posted);
  }

  /** What the device finds is a request as its thread wrote it, with nothing left unwritten. */
  lemma ChainIsReadable(m: Mem, h: nat)
    requires MemOk(m) && h in m.working
    ensures Readable(m, h) && h in m.reqs && m.reqs[h].phase.Taken? && m.reqs[h].b < |m.blockno|
    ensures m.ops[m.desc[h].addr.i] == Op(m.reqs[h].write, Sector(m.blockno[m.reqs[h].b]))
    ensures m.desc[m.desc[h].next].addr.b == m.reqs[h].b
  {
    hide Rings, Partition, ReqsOk;
    InTable(m, h);
  }

  /**
    The device does what the request asks, in this order: it writes the buffer to its block, or reads
    its block into it; it reports success; it enters the request in the used ring.  Nothing else
    changes.
   */
  lemma CarriesOutTheRequest(m: Mem, h: nat, m': Mem)
    requires MemOk(m) && Carries(m, h, m')
    ensures InTables(m, h) && m.reqs[h].phase == Taken(m.working[h])
    ensures var n, r := m.working[h], m.reqs[h]; var sec := Sector(m.blockno[r.b]);
      && sec in m.disk && r.b < |m.data|
      && m'.disk == (if n == 0 && r.write then m.disk[sec := m.data[r.b]] else m.disk)
      && m'.data == (if n == 0 && !r.write then m.data[r.b := m.disk[sec]] else m.data)
      && m'.info == (if n == 1 then m.info[h := Info(r.b, 0)] else m.info)
      && m'.used == (if n == 2 then m.used[m.usedIdx % NUM := h] else m.used)
      && m' == m.(disk := m'.disk, data := m'.data, info := m'.info, used := m'.used, working := m'.working,
                  reqs := m'.reqs)
      && m'.reqs == m.reqs[h := r.(phase := Taken(n + 1), moved := if n == 0 then m'.data[r.b] else r.moved)]
      && sec in m'.disk && (n == 0 ==> m'.data[r.b] == m'.disk[sec])
  {
    hide Rings, Partition, ReqsOk;
    ChainIsReadable(m, h);
    InTable(m, h);
  }

  lemma CarriesSelf(m: Mem, h: nat, m': Mem)
    requires MemOk(m) && Carries(m, h, m')
    ensures h in m.reqs && h in m'.reqs && Sized(m') && ReqOk(m', h, m'.reqs[h])
  {
    hide Rings, Partition, Queues, ReqsOk, Carries;
    CarriesOutTheRequest(m, h, m');
    InTable(m, h);
  }

  lemma CarriesOther(m: Mem, h: nat, m': Mem, g: nat)
    requires MemOk(m) && Carries(m, h, m') && g in m.reqs && g != h
    ensures InTables(m, g) && Sized(m') && Leaves(m, g, m')
  {
    hide Rings, Partition, ReqsOk, ReqOk, Readable, Carried;
    CarriesOutTheRequest(m, h, m');
    InTable(m, g);
    OtherBuffer(m, g, h);
  }

  lemma CarriesReqs(m: Mem, h: nat, m': Mem)
    requires MemOk(m) && Carries(m, h, m')
    ensures Sized(m') && ReqsOk(m') && Partition(m')
  {
    hide Rings, Partition, Queues, ReqsOk, Carries, FreeAreClear, ReqOk, Leaves;
    CarriesOutTheRequest(m, h, m');
    CarriesSelf(m, h, m');
    PartitionClear(m);
    forall g | g in m.reqs && g != h ensures InTables(m, g) && Leaves(m, g, m') {
      CarriesOther(m, h, m', g);
    }
    Moves(m, h, m'.reqs[h], m');
  }

  /** The slot that the device writes is none that the handler has yet to read. */
  lemma CarriesQueues(m: Mem, h: nat, m': Mem)
    requires MemOk(m) && Carries(m, h, m')
    ensures Queues(m') && Rings(m')
  {
    hide ReqsOk, Partition, RingHolds, Readable;
    CarriesOutTheRequest(m, h, m');
    RingSlot(m.used, m.usedSeen, m.usedIdx, m.done, h);
  }

  lemma CarriesKept(m: Mem, h: nat, m': Mem)
    requires MemOk(m) && Carries(m, h, m')
    ensures MemOk(m')
  {
    hide Carries, ReqsOk, Partition, Queues, Rings;
    CarriesReqs(m, h, m');
    CarriesQueues(m, h, m');
  }

  /** What the device publishes is complete: data moved, success reported, its slot written. */
  lemma CompletedEntry(m: Mem, h: nat)
    requires MemOk(m) && h in m.working && m.working[h] == 3
    ensures InTables(m, h) && m.reqs[h].phase == Taken(3) && m.used[m.usedIdx % NUM] == h
    ensures m.info[h] == Info(m.reqs[h].b, 0) && m.data[m.reqs[h].b] == m.reqs[h].moved
  {
    hide ReqsOk, Partition, Rings;
    InTable(m, h);
  }

  lemma CompletesOther(m: Mem, h: nat, m': Mem, g: nat)
    requires MemOk(m) && Completes(m, h, m') && g in m.reqs && g != h
    ensures InTables(m, g) && Sized(m') && Leaves(m, g, m')
  {
    hide Rings, Partition, ReqsOk, ReqOk;
    InTable(m, g);
  }

  lemma CompletesReqs(m: Mem, h: nat, m': Mem)
    requires MemOk(m) && Completes(m, h, m')
    ensures Sized(m') && ReqsOk(m') && Partition(m')
  {
    hide ReqsOk, Partition, Rings, Queues, FreeAreClear, Leaves;
    CompletedEntry(m, h);
    InTable(m, h);
    PartitionClear(m);
    forall g | g in m.reqs && g != h ensures InTables(m, g) && Leaves(m, g, m') {
      CompletesOther(m, h, m', g);
    }
    Moves(m, h, m.reqs[h].(phase := Done), m');
  }

  lemma CompletesKept(m: Mem, h: nat, m': Mem)
    requires MemOk(m) && Completes(m, h, m')
    ensures MemOk(m')
  {
    hide ReqsOk, Partition, RingHolds, ReqOk, Leaves;
    CompletesReqs(m, h, m');
    CompletedEntry(m, h);
    Fewer(m, h);
    RingPush(m.used, m.usedSeen, m.usedIdx, m.done, h);
    assert forall g :: g in m'.done <==> g in m.done || g == h;
  }

  // ---------------------------------------------------------------------------
  // The handler
  // ---------------------------------------------------------------------------

  /** The handler finds the oldest completed request. */
  lemma DoneFirst(m: Mem)
    requires MemOk(m)
    ensures m.usedSeen != m.usedIdx <==> |m.done| > 0
    ensures |m.done| > 0 ==>
              && m.used[m.usedSeen % NUM] == m.done[0] && m.done[0] in m.reqs
              && (m.reqs[m.done[0]].phase.Done? || m.reqs[m.done[0]].phase.Cleared?)
  {
    hide Partition, ReqsOk;
    RingPop(m.used, m.usedSeen, m.usedIdx, m.done);
    if |m.done| > 0 {
      assert m.done[0] in m.done;
    }
  }

  /** Its status is 0 and it has its buffer, so virtio_disk_intr does not panic; its data are there. */
  lemma IntrNeverPanics(m: Mem, id: nat)
    requires MemOk(m) && id in m.reqs && m.reqs[id].phase.Done?
    ensures IntrSafe(m, id) && m.info[id].b == m.reqs[id].b
    ensures m.reqs[id].b < |m.data| && m.data[m.reqs[id].b] == m.reqs[id].moved
  {
    hide Partition, ReqsOk, Queues, Rings;
    InTable(m, id);
  }

  lemma DiskClearedKept(m: Mem, id: nat)
    requires MemOk(m) && id in m.reqs && m.reqs[id].phase.Done? && IntrSafe(m, id)
    ensures MemOk(DiskCleared(m, id))
  {
    hide Partition, ReqsOk, Rings, FreeAreClear;
    var m' := DiskCleared(m, id);
    IntrNeverPanics(m, id);
    InTable(m, id);
    PartitionClear(m);
    forall g | g in m.reqs && g != id ensures InTables(m, g) && Leaves(m, g, m') {
      InTable(m, g);
      OtherBuffer(m, g, id);
    }
    Moves(m, id, m.reqs[id].(phase := Cleared), m');
    SameRings(m, m');
    hide ReqOk, Leaves;
  }

  lemma AdvancedReqs(m: Mem)
    requires MemOk(m) && |m.done| > 0 && m.done[0] in m.reqs && m.reqs[m.done[0]].phase.Cleared?
    ensures Sized(Advanced(m)) && ReqsOk(Advanced(m)) && Partition(Advanced(m))
  {
    hide Partition, ReqsOk, Queues, Rings, FreeAreClear;
    var m', id := Advanced(m), m.done[0];
    InTable(m, id);
    PartitionClear(m);
    forall g | g in m.reqs && g != id ensures InTables(m, g) && Leaves(m, g, m') {
      InTable(m, g);
    }
    Moves(m, id, m.reqs[id].(phase := Seen), m');
  }

  lemma AdvancedKept(m: Mem)
    requires MemOk(m) && |m.done| > 0 && m.done[0] in m.reqs && m.reqs[m.done[0]].phase.Cleared?
    ensures MemOk(Advanced(m))
  {
    hide Partition, ReqsOk, RingHolds;
    AdvancedReqs(m);
    RingPop(m.used, m.usedSeen, m.usedIdx, m.done);
    Popped(m.done);
  }

  // ---------------------------------------------------------------------------
  // Freeing the chain
  // ---------------------------------------------------------------------------

  lemma InfoClearedReqs(m: Mem, h: nat)
    requires MemOk(m) && InTables(m, h) && m.reqs[h].phase.Seen?
    ensures Sized(InfoCleared(m, h)) && ReqsOk(InfoCleared(m, h)) && Partition(InfoCleared(m, h))
  {
    hide Partition, ReqsOk, Queues, Rings, FreeAreClear;
    var m' := InfoCleared(m, h);
    InTable(m, h);
    PartitionClear(m);
    forall g | g in m.reqs && g != h ensures InTables(m, g) && Leaves(m, g, m') {
      InTable(m, g);
    }
    Moves(m, h, m.reqs[h].(phase := Freeing(0)), m');
  }

  lemma InfoClearedKept(m: Mem, h: nat)
    requires MemOk(m) && InTables(m, h) && m.reqs[h].phase.Seen?
    ensures MemOk(InfoCleared(m, h))
  {
    hide Partition, ReqsOk, Rings;
    InfoClearedReqs(m, h);
    SameRings(m, InfoCleared(m, h));
  }

  /** free_desc is called on a descriptor in use, and finds there where the chain goes on, if it does. */
  lemma FreeNeverPanics(m: Mem, h: nat)
    requires MemOk(m) && h in m.reqs && m.reqs[h].phase.Freeing?
    ensures var r := m.reqs[h]; var n := r.phase.n; var d := Nth(h, r, n);
      && n < 3 && d < NUM && !m.free[d]
      && m.desc[d].more == (n < 2) && (n < 2 ==> m.desc[d].next == Nth(h, r, n + 1))
  {
    hide Partition, ReqsOk, Queues, Rings;
    InTable(m, h);
    NotFree(m, h, Nth(h, m.reqs[h], m.reqs[h].phase.n));
  }

  /** What is owned once request h has freed its next descriptor. */
  lemma OwnedLess(m: Mem, h: nat, d: nat)
    requires MemOk(m) && h in m.reqs && m.reqs[h].phase.Freeing? && d < NUM
    ensures var e := Nth(h, m.reqs[h], m.reqs[h].phase.n);
      e < NUM && (Owned(FreedOne(m, h, e).reqs, d) <==> Owned(m.reqs, d) && d != e)
  {
    hide Partition, ReqsOk, Queues, Rings, ChainOk, EntryOk;
    InTable(m, h);
    var r, e := m.reqs[h], Nth(h, m.reqs[h], m.reqs[h].phase.n);
    var reqs' := FreedOne(m, h, e).reqs;
    if Owned(reqs', d) {
      var g :| g in reqs' && Member(g, reqs'[g], d);
      assert g in m.reqs && Member(g, m.reqs[g], d);
      if g != h {
        OtherBuffer(m, g, h);
      }
    }
    if Owned(m.reqs, d) && d != e {
      var g :| g in m.reqs && Member(g, m.reqs[g], d);
      assert g in reqs' && Member(g, reqs'[g], d);
    }
  }

  lemma FreedPartition(m: Mem, h: nat)
    requires MemOk(m) && h in m.reqs && m.reqs[h].phase.Freeing?
    ensures var e := Nth(h, m.reqs[h], m.reqs[h].phase.n);
      e < NUM && Sized(FreedOne(m, h, e)) && Partition(FreedOne(m, h, e))
  {
    hide ReqsOk, Queues, Rings, Owned;
    FreeNeverPanics(m, h);
    var e := Nth(h, m.reqs[h], m.reqs[h].phase.n);
    var m' := FreedOne(m, h, e);
    forall d | 0 <= d < NUM ensures m'.free[d] <==> !Owned(m'.reqs, d) {
      OwnedLess(m, h, d);
    }
    assert m'.reqs.Keys == m.reqs.Keys || m'.reqs.Keys == m.reqs.Keys - {h};
    assert |m'.reqs| == |m'.reqs.Keys| <= |m.reqs.Keys| == |m.reqs|;
  }

  lemma FreedReqs(m: Mem, h: nat)
    requires MemOk(m) && h in m.reqs && m.reqs[h].phase.Freeing?
    ensures var e := Nth(h, m.reqs[h], m.reqs[h].phase.n);
      e < NUM && Sized(FreedOne(m, h, e)) && ReqsOk(FreedOne(m, h, e))
  {
    hide ReqsOk, Partition, Queues, Rings;
    FreeNeverPanics(m, h);
    InTable(m, h);
    var e := Nth(h, m.reqs[h], m.reqs[h].phase.n);
    var m' := FreedOne(m, h, e);
    FreedSelf(m, h, e);
    hide ReqOk, Apart;
    forall g | g in m'.reqs ensures ReqOk(m', g, m'.reqs[g]) {
      if g != h {
        FreedOther(m, h, e, g);
      }
    }
    forall g, k | g in m'.reqs && k in m'.reqs && g != k ensures Apart(g, m'.reqs[g], k, m'.reqs[k]) {
      OtherBuffer(m, g, k);
      SameApart(g, m.reqs[g], m'.reqs[g].phase, k, m.reqs[k], m'.reqs[k].phase);
    }
    AreOk(m');
  }

  lemma AreOk(m: Mem)
    requires Sized(m) && (forall g :: g in m.reqs ==> ReqOk(m, g, m.reqs[g]))
    requires forall g, k :: g in m.reqs && k in m.reqs && g != k ==> Apart(g, m.reqs[g], k, m.reqs[k])
    ensures ReqsOk(m)
  {
    hide ReqOk, Apart;
  }

  lemma SameApart(g: nat, q: Request, p: Phase, h: nat, r: Request, p': Phase)
    requires Apart(g, q, h, r)
    ensures Apart(g, q.(phase := p), h, r.(phase := p'))
  {
  }

  lemma FreedSelf(m: Mem, h: nat, e: nat)
    requires Sized(m) && h in m.reqs && ReqOk(m, h, m.reqs[h]) && m.reqs[h].phase.Freeing?
    requires e == Nth(h, m.reqs[h], m.reqs[h].phase.n)
    ensures var m' := FreedOne(m, h, e); Sized(m') && (h in m'.reqs ==> ReqOk(m', h, m'.reqs[h]))
  {
  }

  lemma FreedOther(m: Mem, h: nat, e: nat, g: nat)
    requires MemOk(m) && h in m.reqs && m.reqs[h].phase.Freeing? && g in m.reqs && g != h
    requires e == Nth(h, m.reqs[h], m.reqs[h].phase.n) && e < NUM
    ensures Sized(FreedOne(m, h, e)) && ReqOk(FreedOne(m, h, e), g, m.reqs[g])
  {
    hide ReqsOk, Partition, Queues, Rings;
    InTable(m, g);
    OtherBuffer(m, g, h);
    ReqSame(m, g, FreedOne(m, h, e));
  }

  lemma FreedKept(m: Mem, h: nat)
    requires MemOk(m) && h in m.reqs && m.reqs[h].phase.Freeing?
    ensures var e := Nth(h, m.reqs[h], m.reqs[h].phase.n); e < NUM && Sized(m) && MemOk(FreedOne(m, h, e))
  {
    hide ReqsOk, Partition, Rings;
    FreedPartition(m, h);
    FreedReqs(m, h);
    SameRings(m, FreedOne(m, h, Nth(h, m.reqs[h], m.reqs[h].phase.n)));
  }

  // ---------------------------------------------------------------------------
  // Buffers in no request
  // ---------------------------------------------------------------------------

  lemma ModifiedKept(m: Mem, b: nat, x: Data, blockno: nat)
    requires MemOk(m) && b < |m.data| && b < |m.blockno| && (forall h :: h in m.reqs ==> m.reqs[h].b != b)
    ensures MemOk(Modified(m, b, x, blockno))
  {
    hide Partition, Queues, Rings, AllApart;
    var m' := Modified(m, b, x, blockno);
    forall h | h in m.reqs ensures ReqOk(m', h, m.reqs[h]) {
      InTable(m, h);
      ReqSame(m, h, m');
    }
    hide ReqOk;
    SameRings(m, m');
    assert Queues(m') by { SameQueues(m, m'); }
    assert Partition(m') by { SamePartition(m, m'); }
  }

  lemma SameQueues(m: Mem, m': Mem)
    requires Queues(m) && m'.posted == m.posted && m'.working == m.working && m'.done == m.done && m'.reqs == m.reqs
    ensures Queues(m')
  {
  }

  lemma SamePartition(m: Mem, m': Mem)
    requires Sized(m) && Sized(m') && Partition(m) && m'.free == m.free && m'.desc == m.desc && m'.reqs == m.reqs
    ensures Partition(m')
  {
  }
}
