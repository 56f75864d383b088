/** What every interleaving of the receive thread, the worker and the hook keeps. */
module JitterRuns {
  import opened Bytes
  import opened JitterRing

  // ------------------------------------------------------------------- invariant

  /** One slot agrees with its slab, its owner and the window. */
  predicate SlotOk(i: nat, slot: Slot, own: Owner, content: seq<byte>, stored: map<nat, Dgram>, nextU: nat,
                   depth: nat) {
    && (slot.filled <==> own.Filled? || own.Dispatching?)
    && (slot.busy <==> !own.Free? && !own.Filled?)
    && (slot.filled ==>
          && nextU <= slot.u < nextU + depth && slot.u % RING == i && slot.u % SEQ == slot.seqno
          && slot.u in stored && DgramOk(stored[slot.u]) && stored[slot.u].seqno == slot.seqno
          && stored[slot.u].bytes == content && |content| == slot.len && stored[slot.u].hdr == slot.hdr)
  }

  predicate Slots(ring: seq<Slot>, owner: seq<Owner>, slab: seq<seq<byte>>, stored: map<nat, Dgram>, nextU: nat,
                  depth: nat) {
    && |ring| == |owner| == |slab| == RING
    && forall i :: 0 <= i < RING ==> SlotOk(i, ring[i], owner[i], slab[i], stored, nextU, depth)
  }

  /** A logged job names the datagram that was stored for its sequence number. */
  predicate JobOk(j: Job, stored: map<nat, Dgram>, nextU: nat) {
    && j.u < nextU && j.slab == j.u % RING && j.seqno == j.u % SEQ
    && j.u in stored && DgramOk(stored[j.u]) && stored[j.u].seqno == j.seqno
    && stored[j.u].hdr == j.hdr && |stored[j.u].bytes| == j.len
  }

  predicate LogOk(log: seq<Job>, stored: map<nat, Dgram>, nextU: nat) {
    && (forall k :: 0 <= k < |log| ==> JobOk(log[k], stored, nextU))
    && (forall k, m :: 0 <= k < m < |log| ==> log[k].u < log[m].u)
  }

  /** An owner that refers to the log refers to a job of this slab, whose bytes the slab still has. */
  predicate OwnerOk(i: nat, own: Owner, content: seq<byte>, log: seq<Job>, popped: nat, stored: map<nat, Dgram>) {
    match own
    case Queued(k) => popped <= k < |log| && Backs(i, content, log[k], stored)
    case Running(k) => k + 1 == popped <= |log| && Backs(i, content, log[k], stored)
    case Held(k) => k < popped <= |log| && Backs(i, content, log[k], stored)
    case _ => true
  }

  predicate Backs(i: nat, content: seq<byte>, j: Job, stored: map<nat, Dgram>) {
    j.slab == i && j.u in stored && stored[j.u].bytes == content
  }

  predicate Owners(owner: seq<Owner>, slab: seq<seq<byte>>, log: seq<Job>, popped: nat, stored: map<nat, Dgram>) {
    && |owner| == |slab| == RING && popped <= |log|
    && (forall i :: 0 <= i < RING ==> OwnerOk(i, owner[i], slab[i], log, popped, stored))
    && (forall k :: popped <= k < |log| ==> log[k].slab < RING && owner[log[k].slab] == Queued(k))
  }

  /** The queue cells from head to tail are the jobs logged and not yet popped. */
  predicate QueueOk(queue: seq<Job>, head: nat, tail: nat, log: seq<Job>, popped: nat) {
    && |queue| == QUEUE && head < QUEUE && tail < QUEUE && popped <= |log|
    && |log| - popped < QUEUE && (head + (|log| - popped)) % QUEUE == tail
    && forall k :: popped <= k < |log| ==> queue[(head + (k - popped)) % QUEUE] == log[k]
  }

  /** What the hook was shown: job by job, in log order, the stored datagram's bytes. */
  predicate SeenOk(seen: seq<(Job, seq<byte>)>, log: seq<Job>, stored: map<nat, Dgram>, n: int) {
    && |seen| == n <= |log|
    && forall k :: 0 <= k < |seen| ==> seen[k].0 == log[k] && log[k].u in stored && seen[k].1 == stored[log[k].u].bytes
  }

  function FilledSet(ring: seq<Slot>): set<nat> {
    set i: nat | i < |ring| && ring[i].filled
  }

  /** The receive thread is in the middle of handing the head slot over. */
  predicate InDispatch(r: Recv) {
    r.Load? || r.Put? || r.Publish? || r.Drop?
  }

  predicate ReturnOk(b: Return, nextU: nat, depth: nat) {
    b.ToAdvance? ==> DgramOk(b.d) && b.u % SEQ == b.d.seqno && nextU + depth <= b.u < nextU + 32768
  }

  /** The head slot is filled with the next datagram, and only it is being handed over. */
  predicate HeadFilled(ring: seq<Slot>, nextU: nat) {
    |ring| == RING && ring[nextU % RING].filled && ring[nextU % RING].u == nextU
  }

  predicate Dispatches(r: Recv, owner: seq<Owner>, nextU: nat) {
    && |owner| == RING
    && (InDispatch(r) ==> owner[nextU % RING].Dispatching?)
    && (forall i :: 0 <= i < RING && owner[i].Dispatching? ==> InDispatch(r) && i == nextU % RING)
    && (r.Write? ==> owner[r.u % RING].Free?)
  }

  predicate RecvOk(r: Recv, started: bool, ring: seq<Slot>, nextU: nat, depth: nat) {
    && (r.Idle? || started)
    && (r.Advance? ==> DgramOk(r.d) && r.u % SEQ == r.d.seqno && nextU <= r.u < nextU + 32768)
    && (r.Store? || r.Write? ==> DgramOk(r.d) && r.u % SEQ == r.d.seqno && nextU <= r.u < nextU + depth)
    && (r.Own? || InDispatch(r) ==> HeadFilled(ring, nextU) && ReturnOk(r.back, nextU, depth))
  }

  /** Room was seen and can only have grown, and the cell behind the tail holds the job about to be published. */
  predicate PutOk(r: Recv, queue: seq<Job>, tail: nat, ring: seq<Slot>, nextU: nat, queued: int) {
    && (r.Put? || r.Publish? ==> queued < QUEUE - 1)
    && (r.Publish? ==>
          && |queue| == QUEUE && tail < QUEUE && |ring| == RING
          && queue[tail] == JobOf(nextU % RING, ring[nextU % RING]))
  }

  function JobOf(i: nat, slot: Slot): Job {
    Job(i, slot.len, slot.seqno, slot.hdr, slot.u)
  }

  predicate WorkerOk(w: Worker, owner: seq<Owner>, log: seq<Job>, popped: nat) {
    && (w.Take? || w.Pop? ==> popped < |log|)
    && (w.Pop? ==> w.job == log[popped])
    && (w.Process? ==>
          && 0 < popped <= |log| && w.job == log[popped - 1] && w.job.slab < |owner|
          && owner[w.job.slab] == Running(popped - 1))
    && (forall i :: 0 <= i < |owner| && owner[i].Running? ==> w.Process? && i == w.job.slab)
  }

  predicate Accounts(s: State) {
    && s.nextSeq == s.nextU % SEQ
    && s.nextU == s.startU + |s.log| + s.fullDrops + s.lost
    && (!s.started ==> s.stored == map[] && s.log == [] && s.nextU == 0)
  }

  predicate Inv(s: State, depth: nat) {
    && Shape(s) && 1 <= depth <= RING
    && Slots(s.ring, s.owner, s.slab, s.stored, s.nextU, depth)
    && s.pending == |FilledSet(s.ring)|
    && LogOk(s.log, s.stored, s.nextU)
    && Owners(s.owner, s.slab, s.log, s.popped, s.stored)
    && QueueOk(s.queue, s.head, s.tail, s.log, s.popped)
    && SeenOk(s.seen, s.log, s.stored, s.popped - ToNat(s.worker.Process?))
    && RecvOk(s.recv, s.started, s.ring, s.nextU, depth)
    && Dispatches(s.recv, s.owner, s.nextU)
    && PutOk(s.recv, s.queue, s.tail, s.ring, s.nextU, |s.log| - s.popped)
    && WorkerOk(s.worker, s.owner, s.log, s.popped)
    && Accounts(s)
  }

  // ------------------------------------------------------------ sixteen-bit facts

  lemma HeadIs(s: State)
    requires s.nextSeq == s.nextU % SEQ
    ensures Head(s) == s.nextU % RING
  {}

  lemma SameSlotSameNumber(u: nat, v: nat, base: nat)
    requires base <= u < base + RING && base <= v < base + RING && u % RING == v % RING
    ensures u == v
  {}

  /** The signed sixteen-bit difference is the true distance inside half the number space. */
  lemma DiffIs(u: nat, base: nat)
    requires base <= u < base + 32768
    ensures Diff16(u % SEQ, base % SEQ) == u - base
  {
    ModShift(u - base, u / SEQ - base / SEQ);
    assert u % SEQ - base % SEQ == (u - base) - SEQ * (u / SEQ - base / SEQ);
  }

  lemma ModShift(x: nat, k: int)
    requires x < SEQ
    ensures (x - SEQ * k) % SEQ == x
  {}

  lemma DiffGives(seqno: nat, base: nat)
    requires seqno < SEQ && Diff16(seqno, base % SEQ) >= 0
    ensures 0 <= Diff16(seqno, base % SEQ) < 32768
    ensures (base + Diff16(seqno, base % SEQ)) % SEQ == seqno
  {}

  lemma SlotOfSeq(u: nat)
    ensures (u % SEQ) % RING == u % RING
  {}

  // --------------------------------------------------------- receive thread steps

  lemma InitInv(depth: nat)
    requires 1 <= depth <= RING
    ensures Inv(Init(), depth)
  {
    hide Blank;
    var s := Init();
    assert FilledSet(s.ring) == {};
  }

  lemma ArriveInv(s: State, depth: nat, d: Dgram)
    requires Inv(s, depth) && s.recv.Idle? && DgramOk(d)
    ensures Inv(Arrive(s, d), depth)
  {
    assert d.seqno < SEQ;
    hide Owners, QueueOk, SeenOk, WorkerOk, FilledSet, DgramOk;
    var s1 := if s.started then s else s.(started := true, nextSeq := d.seqno, nextU := d.seqno, startU := d.seqno);
    if Diff16(d.seqno, s1.nextSeq) >= 0 { DiffGives(d.seqno, s1.nextU); }
  }

  /** Moving the head over an empty slot keeps every filled slot inside the window. */
  lemma BumpSlots(ring: seq<Slot>, owner: seq<Owner>, slab: seq<seq<byte>>, stored: map<nat, Dgram>, nextU: nat,
                  depth: nat)
    requires Slots(ring, owner, slab, stored, nextU, depth) && 1 <= depth <= RING && !ring[nextU % RING].filled
    ensures Slots(ring, owner, slab, stored, nextU + 1, depth)
  {
    forall i | 0 <= i < RING ensures SlotOk(i, ring[i], owner[i], slab[i], stored, nextU + 1, depth) {
      assert SlotOk(i, ring[i], owner[i], slab[i], stored, nextU, depth);
    }
  }

  lemma LogGrowsNext(log: seq<Job>, stored: map<nat, Dgram>, nextU: nat)
    requires LogOk(log, stored, nextU)
    ensures LogOk(log, stored, nextU + 1)
  {}

  /** A filled head slot holds the next number. */
  lemma HeadNumber(s: State, depth: nat)
    requires Inv(s, depth)
    ensures s.ring[Head(s)].filled ==> s.ring[Head(s)].u == s.nextU && s.ring[Head(s)].seqno == s.nextSeq
    ensures s.recv.Advance? ==> forall i :: 0 <= i < RING ==> !s.owner[i].Dispatching?
  {
    HeadSlot(s, depth);
    var i := Head(s);
    if s.ring[i].filled { SameSlotSameNumber(s.ring[i].u, s.nextU, s.nextU); }
  }

  /** With nothing being handed over, the receive thread's place does not matter to the owners. */
  lemma QuietDispatches(r: Recv, r': Recv, owner: seq<Owner>, nextU: nat, nextU': nat)
    requires Dispatches(r, owner, nextU) && !InDispatch(r) && !InDispatch(r') && !r'.Write?
    ensures Dispatches(r', owner, nextU')
  {}

  lemma BumpSeq(nextU: nat)
    ensures (nextU % SEQ + 1) % SEQ == (nextU + 1) % SEQ
  {}

  /** Past a missing number: the head moves on and the number is lost. */
  lemma AdvanceMissing(s: State, depth: nat)
    requires Inv(s, depth) && s.recv.Advance? && s.recv.u - s.nextU >= depth && !s.ring[Head(s)].filled
    ensures Inv(Bump(s.(lost := s.lost + 1)), depth)
  {
    HeadSlot(s, depth);
    hide Owners, QueueOk, SeenOk, WorkerOk, FilledSet, LogOk, Slots, Dispatches, PutOk, Head;
    BumpSlots(s.ring, s.owner, s.slab, s.stored, s.nextU, depth);
    LogGrowsNext(s.log, s.stored, s.nextU);
    BumpSeq(s.nextU);
    QuietDispatches(s.recv, s.recv, s.owner, s.nextU, s.nextU + 1);
    NoPut(s.recv, s.queue, s.tail, s.ring, s.nextU + 1, |s.log| - s.popped);
  }

  lemma AdvanceInv(s: State, depth: nat)
    requires Inv(s, depth) && s.recv.Advance?
    ensures Inv(RecvStep(s, depth), depth)
  {
    HeadSlot(s, depth);
    DiffIs(s.recv.u, s.nextU);
    HeadNumber(s, depth);
    hide Owners, QueueOk, SeenOk, WorkerOk, FilledSet, LogOk, Slots, Dispatches, PutOk, Head, Diff16;
    if s.recv.u - s.nextU >= depth && !s.ring[Head(s)].filled {
      AdvanceMissing(s, depth);
    } else {
      var t := RecvStep(s, depth);
      QuietDispatches(s.recv, t.recv, s.owner, s.nextU, s.nextU);
      NoPut(t.recv, s.queue, s.tail, s.ring, s.nextU, |s.log| - s.popped);
    }
  }

  lemma NoPut(r: Recv, queue: seq<Job>, tail: nat, ring: seq<Slot>, nextU: nat, queued: int)
    requires !r.Put? && !r.Publish?
    ensures PutOk(r, queue, tail, ring, nextU, queued)
  {}

  /** A filled slot at the datagram's place can only be a duplicate: the alias branch is dead. */
  lemma {:induction false} AliasUnreachable(s: State, depth: nat)
    requires Inv(s, depth) && s.recv.Store?
    ensures s.ring[s.recv.d.seqno % RING].filled ==> s.ring[s.recv.d.seqno % RING].seqno == s.recv.d.seqno
  {
    SlotOfSeq(s.recv.u);
    var i := s.recv.d.seqno % RING;
    assert SlotOk(i, s.ring[i], s.owner[i], s.slab[i], s.stored, s.nextU, depth);
    if s.ring[i].filled { SameSlotSameNumber(s.ring[i].u, s.recv.u, s.nextU); }
  }

  lemma StoreInv(s: State, depth: nat)
    requires Inv(s, depth) && s.recv.Store?
    ensures Inv(RecvStep(s, depth), depth)
  {
    hide Owners, QueueOk, SeenOk, WorkerOk, FilledSet, LogOk;
    AliasUnreachable(s, depth);
    SlotOfSeq(s.recv.u);
    var i := s.recv.d.seqno % RING;
    assert SlotOk(i, s.ring[i], s.owner[i], s.slab[i], s.stored, s.nextU, depth);
  }

  lemma FillOne(ring: seq<Slot>, i: nat, slot: Slot)
    requires i < |ring| && !ring[i].filled && slot.filled
    ensures |FilledSet(ring[i := slot])| == |FilledSet(ring)| + 1
  {
    assert FilledSet(ring[i := slot]) == FilledSet(ring) + {i};
  }

  lemma EmptyOne(ring: seq<Slot>, i: nat, slot: Slot)
    requires i < |ring| && ring[i].filled && !slot.filled
    ensures |FilledSet(ring)| > 0 && |FilledSet(ring[i := slot])| == |FilledSet(ring)| - 1
  {
    assert FilledSet(ring[i := slot]) == FilledSet(ring) - {i};
    assert i in FilledSet(ring);
  }

  lemma SameFilled(ring: seq<Slot>, i: nat, slot: Slot)
    requires i < |ring| && ring[i].filled == slot.filled
    ensures FilledSet(ring[i := slot]) == FilledSet(ring)
  {}

  lemma WriteSlots(s: State, depth: nat)
    requires Inv(s, depth) && s.recv.Write?
    ensures var t := RecvStep(s, depth);
            Slots(t.ring, t.owner, t.slab, t.stored, t.nextU, depth) && t.pending == |FilledSet(t.ring)|
  {
    hide Owners, QueueOk, SeenOk, WorkerOk, LogOk, PutOk;
    var t := RecvStep(s, depth);
    SlotOfSeq(s.recv.u);
    var i := s.recv.u % RING;
    assert SlotOk(i, s.ring[i], s.owner[i], s.slab[i], s.stored, s.nextU, depth);
    FillOne(s.ring, i, t.ring[i]);
    forall j | 0 <= j < RING ensures SlotOk(j, t.ring[j], t.owner[j], t.slab[j], t.stored, t.nextU, depth) {
      assert SlotOk(j, s.ring[j], s.owner[j], s.slab[j], s.stored, s.nextU, depth);
    }
  }

  /** Recording a datagram at or past the head leaves every logged job as it was. */
  lemma WriteLog(s: State, depth: nat)
    requires Inv(s, depth) && s.recv.Write?
    ensures var t := RecvStep(s, depth);
            && LogOk(t.log, t.stored, t.nextU) && Owners(t.owner, t.slab, t.log, t.popped, t.stored)
            && SeenOk(t.seen, t.log, t.stored, t.popped - ToNat(t.worker.Process?))
  {
    hide QueueOk, WorkerOk, Slots, FilledSet;
    var t := RecvStep(s, depth);
    SlotOfSeq(s.recv.u);
    var i := s.recv.u % RING;
    forall k | 0 <= k < |s.log|
      ensures JobOk(t.log[k], t.stored, t.nextU) && t.stored[t.log[k].u] == s.stored[t.log[k].u] {
      assert JobOk(s.log[k], s.stored, s.nextU);
    }
    forall j | 0 <= j < RING ensures OwnerOk(j, t.owner[j], t.slab[j], t.log, t.popped, t.stored) {
      assert OwnerOk(j, s.owner[j], s.slab[j], s.log, s.popped, s.stored);
    }
  }

  lemma WriteInv(s: State, depth: nat)
    requires Inv(s, depth) && s.recv.Write?
    ensures Inv(RecvStep(s, depth), depth)
  {
    hide Slots, Owners, QueueOk, SeenOk, LogOk, FilledSet;
    WriteSlots(s, depth);
    WriteLog(s, depth);
    SlotOfSeq(s.recv.u);
  }

  lemma ReleaseInv(s: State, depth: nat)
    requires Inv(s, depth) && s.recv.Release?
    ensures Inv(RecvStep(s, depth), depth)
  {
    hide Owners, QueueOk, SeenOk, WorkerOk, LogOk, FilledSet;
    HeadIs(s);
    var i := Head(s);
    assert SlotOk(i, s.ring[i], s.owner[i], s.slab[i], s.stored, s.nextU, depth);
    if s.ring[i].filled { SameSlotSameNumber(s.ring[i].u, s.nextU, s.nextU); }
  }

  /** Changing one slot and its owner, the rest of the ring being as it was. */
  lemma OneSlot(ring: seq<Slot>, owner: seq<Owner>, slab: seq<seq<byte>>, stored: map<nat, Dgram>, nextU: nat,
                depth: nat, i: nat, slot: Slot, own: Owner)
    requires Slots(ring, owner, slab, stored, nextU, depth) && i < RING
    requires SlotOk(i, slot, own, slab[i], stored, nextU, depth)
    ensures Slots(ring[i := slot], owner[i := own], slab, stored, nextU, depth)
  {}

  /** Changing the owner of one slab that no queued job uses. */
  lemma OneOwner(owner: seq<Owner>, slab: seq<seq<byte>>, log: seq<Job>, popped: nat, stored: map<nat, Dgram>, i: nat,
                 own: Owner)
    requires Owners(owner, slab, log, popped, stored) && i < RING
    requires !owner[i].Queued? && OwnerOk(i, own, slab[i], log, popped, stored)
    ensures Owners(owner[i := own], slab, log, popped, stored)
  {}

  lemma OwnInv(s: State, depth: nat)
    requires Inv(s, depth) && s.recv.Own?
    ensures Inv(RecvStep(s, depth), depth)
  {
    hide Slots, Owners, QueueOk, SeenOk, LogOk, FilledSet;
    HeadIs(s);
    var i := Head(s);
    HeadSlot(s, depth);
    var slot := s.ring[i].(busy := true);
    OneSlot(s.ring, s.owner, s.slab, s.stored, s.nextU, depth, i, slot, Dispatching);
    SameFilled(s.ring, i, slot);
    OneOwner(s.owner, s.slab, s.log, s.popped, s.stored, i, Dispatching);
  }

  /** The slot at the head, as the invariant describes it. */
  lemma HeadSlot(s: State, depth: nat)
    requires Inv(s, depth)
    ensures Head(s) == s.nextU % RING
    ensures SlotOk(Head(s), s.ring[Head(s)], s.owner[Head(s)], s.slab[Head(s)], s.stored, s.nextU, depth)
  {
    HeadIs(s);
  }

  lemma LoadInv(s: State, depth: nat)
    requires Inv(s, depth) && s.recv.Load?
    ensures Inv(RecvStep(s, depth), depth)
  {
    hide Slots, Owners, SeenOk, LogOk, FilledSet, WorkerOk;
  }

  lemma PutInv(s: State, depth: nat)
    requires Inv(s, depth) && s.recv.Put?
    ensures Inv(RecvStep(s, depth), depth)
  {
    hide Slots, Owners, SeenOk, LogOk, FilledSet, WorkerOk;
    HeadIs(s);
    PutQueue(s.queue, s.head, s.tail, s.log, s.popped, HeadJob(s));
    hide QueueOk;
  }

  /** Writing the cell behind the last job leaves the jobs. */
  lemma PutQueue(queue: seq<Job>, head: nat, tail: nat, log: seq<Job>, popped: nat, j: Job)
    requires QueueOk(queue, head, tail, log, popped)
    ensures QueueOk(queue[tail := j], head, tail, log, popped)
  {
    forall k | popped <= k < |log| ensures queue[tail := j][(head + (k - popped)) % QUEUE] == log[k] {
      assert queue[(head + (k - popped)) % QUEUE] == log[k];
    }
  }

  /** What emptying the head slot and moving on does to the ring, the old owner `own` having taken the slab. */
  lemma FinishSlots(s: State, depth: nat, busy: bool, own: Owner)
    requires Inv(s, depth) && InDispatch(s.recv)
    requires !own.Filled? && !own.Dispatching? && (busy <==> !own.Free?)
    ensures var i := Head(s);
            var ring := s.ring[i := s.ring[i].(filled := false, len := 0, busy := busy)];
            && Slots(ring, s.owner[i := own], s.slab, s.stored, s.nextU + 1, depth)
            && s.pending > 0 && s.pending - 1 == |FilledSet(ring)|
  {
    hide Owners, QueueOk, SeenOk, LogOk, WorkerOk, PutOk;
    HeadSlot(s, depth);
    var i := Head(s);
    var slot := s.ring[i].(filled := false, len := 0, busy := busy);
    OneSlot(s.ring, s.owner, s.slab, s.stored, s.nextU, depth, i, slot, own);
    EmptyOne(s.ring, i, slot);
    BumpSlots(s.ring[i := slot], s.owner[i := own], s.slab, s.stored, s.nextU, depth);
  }

  lemma PublishLog(s: State, depth: nat)
    requires Inv(s, depth) && s.recv.Publish?
    ensures var j := HeadJob(s);
            LogOk(s.log + [j], s.stored, s.nextU + 1)
  {
    hide Slots, Owners, QueueOk, SeenOk, FilledSet, WorkerOk, PutOk;
    HeadSlot(s, depth);
    LogGrowsNext(s.log, s.stored, s.nextU);
  }

  lemma PublishOwners(s: State, depth: nat)
    requires Inv(s, depth) && s.recv.Publish?
    ensures Owners(s.owner[Head(s) := Queued(|s.log|)], s.slab, s.log + [HeadJob(s)], s.popped, s.stored)
  {
    hide Slots, QueueOk, SeenOk, LogOk, FilledSet, WorkerOk, PutOk;
    HeadSlot(s, depth);
    var i, j := Head(s), HeadJob(s);
    var owner, log := s.owner[i := Queued(|s.log|)], s.log + [j];
    assert j.slab == i && s.stored[j.u].bytes == s.slab[i];
    forall m | 0 <= m < RING ensures OwnerOk(m, owner[m], s.slab[m], log, s.popped, s.stored) {
      assert OwnerOk(m, s.owner[m], s.slab[m], s.log, s.popped, s.stored);
    }
    forall k | s.popped <= k < |log| ensures log[k].slab < RING && owner[log[k].slab] == Queued(k) {
      if k < |s.log| { assert s.owner[s.log[k].slab] == Queued(k); }
    }
  }

  lemma PublishQueue(s: State, depth: nat)
    requires Inv(s, depth) && s.recv.Publish?
    ensures QueueOk(s.queue, s.head, (s.tail + 1) % QUEUE, s.log + [HeadJob(s)], s.popped)
  {
    hide Slots, Owners, SeenOk, LogOk, FilledSet, WorkerOk;
    HeadIs(s);
    var log := s.log + [HeadJob(s)];
    forall k | s.popped <= k < |log| ensures s.queue[(s.head + (k - s.popped)) % QUEUE] == log[k] {
      if k < |s.log| { assert s.queue[(s.head + (k - s.popped)) % QUEUE] == s.log[k]; }
    }
  }

  /** Where the receive thread stands after a dispatch. */
  lemma FinishRecv(s: State, depth: nat, ring: seq<Slot>, own: Owner, queue: seq<Job>, tail: nat, queued: int)
    requires Inv(s, depth) && InDispatch(s.recv) && !own.Dispatching?
    ensures var r := match s.recv.back case ToAdvance(d, u) => Advance(d, u) case ToRelease => Release;
            && RecvOk(r, s.started, ring, s.nextU + 1, depth)
            && Dispatches(r, s.owner[Head(s) := own], s.nextU + 1)
            && PutOk(r, queue, tail, ring, s.nextU + 1, queued)
  {
    hide Slots, Owners, QueueOk, LogOk, FilledSet, SeenOk, WorkerOk;
    HeadIs(s);
  }

  /** A slab being handed over is not the one the worker is at. */
  lemma WorkerKeeps(s: State, i: nat, own: Owner, log: seq<Job>)
    requires WorkerOk(s.worker, s.owner, s.log, s.popped) && s.log <= log && |s.owner| == RING
    requires i < RING && s.owner[i].Dispatching? && !own.Running?
    ensures WorkerOk(s.worker, s.owner[i := own], log, s.popped)
  {}

  lemma SeenKeeps(s: State, j: Job)
    requires SeenOk(s.seen, s.log, s.stored, s.popped - ToNat(s.worker.Process?))
    ensures SeenOk(s.seen, s.log + [j], s.stored, s.popped - ToNat(s.worker.Process?))
  {}

  /** The hand-over as a whole. */
  lemma PublishStep(s: State, depth: nat)
    requires Shape(s) && s.recv.Publish? && s.pending > 0 && s.ring[Head(s)].busy
    ensures var i := Head(s);
            RecvStep(s, depth)
              == s.(ring := s.ring[i := s.ring[i].(filled := false, len := 0, busy := true)],
                    owner := s.owner[i := Queued(|s.log|)], log := s.log + [HeadJob(s)],
                    tail := (s.tail + 1) % QUEUE, pending := s.pending - 1,
                    nextSeq := (s.nextSeq + 1) % SEQ, nextU := s.nextU + 1,
                    recv := match s.recv.back case ToAdvance(d, u) => Advance(d, u) case ToRelease => Release)
  {}

  lemma PublishWorker(s: State, depth: nat)
    requires Inv(s, depth) && s.recv.Publish?
    ensures WorkerOk(s.worker, s.owner[Head(s) := Queued(|s.log|)], s.log + [HeadJob(s)], s.popped)
    ensures s.ring[Head(s)].busy
  {
    hide DgramOk, Owners, QueueOk, LogOk, FilledSet, SeenOk, PutOk;
    HeadSlot(s, depth);
    WorkerKeeps(s, Head(s), Queued(|s.log|), s.log + [HeadJob(s)]);
  }

  lemma PublishInv(s: State, depth: nat)
    requires Inv(s, depth) && s.recv.Publish?
    ensures Inv(RecvStep(s, depth), depth)
  {
    PublishWorker(s, depth);
    hide DgramOk, Slots, Owners, QueueOk, LogOk, FilledSet, RecvOk, Dispatches, PutOk, Head, SeenOk, WorkerOk, RecvStep,
         HeadJob;
    var i := Head(s);
    SeenKeeps(s, HeadJob(s));
    FinishSlots(s, depth, true, Queued(|s.log|));
    PublishStep(s, depth);
    PublishLog(s, depth);
    PublishOwners(s, depth);
    PublishQueue(s, depth);
    BumpSeq(s.nextU);
    FinishRecv(s, depth, s.ring[i := s.ring[i].(filled := false, len := 0, busy := true)], Queued(|s.log|), s.queue,
               (s.tail + 1) % QUEUE, |s.log| + 1 - s.popped);
  }

  /** The drop as a whole. */
  lemma DropStep(s: State, depth: nat)
    requires Shape(s) && s.recv.Drop? && s.pending > 0
    ensures var i := Head(s);
            RecvStep(s, depth)
              == s.(ring := s.ring[i := s.ring[i].(filled := false, len := 0, busy := false)],
                    owner := s.owner[i := Free], fullDrops := s.fullDrops + 1, pending := s.pending - 1,
                    nextSeq := (s.nextSeq + 1) % SEQ, nextU := s.nextU + 1,
                    recv := match s.recv.back case ToAdvance(d, u) => Advance(d, u) case ToRelease => Release)
  {
    var i := Head(s);
    assert s.ring[i := s.ring[i].(busy := false)][i := s.ring[i].(filled := false, len := 0, busy := false)]
        == s.ring[i := s.ring[i].(filled := false, len := 0, busy := false)];
  }

  lemma DropInv(s: State, depth: nat)
    requires Inv(s, depth) && s.recv.Drop?
    ensures Inv(RecvStep(s, depth), depth)
  {
    DropWorker(s, depth);
    hide DgramOk, Slots, Owners, QueueOk, LogOk, FilledSet, SeenOk, RecvOk, Dispatches, PutOk, Head, WorkerOk, RecvStep;
    var i := Head(s);
    FinishSlots(s, depth, false, Free);
    DropStep(s, depth);
    LogGrowsNext(s.log, s.stored, s.nextU);
    OneOwner(s.owner, s.slab, s.log, s.popped, s.stored, i, Free);
    BumpSeq(s.nextU);
    FinishRecv(s, depth, s.ring[i := s.ring[i].(filled := false, len := 0, busy := false)], Free, s.queue, s.tail,
               |s.log| - s.popped);
  }

  lemma DropWorker(s: State, depth: nat)
    requires Inv(s, depth) && s.recv.Drop?
    ensures WorkerOk(s.worker, s.owner[Head(s) := Free], s.log, s.popped)
  {
    hide DgramOk, Slots, Owners, QueueOk, LogOk, FilledSet, SeenOk, PutOk;
    HeadIs(s);
    WorkerKeeps(s, Head(s), Free, s.log);
  }

  // ----------------------------------------------------------------- worker steps

  lemma WaitInv(s: State, depth: nat)
    requires Inv(s, depth) && (s.worker.Wait? || s.worker.Take?)
    ensures Inv(WorkerStep(s), depth)
  {
    hide Slots, Owners, SeenOk, LogOk, FilledSet, RecvOk, Dispatches, PutOk;
    if s.worker.Take? { assert s.queue[(s.head + 0) % QUEUE] == s.log[s.popped]; }
  }

  lemma PopQueue(queue: seq<Job>, head: nat, tail: nat, log: seq<Job>, popped: nat)
    requires QueueOk(queue, head, tail, log, popped) && popped < |log|
    ensures QueueOk(queue, (head + 1) % QUEUE, tail, log, popped + 1)
  {
    forall k | popped + 1 <= k < |log| ensures queue[((head + 1) % QUEUE + (k - (popped + 1))) % QUEUE] == log[k] {
      assert queue[(head + (k - popped)) % QUEUE] == log[k];
    }
  }

  lemma PopOwners(owner: seq<Owner>, slab: seq<seq<byte>>, log: seq<Job>, popped: nat, stored: map<nat, Dgram>)
    requires Owners(owner, slab, log, popped, stored) && popped < |log|
    requires forall i :: 0 <= i < RING ==> !owner[i].Running?
    ensures Owners(owner[log[popped].slab := Running(popped)], slab, log, popped + 1, stored)
  {
    var i := log[popped].slab;
    assert owner[i] == Queued(popped);
    var owner' := owner[i := Running(popped)];
    forall m | 0 <= m < RING ensures OwnerOk(m, owner'[m], slab[m], log, popped + 1, stored) {
      assert OwnerOk(m, owner[m], slab[m], log, popped, stored);
    }
    forall k | popped + 1 <= k < |log| ensures log[k].slab < RING && owner'[log[k].slab] == Queued(k) {
      assert owner[log[k].slab] == Queued(k);
    }
  }

  /** An owner change among those with the busy flag up. */
  lemma BusyOwner(ring: seq<Slot>, owner: seq<Owner>, slab: seq<seq<byte>>, stored: map<nat, Dgram>, nextU: nat,
                  depth: nat, i: nat, own: Owner)
    requires Slots(ring, owner, slab, stored, nextU, depth) && i < RING
    requires !owner[i].Free? && !owner[i].Filled? && !owner[i].Dispatching? && !own.Free? && !own.Filled?
             && !own.Dispatching?
    ensures Slots(ring, owner[i := own], slab, stored, nextU, depth)
  {
    OneSlot(ring, owner, slab, stored, nextU, depth, i, ring[i], own);
    assert ring[i := ring[i]] == ring;
  }

  lemma PopInv(s: State, depth: nat)
    requires Inv(s, depth) && s.worker.Pop?
    ensures Inv(WorkerStep(s), depth)
  {
    hide Slots, QueueOk, SeenOk, LogOk, FilledSet, RecvOk;
    PopQueue(s.queue, s.head, s.tail, s.log, s.popped);
    PopOwners(s.owner, s.slab, s.log, s.popped, s.stored);
    BusyOwner(s.ring, s.owner, s.slab, s.stored, s.nextU, depth, s.worker.job.slab, Running(s.popped));
  }

  lemma ProcessInv(s: State, depth: nat)
    requires Inv(s, depth) && s.worker.Process?
    ensures Inv(WorkerStep(s), depth)
  {
    hide Slots, QueueOk, FilledSet, RecvOk;
    var j, k := s.worker.job, s.popped - 1;
    assert JobOk(s.log[k], s.stored, s.nextU);
    assert OwnerOk(j.slab, s.owner[j.slab], s.slab[j.slab], s.log, s.popped, s.stored);
    BusyOwner(s.ring, s.owner, s.slab, s.stored, s.nextU, depth, j.slab, Held(k));
    OneOwner(s.owner, s.slab, s.log, s.popped, s.stored, j.slab, Held(k));
  }

  lemma ReleaseSlabInv(s: State, depth: nat, i: nat)
    requires Inv(s, depth) && i < RING && s.owner[i].Held?
    ensures Inv(ReleaseSlab(s, i), depth)
  {
    hide Slots, Owners, QueueOk, SeenOk, LogOk, FilledSet;
    FilledAndHeldDiffer(s, depth, i);
    var slot := s.ring[i].(busy := false);
    OneSlot(s.ring, s.owner, s.slab, s.stored, s.nextU, depth, i, slot, Free);
    SameFilled(s.ring, i, slot);
    OneOwner(s.owner, s.slab, s.log, s.popped, s.stored, i, Free);
  }

  lemma FilledAndHeldDiffer(s: State, depth: nat, i: nat)
    requires Inv(s, depth) && i < RING && s.owner[i].Held?
    ensures SlotOk(i, s.ring[i].(busy := false), Free, s.slab[i], s.stored, s.nextU, depth) && !s.ring[i].filled
  {
    assert SlotOk(i, s.ring[i], s.owner[i], s.slab[i], s.stored, s.nextU, depth);
  }

  // ------------------------------------------------------------------- all runs

  lemma {:induction false} StepInv(s: State, depth: nat, l: Label)
    requires Inv(s, depth)
    ensures Inv(Step(s, depth, l), depth)
  {
    hide Inv, RecvStep, WorkerStep;
    InvShape(s, depth);
    match l
    case LArrive(d) => if s.recv.Idle? && DgramOk(d) { ArriveInv(s, depth, d); }
    case LRelease(i) => if i < RING && s.owner[i].Held? { ReleaseSlabInv(s, depth, i); }
    case LWork =>
      match s.worker {
        case Wait => WaitInv(s, depth);
        case Take => WaitInv(s, depth);
        case Pop(_) => PopInv(s, depth);
        case Process(_) => ProcessInv(s, depth);
      }
    case LRecv => RecvStepInv(s, depth);
  }

  lemma InvShape(s: State, depth: nat)
    requires Inv(s, depth)
    ensures Shape(s)
  {}

  lemma RecvStepInv(s: State, depth: nat)
    requires Inv(s, depth)
    ensures Inv(RecvStep(s, depth), depth)
  {
    match s.recv
    case Idle =>
    case Advance(_, _) => AdvanceInv(s, depth);
    case Store(_, _) => StoreInv(s, depth);
    case Write(_, _) => WriteInv(s, depth);
    case Release => ReleaseInv(s, depth);
    case Own(_) => OwnInv(s, depth);
    case Load(_) => LoadInv(s, depth);
    case Put(_) => PutInv(s, depth);
    case Publish(_) => PublishInv(s, depth);
    case Drop(_) => DropInv(s, depth);
  }

  lemma {:induction false} RunInv(depth: nat, ls: seq<Label>)
    requires 1 <= depth <= RING
    ensures Inv(Run(depth, ls), depth)
  {
    hide Inv, Init, Step;
    if ls == [] {
      InitInv(depth);
    } else {
      RunInv(depth, ls[..|ls| - 1]);
      StepInv(Run(depth, ls[..|ls| - 1]), depth, ls[|ls| - 1]);
    }
  }

  /**
   In every run the hook is shown the enqueued jobs in order, each exactly once, with
   exactly the bytes of the datagram that arrived under its sequence number; jobs are
   enqueued in strictly increasing order across sixteen-bit wraps.
   */
  lemma {:induction false} DeliveredInOrder(depth: nat, ls: seq<Label>)
    requires 1 <= depth <= RING
    ensures var s := Run(depth, ls);
            && (forall k, m :: 0 <= k < m < |s.log| ==> s.log[k].u < s.log[m].u)
            && |s.seen| <= |s.log|
            && (forall k :: 0 <= k < |s.seen| ==>
                  && s.seen[k].0 == s.log[k] && s.log[k].u in s.stored
                  && s.seen[k].1 == s.stored[s.log[k].u].bytes
                  && s.log[k].seqno == s.stored[s.log[k].u].seqno == s.log[k].u % SEQ)
  {
    RunInv(depth, ls);
    var s := Run(depth, ls);
    forall k | 0 <= k < |s.seen| ensures s.log[k].seqno == s.stored[s.log[k].u].seqno == s.log[k].u % SEQ {
      assert JobOk(s.log[k], s.stored, s.nextU);
    }
  }

  /**
   Slab integrity in every run: while a slab is queued, being processed or held, the
   receive thread is not about to write it, and its bytes are still those of the
   datagram of its job.
   */
  lemma {:induction false} SlabsIntact(depth: nat, ls: seq<Label>, i: nat)
    requires 1 <= depth <= RING && i < RING
    ensures var s := Run(depth, ls);
            var own := s.owner[i];
            (own.Queued? || own.Running? || own.Held?) ==>
              && own.k < |s.log| && s.log[own.k].slab == i && s.log[own.k].u in s.stored
              && s.slab[i] == s.stored[s.log[own.k].u].bytes
              && s.ring[i].busy
              && (s.recv.Write? ==> s.recv.d.seqno % RING != i)
  {
    RunInv(depth, ls);
    var s := Run(depth, ls);
    assert OwnerOk(i, s.owner[i], s.slab[i], s.log, s.popped, s.stored);
    assert SlotOk(i, s.ring[i], s.owner[i], s.slab[i], s.stored, s.nextU, depth);
    if s.recv.Write? { SlotOfSeq(s.recv.u); }
  }

  /**
   The ring in every run: filled slots lie in the window at their own index, `pending`
   counts them, and every number the head has passed is accounted for: enqueued,
   dropped on a full queue, or lost.
   */
  lemma {:induction false} WindowAndAccounts(depth: nat, ls: seq<Label>)
    requires 1 <= depth <= RING
    ensures var s := Run(depth, ls);
            && s.pending == |FilledSet(s.ring)|
            && s.nextU - s.startU == |s.log| + s.fullDrops + s.lost
            && s.nextSeq == s.nextU % SEQ
            && (forall i :: 0 <= i < RING && s.ring[i].filled ==>
                  && s.nextU <= s.ring[i].u < s.nextU + depth && s.ring[i].u % RING == i
                  && s.ring[i].seqno == s.ring[i].u % SEQ)
            && (s.recv.Store? && s.ring[s.recv.d.seqno % RING].filled ==>
                  s.ring[s.recv.d.seqno % RING].seqno == s.recv.d.seqno)
  {
    RunInv(depth, ls);
    var s := Run(depth, ls);
    if s.recv.Store? { AliasUnreachable(s, depth); }
    forall i | 0 <= i < RING && s.ring[i].filled
      ensures s.nextU <= s.ring[i].u < s.nextU + depth && s.ring[i].u % RING == i
              && s.ring[i].seqno == s.ring[i].u % SEQ
    {
      assert SlotOk(i, s.ring[i], s.owner[i], s.slab[i], s.stored, s.nextU, depth);
    }
  }

  // ------------------------------------------------------------- a full queue

  /** Slabs of the first `n` queued jobs. */
  function QueuedSlabs(log: seq<Job>, from: nat, n: nat): set<nat>
    requires from + n <= |log|
  {
    if n == 0 then {} else QueuedSlabs(log, from, n - 1) + {log[from + n - 1].slab}
  }

  lemma {:induction false} QueuedDistinct(owner: seq<Owner>, slab: seq<seq<byte>>, log: seq<Job>, popped: nat,
                                          stored: map<nat, Dgram>, n: nat)
    requires Owners(owner, slab, log, popped, stored) && popped + n <= |log|
    ensures |QueuedSlabs(log, popped, n)| == n
    ensures forall i :: i in QueuedSlabs(log, popped, n) ==> i < RING && owner[i].Queued? && owner[i].k < popped + n
  {
    hide Owners;
    if n > 0 {
      QueuedDistinct(owner, slab, log, popped, stored, n - 1);
      QueuedOwner(owner, slab, log, popped, stored, popped + n - 1);
    }
  }

  lemma QueuedOwner(owner: seq<Owner>, slab: seq<seq<byte>>, log: seq<Job>, popped: nat, stored: map<nat, Dgram>,
                    k: nat)
    requires Owners(owner, slab, log, popped, stored) && popped <= k < |log|
    ensures log[k].slab < RING == |owner| && owner[log[k].slab] == Queued(k)
  {
    hide OwnerOk;
  }

  function UpToN(n: nat): (r: set<nat>)
    ensures |r| == n && forall i: nat :: i in r <==> i < n
  {
    if n == 0 then {} else UpToN(n - 1) + {n - 1}
  }

  lemma SubsetOfSize(a: set<nat>, b: set<nat>)
    requires a <= b && |a| == |b|
    ensures a == b
  {
    if a != b {
      var x :| x in b && x !in a;
      assert a <= b - {x};
      SubsetCard(a, b - {x});
    }
  }

  lemma {:induction false} SubsetCard(a: set<nat>, b: set<nat>)
    requires a <= b
    ensures |a| <= |b|
  {
    if a != {} {
      var x :| x in a;
      SubsetCard(a - {x}, b - {x});
    }
  }

  /**
   Queue full by pigeonhole: when the dispatcher finds no room, every other slab is in
   the queue; so it always finds room while the hook holds, or the worker runs, any slab.
   */
  lemma {:induction false} FullMeansAllQueued(depth: nat, ls: seq<Label>, i: nat)
    requires 1 <= depth <= RING && i < RING
    ensures var s := Run(depth, ls);
            s.recv.Load? && (s.tail + 1) % QUEUE == s.head && i != Head(s) ==> s.owner[i].Queued?
  {
    hide Inv, Run;
    RunInv(depth, ls);
    var s := Run(depth, ls);
    InvShape(s, depth);
    if s.recv.Load? && (s.tail + 1) % QUEUE == s.head {
      FullQueue(s, depth);
    }
  }

  lemma FullQueue(s: State, depth: nat)
    requires Inv(s, depth) && s.recv.Load? && (s.tail + 1) % QUEUE == s.head
    ensures forall i :: 0 <= i < RING && i != Head(s) ==> s.owner[i].Queued?
  {
    hide Slots, LogOk, SeenOk, FilledSet, PutOk, WorkerOk, UpToN;
    HeadIs(s);
    var n := |s.log| - s.popped;
    assert n == QUEUE - 1;
    QueuedDistinct(s.owner, s.slab, s.log, s.popped, s.stored, n);
    var q, others := QueuedSlabs(s.log, s.popped, n), UpToN(RING) - {Head(s)};
    assert Head(s) in UpToN(RING);
    assert q <= others;
    SubsetOfSize(q, others);
  }
}
