/** The receive thread gets every datagram done, and leaves nothing behind that it could deliver. */
module ReceiverProgress {
  import opened Bytes
  import opened JitterRing
  import opened JitterRuns

  // ------------------------------------------------------ handling a datagram ends

  /** Steps the receive thread may still need for the datagram in hand. */
  function Left(s: State): nat {
    match s.recv
    case Idle => 0
    case Release => 6 * s.pending + 5
    case Write(_, _) => 6 * (s.pending + 1) + 6
    case Store(_, _) => 6 * (s.pending + 1) + 7
    case Advance(_, u) => Ahead(s, u) + 13
    case Own(b) => if b.ToAdvance? then Ahead(s, b.u) + 12 else 6 * s.pending + 4
    case Load(b) => if b.ToAdvance? then Ahead(s, b.u) + 11 else 6 * s.pending + 3
    case Put(b) => if b.ToAdvance? then Ahead(s, b.u) + 10 else 6 * s.pending + 2
    case Drop(b) => if b.ToAdvance? then Ahead(s, b.u) + 10 else 6 * s.pending + 2
    case Publish(b) => if b.ToAdvance? then Ahead(s, b.u) + 9 else 6 * s.pending + 1
  }

  function Ahead(s: State, u: nat): nat {
    6 * ((if u > s.nextU then u - s.nextU else 0) + s.pending + 1)
  }

  /** Every step of the receive thread brings it closer to idle. */
  lemma {:induction false} RecvProgress(s: State, depth: nat)
    requires Inv(s, depth) && !s.recv.Idle?
    ensures Left(RecvStep(s, depth)) < Left(s)
  {
    hide Slots, Owners, QueueOk, SeenOk, LogOk, WorkerOk, FilledSet, Accounts, Dispatches;
    if InDispatch(s.recv) { FinishSlots(s, depth, true, Queued(0)); }
    if s.recv.Advance? { DiffLeft(s, depth); }
  }

  lemma DiffLeft(s: State, depth: nat)
    requires Inv(s, depth) && s.recv.Advance?
    ensures Diff16(s.recv.d.seqno, s.nextSeq) == s.recv.u - s.nextU
  {
    DiffIs(s.recv.u, s.nextU);
  }

  /** The other parties do not hold the receive thread up. */
  lemma WorkerDoesNotDelay(s: State)
    requires Shape(s)
    ensures Left(WorkerStep(s)) == Left(s)
  {
    hide Ahead;
    var t := WorkerStep(s);
    assert t.recv == s.recv && t.nextU == s.nextU && t.pending == s.pending;
    SameLeft(s, t);
  }

  lemma HookDoesNotDelay(s: State, i: nat)
    requires Shape(s) && i < RING
    ensures Left(ReleaseSlab(s, i)) == Left(s)
  {
    SameLeft(s, ReleaseSlab(s, i));
  }

  lemma SameLeft(s: State, t: State)
    requires t.recv == s.recv && t.nextU == s.nextU && t.pending == s.pending
    ensures Left(t) == Left(s)
  {}

  function CountRecv(ls: seq<Label>): nat {
    if ls == [] then 0 else CountRecv(ls[1..]) + ToNat(ls[0].LRecv?)
  }

  function RunFrom(s: State, depth: nat, ls: seq<Label>): (r: State)
    requires Shape(s)
    ensures Shape(r)
    decreases |ls|
  {
    if ls == [] then s else RunFrom(Step(s, depth, ls[0]), depth, ls[1..])
  }

  /**
   Wait-freedom: however worker and hook interleave, the receive thread is idle again
   once it has taken the steps `Left` counts; no datagram is handled forever.
   */
  lemma {:induction false} HandlingEnds(s: State, depth: nat, ls: seq<Label>)
    requires Inv(s, depth) && forall k :: 0 <= k < |ls| ==> !ls[k].LArrive?
    ensures CountRecv(ls) >= Left(s) ==> RunFrom(s, depth, ls).recv.Idle?
    decreases |ls|
  {
    hide Inv, RecvStep, WorkerStep, Left;
    InvShape(s, depth);
    LeftIdle(s);
    if ls != [] {
      var t := Step(s, depth, ls[0]);
      StepInv(s, depth, ls[0]);
      match ls[0] {
        case LRecv => if !s.recv.Idle? { RecvProgress(s, depth); } else { IdleStays(s, depth); }
        case LWork => WorkerDoesNotDelay(s);
        case LRelease(i) => if i < RING { HookDoesNotDelay(s, i); }
        case LArrive(_) => assert false;
      }
      HandlingEnds(t, depth, ls[1..]);
    }
  }

  lemma IdleStays(s: State, depth: nat)
    requires Shape(s) && s.recv.Idle?
    ensures RecvStep(s, depth) == s
  {}

  lemma LeftIdle(s: State)
    ensures Left(s) == 0 <==> s.recv.Idle?
  {}

  // --------------------------------------------------- nothing deliverable waits

  /** The head datagram is in the ring, ready to be dispatched. */
  predicate Waiting(s: State)
    requires Shape(s)
  {
    HeadReady(s)
  }

  predicate InRing(ring: seq<Slot>, u: nat) {
    |ring| == RING && ring[u % RING].filled && ring[u % RING].u == u
  }

  /** Idle with nothing waiting; or handling a datagram that is not yet in the ring if anything waits. */
  predicate Tidy(s: State)
    requires Shape(s)
  {
    match s.recv
    case Idle => !Waiting(s)
    case Advance(_, u) => Waiting(s) ==> !InRing(s.ring, u)
    case Store(_, u) => Waiting(s) ==> !InRing(s.ring, u)
    case Own(ToAdvance(_, u)) => !InRing(s.ring, u)
    case Load(ToAdvance(_, u)) => !InRing(s.ring, u)
    case Put(ToAdvance(_, u)) => !InRing(s.ring, u)
    case Publish(ToAdvance(_, u)) => !InRing(s.ring, u)
    case Drop(ToAdvance(_, u)) => !InRing(s.ring, u)
    case _ => true
  }

  /** The drop that returns early although the head was forced up to a stored datagram. */
  predicate DropsBusyOverWaiting(s: State)
    requires Shape(s)
  {
    s.recv.Store? && !s.ring[s.recv.d.seqno % RING].filled && s.ring[s.recv.d.seqno % RING].busy && Waiting(s)
  }

  /** Beyond the window nothing is stored yet. */
  lemma OutsideWindow(s: State, depth: nat, u: nat)
    requires Inv(s, depth) && u >= s.nextU + depth
    ensures !InRing(s.ring, u)
  {
    hide Owners, QueueOk, SeenOk, LogOk, WorkerOk, FilledSet, Accounts, Dispatches, PutOk;
    assert SlotOk(u % RING, s.ring[u % RING], s.owner[u % RING], s.slab[u % RING], s.stored, s.nextU, depth);
  }

  lemma TidyStore(s: State, depth: nat)
    requires Inv(s, depth) && s.recv.Store? && Tidy(s)
    ensures Tidy(RecvStep(s, depth)) <==> !DropsBusyOverWaiting(s)
  {
    AliasUnreachable(s, depth);
    hide Owners, QueueOk, SeenOk, LogOk, WorkerOk, FilledSet, Accounts, Dispatches, PutOk;
    var i := s.recv.d.seqno % RING;
    SlotOfSeq(s.recv.u);
    assert SlotOk(i, s.ring[i], s.owner[i], s.slab[i], s.stored, s.nextU, depth);
    if s.ring[i].filled { SameSlotSameNumber(s.ring[i].u, s.recv.u, s.nextU); }
  }

  lemma TidyAdvance(s: State, depth: nat)
    requires Inv(s, depth) && s.recv.Advance? && Tidy(s)
    ensures Tidy(RecvStep(s, depth))
  {
    DiffLeft(s, depth);
    if Diff16(s.recv.d.seqno, s.nextSeq) >= depth { OutsideWindow(s, depth, s.recv.u); }
    hide Slots, Owners, QueueOk, SeenOk, LogOk, WorkerOk, FilledSet, Accounts, Dispatches, PutOk, Diff16;
  }

  lemma TidyRest(s: State, depth: nat)
    requires Inv(s, depth) && Tidy(s) && !s.recv.Store? && !s.recv.Advance?
    ensures Tidy(RecvStep(s, depth))
  {
    if s.recv.Release? && HeadReady(s) { FilledPending(s, depth); }
    hide DgramOk, Slots, Owners, QueueOk, SeenOk, LogOk, WorkerOk, FilledSet, Accounts, Dispatches, PutOk;
  }

  lemma FilledPending(s: State, depth: nat)
    requires Inv(s, depth) && HeadReady(s)
    ensures s.pending > 0
  {
    hide Slots, Owners, QueueOk, SeenOk, LogOk, WorkerOk, Accounts, Dispatches, PutOk, RecvOk;
    assert Head(s) in FilledSet(s.ring);
  }

  lemma TidyArrive(s: State, depth: nat, d: Dgram)
    requires Inv(s, depth) && s.recv.Idle? && DgramOk(d) && Tidy(s)
    ensures Tidy(Arrive(s, d))
  {
    hide Owners, QueueOk, SeenOk, LogOk, WorkerOk, FilledSet, Dispatches, PutOk, RecvOk;
    var t := Arrive(s, d);
    if !s.started {
      var i := Head(t);
      assert SlotOk(i, s.ring[i], s.owner[i], s.slab[i], s.stored, s.nextU, depth);
      assert !Waiting(t);
    }
  }

  /** Only what a slot holds matters to whether it is waiting. */
  predicate SameContents(a: seq<Slot>, b: seq<Slot>) {
    && |a| == |b| == RING
    && forall i :: 0 <= i < RING ==> a[i].filled == b[i].filled && a[i].seqno == b[i].seqno && a[i].u == b[i].u
  }

  lemma TidyOther(s: State, t: State)
    requires Shape(s) && Shape(t) && Tidy(s)
    requires SameContents(s.ring, t.ring) && t.recv == s.recv && t.nextSeq == s.nextSeq
    ensures Tidy(t)
  {}

  lemma TidyRecv(s: State, depth: nat)
    requires Inv(s, depth) && Tidy(s)
    ensures Tidy(RecvStep(s, depth)) <==> !DropsBusyOverWaiting(s)
  {
    hide Inv, RecvStep;
    InvShape(s, depth);
    if s.recv.Store? { TidyStore(s, depth); }
    else if s.recv.Advance? { TidyAdvance(s, depth); }
    else { TidyRest(s, depth); }
  }

  lemma {:induction false} TidyStep(s: State, depth: nat, l: Label)
    requires Inv(s, depth) && Tidy(s)
    ensures Tidy(Step(s, depth, l)) <==> !(l.LRecv? && DropsBusyOverWaiting(s))
  {
    hide Inv, RecvStep, Tidy;
    InvShape(s, depth);
    match l
    case LArrive(d) => if s.recv.Idle? && DgramOk(d) { TidyArrive(s, depth, d); }
    case LRecv => TidyRecv(s, depth);
    case LWork => TidyOther(s, WorkerStep(s));
    case LRelease(i) => if i < RING { TidyOther(s, ReleaseSlab(s, i)); }
  }

  lemma BusyDropsGrow(s: State, depth: nat, l: Label)
    requires Shape(s)
    ensures Step(s, depth, l).busyDrops >= s.busyDrops
    ensures l.LRecv? && DropsBusyOverWaiting(s) ==> Step(s, depth, l).busyDrops > s.busyDrops
  {}

  /**
   In a run that dropped no datagram on a busy slab, a datagram whose turn it is
   never stays behind: whenever the receive thread is idle the head is not ready.
   */
  lemma {:induction false} NothingWaits(depth: nat, ls: seq<Label>)
    requires 1 <= depth <= RING
    ensures var s := Run(depth, ls);
            s.busyDrops == 0 ==> Tidy(s) && (s.recv.Idle? ==> !HeadReady(s))
  {
    hide Inv, Init, Step;
    if ls == [] {
      InitTidy();
    } else {
      var before := ls[..|ls| - 1];
      var l := ls[|ls| - 1];
      NothingWaits(depth, before);
      RunInv(depth, before);
      var s := Run(depth, before);
      BusyDropsGrow(s, depth, l);
      if s.busyDrops == 0 { TidyStep(s, depth, l); }
    }
  }

  lemma InitTidy()
    ensures Tidy(Init())
  {
    hide Blank;
  }
}
