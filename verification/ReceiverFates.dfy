/**
 What becomes of each datagram, in every run: when it is kept, when it is handed on and when
 dropped, what the counters count, and that what was handed on reaches the hook.
 */
module ReceiverFates {
  import opened Bytes
  import opened JitterRing
  import opened JitterRuns
  import opened ReceiverProgress

  // ------------------------------------------------------------- room in the queue

  /** Every slab but the head's is in the queue. */
  predicate OthersQueued(s: State)
    requires Shape(s)
  {
    forall i :: 0 <= i < RING && i != Head(s) ==> s.owner[i].Queued?
  }

  lemma {:induction false} QueuedIn(log: seq<Job>, popped: nat, n: nat, k: nat)
    requires popped + n <= |log| && popped <= k < popped + n
    ensures log[k].slab in QueuedSlabs(log, popped, n)
  {
    if k < popped + n - 1 { QueuedIn(log, popped, n - 1, k); }
  }

  /** All other slabs in the queue leave it no cell. */
  lemma OthersFill(s: State, depth: nat)
    requires Inv(s, depth) && OthersQueued(s)
    ensures |s.log| - s.popped == QUEUE - 1
  {
    hide Slots, LogOk, SeenOk, FilledSet, PutOk, WorkerOk, UpToN, QueueOk;
    var n := |s.log| - s.popped;
    QueuedDistinct(s.owner, s.slab, s.log, s.popped, s.stored, n);
    var q, others := QueuedSlabs(s.log, s.popped, n), UpToN(RING) - {Head(s)};
    forall i | i in others ensures i in q {
      assert OwnerOk(i, s.owner[i], s.slab[i], s.log, s.popped, s.stored);
      QueuedIn(s.log, s.popped, n, s.owner[i].k);
    }
    assert Head(s) in UpToN(RING) && |others| == RING - 1;
    SubsetCard(others, q);
    AtMostRoom(s, depth);
  }

  lemma AtMostRoom(s: State, depth: nat)
    requires Inv(s, depth)
    ensures |s.log| - s.popped <= QUEUE - 1
  {}

  lemma FullIffCount(s: State, depth: nat)
    requires Inv(s, depth)
    ensures (s.tail + 1) % QUEUE == s.head <==> |s.log| - s.popped == QUEUE - 1
  {
    hide Slots, LogOk, SeenOk, FilledSet, PutOk, WorkerOk, Owners;
  }

  /** At its look for room the receive thread goes on to drop exactly when every other slab is in the queue. */
  lemma LooksIff(s: State, depth: nat)
    requires Inv(s, depth) && s.recv.Load?
    ensures Shape(s)
    ensures RecvStep(s, depth) == s.(recv := if OthersQueued(s) then Drop(s.recv.back) else Put(s.recv.back))
  {
    hide Slots, LogOk, SeenOk, FilledSet, PutOk, WorkerOk, Owners, QueueOk, RecvOk, Dispatches, Accounts;
    FullIffCount(s, depth);
    if |s.log| - s.popped == QUEUE - 1 { FullQueue(s, depth); }
    if OthersQueued(s) { OthersFill(s, depth); }
  }

  lemma RunSnoc(depth: nat, ls: seq<Label>, l: Label)
    ensures Run(depth, ls + [l]) == Step(Run(depth, ls), depth, l)
  {
    hide Step;
    assert (ls + [l])[..|ls|] == ls;
  }

  /** In every run: the thread that looks for room drops if and only if every slab other than the head's is queued. */
  lemma {:induction false} DropsIffOthersQueued(depth: nat, ls: seq<Label>)
    requires 1 <= depth <= RING && Run(depth, ls).recv.Load?
    ensures Run(depth, ls + [LRecv]).recv.Drop? <==> OthersQueued(Run(depth, ls))
    ensures Run(depth, ls + [LRecv]).recv.Put? <==> !OthersQueued(Run(depth, ls))
  {
    hide Inv, Run, OthersQueued;
    RunInv(depth, ls);
    RunSnoc(depth, ls, LRecv);
    LooksIff(Run(depth, ls), depth);
  }

  // ---------------------------------------------------- a dispatch and its outcome

  /** Steps of the worker and the hook only. */
  predicate Others(ls: seq<Label>) {
    forall k :: 0 <= k < |ls| ==> ls[k].LWork? || ls[k].LRelease?
  }

  /** What the receive thread works with, the log and the drop count are as they were. */
  predicate Kept(s: State, t: State)
    requires Shape(s) && Shape(t)
  {
    && t.recv == s.recv && t.nextSeq == s.nextSeq && t.pending == s.pending && t.log == s.log
    && t.fullDrops == s.fullDrops && HeadJob(t) == HeadJob(s)
  }

  lemma OtherKeeps(s: State, depth: nat, l: Label)
    requires Shape(s) && (l.LWork? || l.LRelease?)
    ensures Kept(s, Step(s, depth, l))
  {}

  lemma {:induction false} OthersKeep(s: State, depth: nat, ls: seq<Label>)
    requires Inv(s, depth) && Others(ls)
    ensures Shape(s) && Inv(RunFrom(s, depth, ls), depth) && Kept(s, RunFrom(s, depth, ls))
    decreases |ls|
  {
    hide Inv, Step;
    InvShape(s, depth);
    if ls != [] {
      StepInv(s, depth, ls[0]);
      OtherKeeps(s, depth, ls[0]);
      OthersKeep(Step(s, depth, ls[0]), depth, ls[1..]);
    }
  }

  lemma PendingHead(s: State, depth: nat)
    requires Inv(s, depth) && InDispatch(s.recv)
    ensures s.pending > 0
  {
    hide Slots, LogOk, SeenOk, PutOk, WorkerOk, Owners, QueueOk;
    HeadIs(s);
    assert Head(s) in FilledSet(s.ring);
  }

  /**
   A dispatch, however worker and hook interleave with its steps.  If every other slab was queued
   when the thread looked, the datagram is dropped and counted, and nothing is logged; otherwise
   the head's job, as it was then, is the next in the log, and nothing is counted.
   */
  lemma {:induction false} DispatchEnds(s: State, depth: nat, ls: seq<Label>, ms: seq<Label>)
    requires Inv(s, depth) && s.recv.Load? && Others(ls) && Others(ms)
    ensures Shape(s)
    ensures var t := RunFrom(RecvStep(s, depth), depth, ls);
            if OthersQueued(s) then
              RecvStep(t, depth).log == s.log && RecvStep(t, depth).fullDrops == s.fullDrops + 1
            else
              var v := RecvStep(RunFrom(RecvStep(t, depth), depth, ms), depth);
              v.log == s.log + [HeadJob(s)] && v.fullDrops == s.fullDrops
  {
    hide Inv, OthersQueued;
    InvShape(s, depth);
    LooksIff(s, depth);
    StepInv(s, depth, LRecv);
    var s1 := RecvStep(s, depth);
    OthersKeep(s1, depth, ls);
    var t := RunFrom(s1, depth, ls);
    PendingHead(t, depth);
    if !OthersQueued(s) {
      StepInv(t, depth, LRecv);
      var t1 := RecvStep(t, depth);
      OthersKeep(t1, depth, ms);
      PendingHead(RunFrom(t1, depth, ms), depth);
    }
  }

  /** Nothing else touches the log or the drop count. */
  lemma {:induction false} OnlyDispatchLogs(s: State, depth: nat, l: Label)
    requires Shape(s)
    ensures Step(s, depth, l).log != s.log ==> l.LRecv? && s.recv.Publish?
    ensures Step(s, depth, l).fullDrops != s.fullDrops ==> l.LRecv? && s.recv.Drop?
  {
    hide Shape, HeadReady, HeadJob, Diff16, Head, DgramOk;
  }

  lemma DropComesFromLook(s: State, depth: nat, l: Label)
    requires Shape(s) && Step(s, depth, l).recv.Drop?
    ensures if l.LRecv? then s.recv.Load? || (s.recv.Drop? && s.pending == 0) else s.recv.Drop?
  {
    hide RecvStep;
    if l.LRecv? { RecvToDrop(s, depth); } else if !l.LArrive? { OtherKeeps(s, depth, l); }
  }

  lemma RecvToDrop(s: State, depth: nat)
    requires Shape(s) && RecvStep(s, depth).recv.Drop?
    ensures s.recv.Load? || (s.recv.Drop? && s.pending == 0)
  {
    hide Shape, HeadReady, HeadJob, Diff16, Head;
  }

  /** In every run a thread about to drop found, when it looked, every other slab in the queue. */
  lemma {:induction false} DropsOnlyWhenFull(depth: nat, ls: seq<Label>) returns (k: nat)
    requires 1 <= depth <= RING && Run(depth, ls).recv.Drop?
    ensures k < |ls| && ls[k].LRecv? && Run(depth, ls[..k]).recv.Load? && OthersQueued(Run(depth, ls[..k]))
    decreases |ls|
  {
    hide Inv, Step, OthersQueued;
    if ls == [] {
      assert false;
    }
    var before, l := ls[..|ls| - 1], ls[|ls| - 1];
    var s := Run(depth, before);
    RunInv(depth, before);
    DropComesFromLook(s, depth, l);
    if s.recv.Load? {
      k := |ls| - 1;
      DropsIffOthersQueued(depth, before);
      assert before + [LRecv] == ls;
    } else {
      PendingHead(s, depth);
      k := DropsOnlyWhenFull(depth, before);
      assert before[..k] == ls[..k];
    }
  }

  // ----------------------------------------------------------- what is kept and why

  /** In every run: the datagram in hand is written exactly when its slab is free; otherwise nothing of it is kept. */
  lemma {:induction false} KeptIffFree(depth: nat, ls: seq<Label>)
    requires 1 <= depth <= RING && Run(depth, ls).recv.Store?
    ensures var s, t := Run(depth, ls), Run(depth, ls + [LRecv]);
            var own := s.owner[s.recv.u % RING];
            && t == s.(recv := t.recv, busyDrops := t.busyDrops)
            && t.recv == (if own.Free? then Write(s.recv.d, s.recv.u) else Idle)
            && t.busyDrops == s.busyDrops + ToNat(!own.Free? && !own.Filled?)
  {
    hide Run;
    RunInv(depth, ls);
    RunSnoc(depth, ls, LRecv);
    StoreIs(Run(depth, ls), depth);
  }

  lemma StoreIs(s: State, depth: nat)
    requires Inv(s, depth) && s.recv.Store?
    ensures var t := RecvStep(s, depth);
            var own := s.owner[s.recv.u % RING];
            && t == s.(recv := t.recv, busyDrops := t.busyDrops)
            && t.recv == (if own.Free? then Write(s.recv.d, s.recv.u) else Idle)
            && t.busyDrops == s.busyDrops + ToNat(!own.Free? && !own.Filled?)
  {
    hide LogOk, SeenOk, PutOk, WorkerOk, Owners, QueueOk, FilledSet;
    AliasUnreachable(s, depth);
    SlotOfSeq(s.recv.u);
    var i := s.recv.u % RING;
    assert SlotOk(i, s.ring[i], s.owner[i], s.slab[i], s.stored, s.nextU, depth);
    assert !s.owner[i].Dispatching?;
  }

  /**
   In every run a datagram that arrives at the idle thread is taken up exactly when some number
   congruent to its own lies at or up to half the number space ahead of the head; there is
   at most one, and it is taken up under that number.  Otherwise nothing of it is kept.
   */
  lemma {:induction false} TakenUpIffNotBehind(depth: nat, ls: seq<Label>, d: Dgram, u: nat)
    requires 1 <= depth <= RING && Run(depth, ls).recv.Idle? && DgramOk(d)
    ensures var s, t := Run(depth, ls), Run(depth, ls + [LArrive(d)]);
            && (!s.started ==> t.started && t.nextU == t.startU == d.seqno && t.recv == Advance(d, d.seqno))
            && (s.started && u % SEQ == d.seqno && s.nextU <= u < s.nextU + 32768 ==> t == s.(recv := Advance(d, u)))
            && (s.started && t != s ==>
                  && t == s.(recv := t.recv) && t.recv.Advance? && t.recv.d == d
                  && t.recv.u % SEQ == d.seqno && s.nextU <= t.recv.u < s.nextU + 32768)
  {
    hide Run, Slots, LogOk, SeenOk, PutOk, WorkerOk, Owners, QueueOk, FilledSet;
    RunInv(depth, ls);
    RunSnoc(depth, ls, LArrive(d));
    var s := Run(depth, ls);
    assert d.seqno < SEQ;
    if s.started && u % SEQ == d.seqno && s.nextU <= u < s.nextU + 32768 { DiffIs(u, s.nextU); }
    if s.started && Diff16(d.seqno, s.nextSeq) >= 0 { DiffGives(d.seqno, s.nextU); }
  }

  /**
   In every run the datagram in hand forces the head on exactly while it is a jitter depth or more
   ahead: then the head's datagram is handed on if it is there, and its number counted lost if not.
   */
  lemma {:induction false} ForcedIffBeyondWindow(depth: nat, ls: seq<Label>)
    requires 1 <= depth <= RING && Run(depth, ls).recv.Advance?
    ensures var s, t := Run(depth, ls), Run(depth, ls + [LRecv]);
            if s.recv.u < s.nextU + depth then t == s.(recv := Store(s.recv.d, s.recv.u))
            else if InRing(s.ring, s.nextU) then t == s.(recv := Own(ToAdvance(s.recv.d, s.recv.u)))
            else t.recv == s.recv && t.nextU == s.nextU + 1 && t.lost == s.lost + 1 && t.ring == s.ring
  {
    hide Run;
    RunInv(depth, ls);
    RunSnoc(depth, ls, LRecv);
    AdvanceIs(Run(depth, ls), depth);
  }

  lemma ReadyIffInRing(s: State, depth: nat)
    requires Inv(s, depth)
    ensures HeadReady(s) <==> InRing(s.ring, s.nextU)
  {
    hide LogOk, SeenOk, PutOk, WorkerOk, Owners, QueueOk, FilledSet, RecvOk, Dispatches;
    HeadIs(s);
    var i := Head(s);
    assert SlotOk(i, s.ring[i], s.owner[i], s.slab[i], s.stored, s.nextU, depth);
    if s.ring[i].filled { SameSlotSameNumber(s.ring[i].u, s.nextU, s.nextU); }
  }

  lemma AdvanceIs(s: State, depth: nat)
    requires Inv(s, depth) && s.recv.Advance?
    ensures var t := RecvStep(s, depth);
            if s.recv.u < s.nextU + depth then t == s.(recv := Store(s.recv.d, s.recv.u))
            else if InRing(s.ring, s.nextU) then t == s.(recv := Own(ToAdvance(s.recv.d, s.recv.u)))
            else t.recv == s.recv && t.nextU == s.nextU + 1 && t.lost == s.lost + 1 && t.ring == s.ring
  {
    hide Slots, LogOk, SeenOk, PutOk, WorkerOk, Owners, QueueOk, FilledSet, InRing, HeadReady;
    DiffLeft(s, depth);
    ReadyIffInRing(s, depth);
  }

  // ------------------------------------------------------------ numbers accounted

  /** Numbers stored and passed by the head. */
  function Passed(stored: map<nat, Dgram>, nextU: nat): set<nat> {
    set v | v in stored && v < nextU
  }

  /**
   Stored numbers lie at or past the start; one the head has not passed is in its slot; the
   others were dispatched.
   */
  predicate Fates(stored: map<nat, Dgram>, ring: seq<Slot>, startU: nat, nextU: nat, dispatched: nat) {
    && (forall v <- stored :: startU <= v && (v >= nextU ==> InRing(ring, v)))
    && |Passed(stored, nextU)| == dispatched
  }

  predicate FatesOf(s: State) {
    Fates(s.stored, s.ring, s.startU, s.nextU, |s.log| + s.fullDrops)
  }

  /** A number passed without being stored. */
  lemma PassEmpty(stored: map<nat, Dgram>, ring: seq<Slot>, startU: nat, nextU: nat, n: nat)
    requires Fates(stored, ring, startU, nextU, n) && !InRing(ring, nextU)
    ensures Fates(stored, ring, startU, nextU + 1, n)
  {
    assert Passed(stored, nextU + 1) == Passed(stored, nextU);
  }

  /** The head's number passed, its slot emptied. */
  lemma PassHead(stored: map<nat, Dgram>, ring: seq<Slot>, startU: nat, nextU: nat, n: nat, slot: Slot)
    requires Fates(stored, ring, startU, nextU, n) && InRing(ring, nextU) && nextU in stored
    ensures Fates(stored, ring[nextU % RING := slot], startU, nextU + 1, n + 1)
  {
    assert Passed(stored, nextU + 1) == Passed(stored, nextU) + {nextU};
  }

  lemma StoreOne(stored: map<nat, Dgram>, ring: seq<Slot>, startU: nat, nextU: nat, n: nat, u: nat, d: Dgram,
                 slot: Slot)
    requires Fates(stored, ring, startU, nextU, n) && |ring| == RING && u >= nextU && startU <= nextU
    requires !ring[u % RING].filled && slot.filled && slot.u == u
    ensures Fates(stored[u := d], ring[u % RING := slot], startU, nextU, n)
  {
    assert Passed(stored[u := d], nextU) == Passed(stored, nextU);
  }

  /** The places of the ring as far as fates go. */
  lemma SamePlaces(stored: map<nat, Dgram>, ring: seq<Slot>, ring': seq<Slot>, startU: nat, nextU: nat, n: nat)
    requires Fates(stored, ring, startU, nextU, n) && |ring'| == |ring|
    requires forall i :: 0 <= i < |ring| ==> ring'[i].filled == ring[i].filled && ring'[i].u == ring[i].u
    ensures Fates(stored, ring', startU, nextU, n)
  {}

  lemma RecvFates(s: State, depth: nat)
    requires Inv(s, depth) && FatesOf(s)
    ensures FatesOf(RecvStep(s, depth))
  {
    hide LogOk, SeenOk, PutOk, WorkerOk, Owners, QueueOk, FilledSet, Fates, Slots;
    HeadIs(s);
    var i, n := s.nextU % RING, |s.log| + s.fullDrops;
    match s.recv {
      case Advance(_, _) => {
        AdvanceIs(s, depth);
        if !InRing(s.ring, s.nextU) { PassEmpty(s.stored, s.ring, s.startU, s.nextU, n); }
      }
      case Store(_, _) => StoreIs(s, depth);
      case Write(d, u) => {
        WritesFree(s, depth);
        StoreOne(s.stored, s.ring, s.startU, s.nextU, n, u, d,
                 Slot(true, d.seqno, d.hdr, |d.bytes|, s.ring[d.seqno % RING].busy, u));
      }
      case Own(_) => SamePlaces(s.stored, s.ring, s.ring[i := s.ring[i].(busy := true)], s.startU, s.nextU, n);
      case Publish(_) => {
        HeadStored(s, depth);
        PassHead(s.stored, s.ring, s.startU, s.nextU, n, s.ring[i].(filled := false, len := 0));
      }
      case Drop(_) => {
        HeadStored(s, depth);
        var slot := s.ring[i].(busy := false, filled := false, len := 0);
        PassHead(s.stored, s.ring, s.startU, s.nextU, n, slot);
        assert s.ring[i := s.ring[i].(busy := false)][i := slot] == s.ring[i := slot];
      }
      case _ =>
    }
  }

  lemma WritesFree(s: State, depth: nat)
    requires Inv(s, depth) && s.recv.Write?
    ensures var u := s.recv.u;
            u >= s.nextU >= s.startU && s.recv.d.seqno % RING == u % RING && !s.ring[u % RING].filled
  {
    SlotOfSeq(s.recv.u);
    var i := s.recv.u % RING;
    assert SlotOk(i, s.ring[i], s.owner[i], s.slab[i], s.stored, s.nextU, depth);
  }

  lemma HeadStored(s: State, depth: nat)
    requires Inv(s, depth) && InDispatch(s.recv)
    ensures InRing(s.ring, s.nextU) && s.nextU in s.stored
  {
    var i := s.nextU % RING;
    assert SlotOk(i, s.ring[i], s.owner[i], s.slab[i], s.stored, s.nextU, depth);
  }

  lemma StepFates(s: State, depth: nat, l: Label)
    requires Inv(s, depth) && FatesOf(s)
    ensures Shape(s) && FatesOf(Step(s, depth, l))
  {
    hide LogOk, SeenOk, PutOk, WorkerOk, Owners, QueueOk, FilledSet, Slots, RecvStep;
    match l {
      case LRecv => RecvFates(s, depth);
      case LArrive(d) => if !s.started { assert s.stored == map[] && s.fullDrops == 0; }
      case LWork =>
        SamePlaces(s.stored, s.ring, WorkerStep(s).ring, s.startU, s.nextU, |s.log| + s.fullDrops);
      case LRelease(i) =>
        SamePlaces(s.stored, s.ring, Step(s, depth, l).ring, s.startU, s.nextU, |s.log| + s.fullDrops);
    }
  }

  lemma {:induction false} RunFates(depth: nat, ls: seq<Label>)
    requires 1 <= depth <= RING
    ensures FatesOf(Run(depth, ls))
  {
    hide Inv, Init, Step, Fates;
    if ls == [] {
      InitFates();
    } else {
      RunFates(depth, ls[..|ls| - 1]);
      RunInv(depth, ls[..|ls| - 1]);
      StepFates(Run(depth, ls[..|ls| - 1]), depth, ls[|ls| - 1]);
    }
  }

  lemma InitFates()
    ensures FatesOf(Init())
  {
    hide Blank;
    assert Passed(map[], 0) == {};
  }

  /** Numbers from `lo` up to `hi`. */
  function Between(lo: nat, hi: nat): (r: set<nat>)
    requires lo <= hi
    ensures |r| == hi - lo && forall v: nat :: v in r <==> lo <= v < hi
    decreases hi
  {
    if lo == hi then {} else Between(lo, hi - 1) + {hi - 1}
  }

  /**
   In every run, of the numbers the head has passed: `lost` counts those never stored, and those
   stored are counted by the log and the full-queue drops together.  A logged number was stored
   and is passed; without full-queue drops every number stored and passed is logged.
   */
  lemma {:induction false} EveryNumberAccounted(depth: nat, ls: seq<Label>)
    requires 1 <= depth <= RING
    ensures var s := Run(depth, ls);
            && s.startU <= s.nextU
            && s.lost == |Between(s.startU, s.nextU) - s.stored.Keys|
            && |s.log| + s.fullDrops == |Between(s.startU, s.nextU) * s.stored.Keys|
            && (forall k :: 0 <= k < |s.log| ==>
                  s.startU <= s.log[k].u < s.nextU && s.log[k].u in s.stored)
            && (s.fullDrops == 0 ==>
                  forall v <- s.stored :: v < s.nextU ==> exists k :: 0 <= k < |s.log| && s.log[k].u == v)
  {
    hide Run;
    RunInv(depth, ls);
    RunFates(depth, ls);
    var s := Run(depth, ls);
    var all := Between(s.startU, s.nextU);
    assert all * s.stored.Keys == Passed(s.stored, s.nextU);
    assert all == (all * s.stored.Keys) + (all - s.stored.Keys);
    LogNumbers(s, depth, |s.log|);
    if s.fullDrops == 0 {
      SubsetOfSize(Logged(s.log, |s.log|), Passed(s.stored, s.nextU));
      forall v <- s.stored | v < s.nextU ensures exists k :: 0 <= k < |s.log| && s.log[k].u == v {
        assert v in Passed(s.stored, s.nextU);
        var k := LoggedAt(s.log, |s.log|, v);
      }
    }
  }

  function Logged(log: seq<Job>, n: nat): set<nat>
    requires n <= |log|
  {
    if n == 0 then {} else Logged(log, n - 1) + {log[n - 1].u}
  }

  lemma {:induction false} LoggedAt(log: seq<Job>, n: nat, v: nat) returns (k: nat)
    requires n <= |log| && v in Logged(log, n)
    ensures k < n && log[k].u == v
  {
    if log[n - 1].u == v { k := n - 1; } else { k := LoggedAt(log, n - 1, v); }
  }

  lemma {:induction false} LogNumbers(s: State, depth: nat, n: nat)
    requires Inv(s, depth) && FatesOf(s) && n <= |s.log|
    ensures |Logged(s.log, n)| == n && Logged(s.log, n) <= Passed(s.stored, s.nextU)
    ensures forall v <- Logged(s.log, n) :: n < |s.log| ==> v < s.log[n].u
    ensures forall k :: 0 <= k < n ==> s.startU <= s.log[k].u < s.nextU && s.log[k].u in s.stored
  {
    hide Slots, SeenOk, PutOk, WorkerOk, Owners, QueueOk, FilledSet;
    if n > 0 {
      LogNumbers(s, depth, n - 1);
      assert JobOk(s.log[n - 1], s.stored, s.nextU);
    }
  }

  // ------------------------------------------------------------- the worker's half

  function CountWork(ls: seq<Label>): nat {
    if ls == [] then 0 else CountWork(ls[1..]) + ToNat(ls[0].LWork?)
  }

  /** Worker steps until the hook has seen `n` jobs. */
  function WorkLeft(s: State, n: nat): nat {
    if |s.seen| >= n then 0
    else 4 * (n - |s.seen|) - match s.worker case Wait => 0 case Take => 1 case Pop(_) => 2 case Process(_) => 3
  }

  /** A step of the worker brings it closer to the first `n` jobs of the log; no other step takes it further away. */
  lemma WorkStep(s: State, depth: nat, l: Label, n: nat)
    requires Inv(s, depth) && n <= |s.log|
    ensures Shape(s) && n <= |Step(s, depth, l).log|
    ensures WorkLeft(Step(s, depth, l), n) <= WorkLeft(s, n)
    ensures l.LWork? && WorkLeft(s, n) > 0 ==> WorkLeft(Step(s, depth, l), n) < WorkLeft(s, n)
  {
    hide Inv, WorkerStep;
    InvShape(s, depth);
    if l.LWork? { WorkerStepIs(s, depth); } else { OthersLeaveWorker(s, depth, l); }
  }

  lemma OthersLeaveWorker(s: State, depth: nat, l: Label)
    requires Shape(s) && !l.LWork?
    ensures var t := Step(s, depth, l);
            t.worker == s.worker && t.seen == s.seen && |t.log| >= |s.log|
  {
    hide Shape, HeadReady, HeadJob, Diff16, Head, DgramOk;
  }

  /** While anything is queued each worker step goes on to the next of four, the last of which shows the job. */
  lemma WorkerStepIs(s: State, depth: nat)
    requires Inv(s, depth)
    ensures var t := WorkerStep(s);
            && t.log == s.log
            && (match s.worker
                case Wait => t.seen == s.seen && (if |s.seen| < |s.log| then t.worker.Take? else t.worker.Wait?)
                case Take => t.seen == s.seen && t.worker.Pop?
                case Pop(_) => t.seen == s.seen && t.worker.Process?
                case Process(j) => t.seen == s.seen + [(j, s.slab[j.slab])] && t.worker.Wait?)
  {
    hide Slots, LogOk, PutOk, FilledSet, RecvOk, Dispatches;
    if s.worker.Take? { FrontJob(s, depth); }
    if s.worker.Process? { ShownJob(s, depth); }
  }

  lemma FrontJob(s: State, depth: nat)
    requires Inv(s, depth) && s.worker.Take?
    ensures s.queue[s.head].slab < RING
  {
    hide Slots, PutOk, FilledSet, RecvOk, Dispatches, LogOk, SeenOk;
    assert s.queue[(s.head + (s.popped - s.popped)) % QUEUE] == s.log[s.popped];
  }

  lemma ShownJob(s: State, depth: nat)
    requires Inv(s, depth) && s.worker.Process?
    ensures s.worker.job.hdr <= s.worker.job.len && s.popped > 0
  {
    hide Slots, PutOk, FilledSet, RecvOk, Dispatches, Owners, QueueOk, SeenOk;
    assert JobOk(s.log[s.popped - 1], s.stored, s.nextU);
  }

  /**
   However the others interleave, every job in the log has been shown to the hook once the
   worker has taken a number of its own steps fixed in advance.
   */
  lemma {:induction false} EveryJobShown(s: State, depth: nat, ls: seq<Label>, n: nat)
    requires Inv(s, depth) && n <= |s.log|
    ensures Shape(s)
    ensures CountWork(ls) >= WorkLeft(s, n) ==> |RunFrom(s, depth, ls).seen| >= n
    decreases |ls|
  {
    hide Inv, Step, WorkLeft;
    InvShape(s, depth);
    if ls == [] {
      AllShown(s, n);
    } else {
      StepInv(s, depth, ls[0]);
      WorkStep(s, depth, ls[0], n);
      EveryJobShown(Step(s, depth, ls[0]), depth, ls[1..], n);
    }
  }

  lemma AllShown(s: State, n: nat)
    ensures WorkLeft(s, n) == 0 ==> |s.seen| >= n
  {}
}
