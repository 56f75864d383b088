/**
 The receiver's functions as the two threads run them.  `s` holds the fields; the
 receive thread's place in the code is `s.recv`.  Each function, run undisturbed, is
 proved to end where the thread's single steps lead.
 */
module ReceiverThreads {
  import opened Bytes
  import opened ChainReader
  import opened JitterRing
  import opened JitterRuns
  import opened ReceiverProgress

  /** The receive thread stepped on its own until it is idle. */
  function RecvToIdle(s: State, depth: nat): (r: State)
    requires Inv(s, depth)
    ensures Inv(r, depth) && r.recv.Idle?
    decreases Left(s)
  {
    if s.recv.Idle? then s
    else
      RecvStepInv(s, depth);
      RecvProgress(s, depth);
      InvShape(s, depth);
      RecvToIdle(RecvStep(s, depth), depth)
  }

  lemma Unroll(s: State, depth: nat)
    requires Inv(s, depth) && !s.recv.Idle?
    ensures Shape(s) && Inv(RecvStep(s, depth), depth) && Left(RecvStep(s, depth)) < Left(s)
    ensures RecvToIdle(s, depth) == RecvToIdle(RecvStep(s, depth), depth)
  {
    hide Inv, RecvStep, Left;
    InvShape(s, depth);
    RecvProgress(s, depth);
    RecvStepInv(s, depth);
  }

  function Solo(n: nat): (ls: seq<Label>)
    ensures |ls| == n
  {
    if n == 0 then [] else [LRecv] + Solo(n - 1)
  }

  /** The undisturbed execution is one of the runs: the one in which only the receive thread moves. */
  lemma {:induction false} SoloRun(s: State, depth: nat, n: nat)
    requires Inv(s, depth) && n >= Left(s)
    ensures Shape(s) && RecvToIdle(s, depth) == RunFrom(s, depth, Solo(n))
    decreases n
  {
    hide Inv, RecvStep, Left;
    InvShape(s, depth);
    LeftIdle(s);
    if s.recv.Idle? {
      IdleRun(s, depth, n);
    } else {
      Unroll(s, depth);
      RecvProgress(s, depth);
      assert Solo(n)[1..] == Solo(n - 1);
      SoloRun(RecvStep(s, depth), depth, n - 1);
    }
  }

  lemma {:induction false} IdleRun(s: State, depth: nat, n: nat)
    requires Shape(s) && s.recv.Idle?
    ensures RunFrom(s, depth, Solo(n)) == s
  {
    hide RecvStep;
    if n > 0 {
      IdleStays(s, depth);
      assert Solo(n)[1..] == Solo(n - 1);
      IdleRun(s, depth, n - 1);
    }
  }

  // ------------------------------------------------------------- the job queue

  /** What is in the ring queue, oldest first. */
  function Jobs(queue: seq<Job>, head: nat, tail: nat): (r: seq<Job>)
    requires |queue| == QUEUE && head < QUEUE && tail < QUEUE
  {
    seq((tail - head) % QUEUE, i requires 0 <= i => queue[(head + i) % QUEUE])
  }

  lemma JobsFull(queue: seq<Job>, head: nat, tail: nat)
    requires |queue| == QUEUE && head < QUEUE && tail < QUEUE
    ensures |Jobs(queue, head, tail)| < QUEUE - 1 <==> (tail + 1) % QUEUE != head
    ensures Jobs(queue, head, tail) == [] <==> head == tail
  {}

  lemma JobsPut(queue: seq<Job>, head: nat, tail: nat, j: Job)
    requires |queue| == QUEUE && head < QUEUE && tail < QUEUE && (tail + 1) % QUEUE != head
    ensures Jobs(queue[tail := j], head, (tail + 1) % QUEUE) == Jobs(queue, head, tail) + [j]
  {
    var n := (tail - head) % QUEUE;
    assert (tail + 1) % QUEUE == (if tail + 1 == QUEUE then 0 else tail + 1);
    assert ((tail + 1) % QUEUE - head) % QUEUE == n + 1;
    assert (head + n) % QUEUE == tail;
    var a, b := Jobs(queue[tail := j], head, (tail + 1) % QUEUE), Jobs(queue, head, tail) + [j];
    forall i | 0 <= i < n ensures a[i] == b[i] { assert (head + i) % QUEUE != tail; }
  }

  lemma JobsTake(queue: seq<Job>, head: nat, tail: nat)
    requires |queue| == QUEUE && head < QUEUE && tail < QUEUE && head != tail
    ensures Jobs(queue, head, tail) == [queue[head]] + Jobs(queue, (head + 1) % QUEUE, tail)
  {
    var n := (tail - head) % QUEUE;
    assert (head + 1) % QUEUE == (if head + 1 == QUEUE then 0 else head + 1);
    assert (tail - (head + 1) % QUEUE) % QUEUE == n - 1;
    var a, b := Jobs(queue, head, tail), Jobs(queue, (head + 1) % QUEUE, tail);
    forall i | 0 <= i < n - 1
      ensures a[i + 1] == b[i] { assert ((head + 1) % QUEUE + i) % QUEUE == (head + (i + 1)) % QUEUE; }
  }

  /** In every run the queue holds exactly the jobs enqueued and not yet taken, in order. */
  lemma {:induction false} QueueIsLog(depth: nat, ls: seq<Label>)
    requires 1 <= depth <= RING
    ensures var s := Run(depth, ls);
            s.popped <= |s.log| && Jobs(s.queue, s.head, s.tail) == s.log[s.popped..]
  {
    hide Inv, Run;
    RunInv(depth, ls);
    QueueIsLogIn(Run(depth, ls), depth);
  }

  lemma QueueIsLogIn(s: State, depth: nat)
    requires Inv(s, depth)
    ensures s.popped <= |s.log| && Jobs(s.queue, s.head, s.tail) == s.log[s.popped..]
  {
    hide Slots, Owners, SeenOk, LogOk, WorkerOk, FilledSet, Dispatches, PutOk, RecvOk, Accounts;
    var n := |s.log| - s.popped;
    assert (s.tail - s.head) % QUEUE == n;
    var jobs := Jobs(s.queue, s.head, s.tail);
    forall i | 0 <= i < n ensures jobs[i] == s.log[s.popped..][i] {
      assert s.queue[(s.head + ((s.popped + i) - s.popped)) % QUEUE] == s.log[s.popped + i];
    }
  }

  class Receiver {
    const depth: nat
    var s: State

    constructor (depth: nat)
      ensures s == Init() && this.depth == depth
    {
      this.depth := depth;
      s := Init();
    }

    /** Single producer: a job goes in unless one more would close the ring. */
    method EnqueueJob(j: Job) returns (ok: bool)
      requires Shape(s)
      modifies this
      ensures ok <==> (old(s).tail + 1) % QUEUE != old(s).head
      ensures s == if ok then old(s).(queue := old(s).queue[old(s).tail := j], tail := (old(s).tail + 1) % QUEUE)
              else old(s)
      ensures ok <==> |Jobs(old(s).queue, old(s).head, old(s).tail)| < QUEUE - 1
      ensures Jobs(s.queue, s.head, s.tail) == Jobs(old(s).queue, old(s).head, old(s).tail) + (if ok then [j] else [])
    {
      hide Jobs;
      JobsFull(s.queue, s.head, s.tail);
      var tail := s.tail;
      var nextTail := (tail + 1) % QUEUE;
      if nextTail == s.head { return false; }
      JobsPut(s.queue, s.head, tail, j);
      s := s.(queue := s.queue[tail := j]);
      s := s.(tail := nextTail);
      return true;
    }

    /** Single consumer. */
    method DequeueJob() returns (j: Option<Job>)
      requires Shape(s)
      modifies this
      ensures j == if old(s).head == old(s).tail then None else Some(old(s).queue[old(s).head])
      ensures s == if j.None? then old(s) else old(s).(head := (old(s).head + 1) % QUEUE)
      ensures Jobs(old(s).queue, old(s).head, old(s).tail) == (if j.None? then [] else [j.value])
              + Jobs(s.queue, s.head, s.tail)
      ensures j.None? <==> Jobs(old(s).queue, old(s).head, old(s).tail) == []
    {
      hide Jobs;
      JobsFull(s.queue, s.head, s.tail);
      if s.head == s.tail { return None; }
      JobsTake(s.queue, s.head, s.tail);
      j := Some(s.queue[s.head]);
      s := s.(head := (s.head + 1) % QUEUE);
    }

    /** Hand the slab over with its job, or take it back when the queue is full. */
    method Dispatch(i: nat, len: nat, seqno: nat, hdr: nat, u: nat)
      requires Shape(s) && i < RING
      modifies this
      ensures s == AfterDispatch(old(s), Job(i, len, seqno, hdr, u))
    {
      s := s.(ring := s.ring[i := s.ring[i].(busy := true)], owner := s.owner[i := Dispatching]);
      var job := Job(i, len, seqno, hdr, u);
      var ok := EnqueueJob(job);
      if !ok {
        s := s.(ring := s.ring[i := s.ring[i].(busy := false)], owner := s.owner[i := Free]);
        s := s.(fullDrops := s.fullDrops + 1);
        return;
      }
      s := s.(log := s.log + [job], owner := s.owner[i := Queued(|s.log|)]);
    }

    /** Dispatch the head slot, empty it and move the head on. */
    method TakeHead()
      requires Inv(s, depth) && s.recv.Own?
      modifies this
      ensures Inv(s, depth) && s.recv == Resumed(old(s).recv.back)
      ensures RecvToIdle(s, depth) == RecvToIdle(old(s), depth) && Left(s) < Left(old(s))
    {
      hide Inv, RecvToIdle, Left;
      InvShape(s, depth);
      DispatchSteps(s, depth);
      var i := Head(s);
      var slot := s.ring[i];
      Dispatch(i, slot.len, slot.seqno, slot.hdr, slot.u);
      s := s.(ring := s.ring[i := s.ring[i].(filled := false, len := 0)]);
      s := s.(pending := s.pending - 1);
      s := s.(nextSeq := (s.nextSeq + 1) % SEQ, nextU := s.nextU + 1, recv := Resumed(s.recv.back));
    }

    /** The release loop: dispatch from the head while its datagram is there. */
    method ReleaseInOrder()
      requires Inv(s, depth) && s.recv.Release?
      modifies this
      ensures s == RecvToIdle(old(s), depth)
    {
      hide Inv, RecvToIdle, Left;
      InvShape(s, depth);
      while s.pending > 0
        invariant Shape(s) && Inv(s, depth) && s.recv.Release? && RecvToIdle(s, depth) == RecvToIdle(old(s), depth)
        decreases Left(s)
      {
        var i := Head(s);
        if !s.ring[i].filled || s.ring[i].seqno != s.nextSeq { break; }
        Unroll(s, depth);
        s := s.(recv := Own(ToRelease));
        TakeHead();
        InvShape(s, depth);
      }
      Unroll(s, depth);
      s := s.(recv := Idle);
      IdleAlready(s, depth);
    }

    /** A datagram that passed the header checks. */
    method Handle(d: Dgram)
      requires Inv(s, depth) && s.recv.Idle? && DgramOk(d)
      modifies this
      ensures Inv(Arrive(old(s), d), depth) && s == RecvToIdle(Arrive(old(s), d), depth)
    {
      hide Inv, RecvToIdle, Left;
      InvShape(s, depth);
      ArriveInv(s, depth, d);
      if !s.started {
        s := s.(started := true, nextSeq := d.seqno, nextU := d.seqno, startU := d.seqno);
      }
      var diff := Diff16(d.seqno, s.nextSeq);
      if diff < 0 {
        IdleAlready(s, depth);
        return;
      }
      var u := s.nextU + diff;
      s := s.(recv := Advance(d, u));
      ForceAdvance(d, u);
      Unroll(s, depth);
      s := s.(recv := Store(d, u));
      Keep(d, u);
    }

    /** The force-advance loop: the head moves until the datagram is inside the jitter window. */
    method ForceAdvance(d: Dgram, u: nat)
      requires Inv(s, depth) && s.recv == Advance(d, u)
      modifies this
      ensures Shape(s) && Inv(s, depth) && s.recv == Advance(d, u) && RecvToIdle(s, depth) == RecvToIdle(old(s), depth)
      ensures Diff16(d.seqno, s.nextSeq) < depth
    {
      hide Inv, RecvToIdle, Left, Diff16;
      InvShape(s, depth);
      var diff := Diff16(d.seqno, s.nextSeq);
      while diff >= depth
        invariant Shape(s) && Inv(s, depth) && s.recv == Advance(d, u)
                  && RecvToIdle(s, depth) == RecvToIdle(old(s), depth)
        invariant diff == Diff16(d.seqno, s.nextSeq)
        decreases Left(s)
      {
        Unroll(s, depth);
        var i := Head(s);
        if s.ring[i].filled && s.ring[i].seqno == s.nextSeq {
          s := s.(recv := Own(ToAdvance(d, u)));
          TakeHead();
          InvShape(s, depth);
        } else {
          s := s.(lost := s.lost + 1);
          s := s.(nextSeq := (s.nextSeq + 1) % SEQ, nextU := s.nextU + 1);
        }
        diff := Diff16(d.seqno, s.nextSeq);
      }
    }

    /** Store the datagram unless its slot is taken or its slab is away, then release. */
    method Keep(d: Dgram, u: nat)
      requires Inv(s, depth) && s.recv == Store(d, u)
      modifies this
      ensures s == RecvToIdle(old(s), depth)
    {
      hide Inv, RecvToIdle, Left;
      Unroll(s, depth);
      var i := d.seqno % RING;
      var slot := s.ring[i];
      if slot.filled {
        if slot.seqno != d.seqno { s := s.(lost := s.lost + 1); }
        s := s.(recv := Idle);
        IdleAlready(s, depth);
        return;
      }
      if slot.busy {
        s := s.(busyDrops := s.busyDrops + 1, recv := Idle);
        IdleAlready(s, depth);
        return;
      }
      s := s.(recv := Write(d, u));
      Unroll(s, depth);
      s := s.(slab := s.slab[i := d.bytes]);
      s := s.(ring := s.ring[i := Slot(true, d.seqno, d.hdr, |d.bytes|, slot.busy, u)]);
      s := s.(owner := s.owner[i := Filled], stored := s.stored[u := d]);
      s := s.(pending := s.pending + 1, recv := Release);
      ReleaseInOrder();
    }

    /** A datagram as it comes from the socket; the read buffer is one slot long. */
    method HandleDgram(data: seq<byte>)
      requires Inv(s, depth) && s.recv.Idle? && 12 <= |data| <= SLOT_BYTES
      modifies this
      ensures match ParseRtp(data)
              case None => s == old(s)
              case Some(d) => Inv(Arrive(old(s), d), depth) && s == RecvToIdle(Arrive(old(s), d), depth)
    {
      hide Inv, RecvToIdle, Arrive;
      var d := ParseRtp(data);
      if d.Some? { Handle(d.value); }
    }

    /** One turn of the worker: a job, if there is one, goes to the hook. */
    method WorkerTurn()
      requires Inv(s, depth) && s.worker.Wait?
      modifies this
      ensures Shape(old(s))
      ensures s == if old(s).head == old(s).tail then old(s) else FourSteps(old(s))
      ensures Inv(s, depth) && s.worker.Wait?
    {
      hide Inv;
      InvShape(s, depth);
      if s.head == s.tail { return; }
      FourStepsInv(s, depth);
      var popped := DequeueJob();
      var j := popped.value;
      s := s.(popped := s.popped + 1, owner := s.owner[j.slab := Running(s.popped)]);
      ProcessJob(j);
    }

    /** Show the job to the hook, or give the slab back when the header overruns the datagram. */
    method ProcessJob(j: Job)
      requires Shape(s) && j.slab < RING && s.popped > 0
      modifies this
      ensures s == Processed(old(s), j)
    {
      if j.hdr <= j.len {
        s := s.(owner := s.owner[j.slab := Held(s.popped - 1)], seen := s.seen + [(j, s.slab[j.slab])]);
      } else {
        s := s.(ring := s.ring[j.slab := s.ring[j.slab].(busy := false)], owner := s.owner[j.slab := Free]);
      }
    }
  }

  function Resumed(back: Return): Recv {
    match back case ToAdvance(d, u) => Advance(d, u) case ToRelease => Release
  }

  /** What a dispatch does to the shared state, in one go. */
  function AfterDispatch(s: State, job: Job): State
    requires Shape(s) && job.slab < RING
  {
    var i := job.slab;
    if (s.tail + 1) % QUEUE == s.head then
      s.(ring := s.ring[i := s.ring[i].(busy := false)], owner := s.owner[i := Free], fullDrops := s.fullDrops + 1)
    else
      s.(ring := s.ring[i := s.ring[i].(busy := true)], owner := s.owner[i := Queued(|s.log|)],
         queue := s.queue[s.tail := job], tail := (s.tail + 1) % QUEUE, log := s.log + [job])
  }

  lemma IdleAlready(s: State, depth: nat)
    requires Inv(s, depth) && s.recv.Idle?
    ensures RecvToIdle(s, depth) == s
  {
    hide Inv;
  }

  function HandedOver(s: State): State
    requires Shape(s) && s.recv.Own? && s.pending > 0
  {
    Finish(AfterDispatch(s, HeadJob(s)), s.recv.back)
  }

  /** The state in which the thread has looked for room. */
  function Looked(s: State): (r: State)
    requires Shape(s) && s.recv.Own?
    ensures Shape(r)
  {
    var i := Head(s);
    var full := (s.tail + 1) % QUEUE == s.head;
    s.(ring := s.ring[i := s.ring[i].(busy := true)], owner := s.owner[i := Dispatching],
       recv := if full then Drop(s.recv.back) else Put(s.recv.back))
  }

  lemma LookedWhole(s: State, depth: nat)
    requires Shape(s) && s.recv.Own?
    ensures RecvStep(s, depth).recv.Load? && RecvStep(RecvStep(s, depth), depth) == Looked(s)
  {}

  /** The steps of one dispatch add up to the whole of it. */
  lemma DispatchedWhole(s: State, depth: nat)
    requires Shape(s) && s.recv.Own? && s.pending > 0
    ensures var r := Looked(s);
            if r.recv.Put? then RecvStep(r, depth).recv.Publish? && RecvStep(RecvStep(r, depth), depth) == HandedOver(s)
            else r.recv.Drop? && RecvStep(r, depth) == HandedOver(s)
  {
    var i, r := Head(s), Looked(s);
    var t := if r.recv.Put? then RecvStep(RecvStep(r, depth), depth) else RecvStep(r, depth);
    assert t.ring == HandedOver(s).ring && t.owner == HandedOver(s).owner;
  }

  lemma DispatchSteps(s: State, depth: nat)
    requires Inv(s, depth) && s.recv.Own?
    ensures Shape(s) && s.pending > 0
    ensures var t := HandedOver(s);
            Inv(t, depth) && RecvToIdle(t, depth) == RecvToIdle(s, depth) && Left(t) < Left(s)
  {
    hide Inv, RecvToIdle, Left, RecvStep, HandedOver, Looked;
    Unroll(s, depth);
    OwnPending(s, depth);
    LookedWhole(s, depth);
    DispatchedWhole(s, depth);
    Unroll(RecvStep(s, depth), depth);
    Unroll(Looked(s), depth);
    if Looked(s).recv.Put? { Unroll(RecvStep(Looked(s), depth), depth); }
  }

  lemma OwnPending(s: State, depth: nat)
    requires Inv(s, depth) && s.recv.Own?
    ensures s.pending > 0
  {
    hide Slots, Owners, QueueOk, SeenOk, LogOk, WorkerOk, Accounts, Dispatches, PutOk;
    assert s.nextU % RING in FilledSet(s.ring);
  }

  function Processed(s: State, j: Job): State
    requires Shape(s) && j.slab < RING && s.popped > 0
  {
    if j.hdr <= j.len then
      s.(owner := s.owner[j.slab := Held(s.popped - 1)], seen := s.seen + [(j, s.slab[j.slab])])
    else
      s.(ring := s.ring[j.slab := s.ring[j.slab].(busy := false)], owner := s.owner[j.slab := Free])
  }

  function FourSteps(s: State): State
    requires Shape(s)
  {
    WorkerStep(WorkerStep(WorkerStep(WorkerStep(s))))
  }

  lemma FourStepsInv(s: State, depth: nat)
    requires Inv(s, depth) && s.worker.Wait? && s.head != s.tail
    ensures Shape(s) && s.queue[s.head].slab < RING && Inv(FourSteps(s), depth)
    ensures var j := s.queue[s.head];
            FourSteps(s) == Processed(s.(head := (s.head + 1) % QUEUE, popped := s.popped + 1,
                                         owner := s.owner[j.slab := Running(s.popped)]), j)
  {
    hide Inv;
    InvShape(s, depth);
    FrontSlab(s, depth);
    var a := WorkerStep(s);
    StepInv(s, depth, LWork);
    var b := WorkerStep(a);
    StepInv(a, depth, LWork);
    var c := WorkerStep(b);
    StepInv(b, depth, LWork);
    StepInv(c, depth, LWork);
    assert c.owner == s.owner[s.queue[s.head].slab := Running(s.popped)];
  }

  lemma FrontSlab(s: State, depth: nat)
    requires Inv(s, depth) && s.head != s.tail
    ensures s.queue[s.head].slab < RING
  {
    hide Slots, Owners, SeenOk, WorkerOk, Accounts, Dispatches, PutOk, RecvOk, FilledSet;
    assert s.queue[(s.head + 0) % QUEUE] == s.log[s.popped];
  }
}
