/**
 For every jitter depth of two or more there is a run after which a datagram whose turn
 it is stays in the ring: the head is forced up to it by a datagram that is then dropped
 because its slab is not back yet, and nothing looks at the head again.
 */
module ReceiverStall {
  import opened ChainReader
  import opened JitterRing
  import opened JitterRuns
  import opened ReceiverProgress
  import opened FirstDatagram

  lemma On(depth: nat, s: State, l: Label) returns (t: State)
    requires Reached(depth, s) && Inv(s, depth)
    ensures Shape(s) && t == Step(s, depth, l) && Reached(depth, t) && Inv(t, depth)
  {
    hide Inv, Step, Reached;
    t := More(depth, s, l);
    StepInv(s, depth, l);
  }

  /** Only slot `only`, if any, is filled; the hook holds slab 0; the head is at `h`. */
  predicate Scene(s: State, h: nat, only: Option<nat>) {
    && Shape(s) && s.started && s.nextU == h
    && s.ring[0].busy && !s.ring[0].filled
    && forall i :: 0 <= i < RING && s.ring[i].filled ==>
         only.Some? && i == only.value % RING && s.ring[i].seqno == only.value
  }

  /** One turn of the force-advance loop while the head's number has not come. */
  lemma SkipOne(depth: nat, s: State, only: Option<nat>)
    requires Inv(s, depth) && s.recv.Advance? && s.recv.u < SEQ
    requires Scene(s, s.nextU, only) && s.nextU + depth <= s.recv.u + 1
    requires only.Some? ==> s.recv.u - depth < only.value < SEQ
    ensures var t := RecvStep(s, depth);
            if s.nextU + depth <= s.recv.u then t.recv == s.recv && t.ring == s.ring && Scene(t, s.nextU + 1, only)
            else t == s.(recv := Store(s.recv.d, s.recv.u))
  {
    hide Inv, Diff16;
    DiffLeft(s, depth);
    HeadSeq(s, depth);
    InvShape(s, depth);
    if s.nextU + depth <= s.recv.u { assert !HeadReady(s); }
  }

  /** A datagram far ahead moves the head over numbers that never came. */
  lemma {:induction false} Skip(depth: nat, s: State, only: Option<nat>) returns (t: State)
    requires Reached(depth, s) && Inv(s, depth) && s.recv.Advance? && s.recv.u < SEQ
    requires Scene(s, s.nextU, only) && s.nextU + depth <= s.recv.u + 1
    requires only.Some? ==> s.recv.u - depth < only.value < SEQ
    ensures Reached(depth, t) && Inv(t, depth) && t.recv == Store(s.recv.d, s.recv.u)
    ensures Scene(t, s.recv.u - depth + 1, only) && t.ring == s.ring
    decreases s.recv.u - s.nextU
  {
    hide Inv, RecvStep, Reached, DgramOk;
    InvShape(s, depth);
    SkipOne(depth, s, only);
    t := On(depth, s, LRecv);
    if s.nextU + depth <= s.recv.u { t := Skip(depth, t, only); }
  }

  lemma HeadSeq(s: State, depth: nat)
    requires Inv(s, depth)
    ensures s.nextSeq == s.nextU % SEQ
  {
    hide Slots, Owners, QueueOk, SeenOk, LogOk, WorkerOk, FilledSet, Dispatches, PutOk, RecvOk;
  }

  /** A datagram arrives at the idle thread, `u` being within half the number space of the head. */
  lemma Arrives(depth: nat, s: State, only: Option<nat>, u: nat) returns (t: State)
    requires Reached(depth, s) && Inv(s, depth) && s.recv.Idle? && Scene(s, s.nextU, only)
    requires s.nextU <= u < s.nextU + 32768 && u < SEQ
    ensures Reached(depth, t) && Inv(t, depth) && t.recv == Advance(Bare(u), u)
    ensures Scene(t, s.nextU, only) && t.ring == s.ring
  {
    hide Inv, Reached, Diff16, Bare;
    HeadSeq(s, depth);
    DiffIs(u, s.nextU);
    t := On(depth, s, LArrive(Bare(u)));
  }

  /** Arriving into an empty slot ahead of the head, the datagram is stored and stays. */
  lemma Stores(depth: nat, s: State, h: nat) returns (t: State)
    requires Reached(depth, s) && Inv(s, depth) && s.recv.Store? && s.recv.u == s.recv.d.seqno < SEQ
    requires Scene(s, h, None) && h < s.recv.u && s.recv.u % RING != 0
    requires !s.ring[s.recv.u % RING].busy
    ensures Reached(depth, t) && Inv(t, depth) && t.recv.Idle?
    ensures Scene(t, h, Some(s.recv.u)) && InRing(t.ring, s.recv.u)
  {
    hide Inv, Reached;
    var u := s.recv.u;
    var w := On(depth, s, LRecv);
    assert w == s.(recv := Write(s.recv.d, u));
    var r := On(depth, w, LRecv);
    var slot := Slot(true, u, s.recv.d.hdr, |s.recv.d.bytes|, false, u);
    assert r.recv.Release? && r.ring == s.ring[u % RING := slot] && r.nextU == h && r.started;
    HeadSeq(r, depth);
    t := ReleasesNothing(depth, r, h, u);
  }

  lemma ReleasesNothing(depth: nat, s: State, h: nat, u: nat) returns (t: State)
    requires Reached(depth, s) && Inv(s, depth) && s.recv.Release? && Scene(s, h, Some(u)) && h < u < SEQ
             && InRing(s.ring, u)
    ensures Reached(depth, t) && Inv(t, depth) && t == s.(recv := Idle)
  {
    hide Inv, Reached;
    HeadSeq(s, depth);
    assert !HeadReady(s);
    t := On(depth, s, LRecv);
  }

  /** The first datagram is queued and its slab away. */
  lemma FirstHeld(depth: nat) returns (t: State)
    requires 1 <= depth <= RING
    ensures Reached(depth, t) && Inv(t, depth) && t.recv.Idle? && Scene(t, 1, None) && RestFree(t.ring)
  {
    t := FirstOut(depth);
    var ls :| Run(depth, ls) == t;
    hide Inv, Run;
    RunInv(depth, ls);
  }

  /** The number that maps just above slab 0 when the window ends at twice the ring. */
  function Later(depth: nat): (u: nat)
    requires 2 <= depth <= RING
    ensures u == 2 * RING - depth + 1 && u % RING == u - RING != 0 && 1 + depth <= u + 1 && u < SEQ
  {
    2 * RING - depth + 1
  }

  /** A later number is stored ahead of the head. */
  lemma SecondStored(depth: nat) returns (t: State)
    requires 2 <= depth <= RING
    ensures Reached(depth, t) && Inv(t, depth) && t.recv.Idle?
    ensures Scene(t, Later(depth) - depth + 1, Some(Later(depth))) && InRing(t.ring, Later(depth))
  {
    hide Inv, Reached, Later;
    var u := Later(depth);
    var s := FirstHeld(depth);
    assert !s.ring[u % RING].busy;
    hide RestFree;
    var a := Arrives(depth, s, None, u);
    hide Scene;
    var b := Skip(depth, a, None);
    t := Stores(depth, b, u - depth + 1);
  }

  /** Depth two or more: some run leaves the receive thread idle in front of a ready head. */
  lemma {:induction false} SomeRunStalls(depth: nat) returns (ls: seq<Label>)
    requires 2 <= depth <= RING
    ensures var s := Run(depth, ls); s.recv.Idle? && HeadReady(s)
  {
    hide Inv, Later, Run, HeadReady;
    var u1, u2 := Later(depth), 2 * RING;
    var s := SecondStored(depth);
    assert s.nextU == u1 - depth + 1;
    hide Scene, InRing;
    var a := Arrives(depth, s, Some(u1), u2);
    var b := Skip(depth, a, Some(u1));
    var t := Stalls(depth, b, u1);
    ls :| Run(depth, ls) == t;
  }

  lemma Stalls(depth: nat, s: State, u1: nat) returns (t: State)
    requires Reached(depth, s) && Inv(s, depth) && s.recv.Store? && s.recv.d.seqno == 2 * RING
    requires Scene(s, u1, Some(u1)) && InRing(s.ring, u1) && u1 < SEQ
    ensures Reached(depth, t) && t.recv.Idle? && Shape(t) && HeadReady(t)
  {
    hide Inv, Reached;
    HeadSeq(s, depth);
    t := On(depth, s, LRecv);
  }

  /** With depth one the window is the head alone, so a datagram dropped at the head leaves nothing ready there. */
  lemma DepthOneNeverStalls(ls: seq<Label>)
    ensures var s := Run(1, ls); Tidy(s) && (s.recv.Idle? ==> !HeadReady(s))
  {
    hide Inv, Init, Step, Tidy;
    if ls == [] {
      InitTidy();
    } else {
      var before := ls[..|ls| - 1];
      DepthOneNeverStalls(before);
      RunInv(1, before);
      var s := Run(1, before);
      OnlyHead(s);
      TidyStep(s, 1, ls[|ls| - 1]);
    }
    IdleTidy(Run(1, ls));
  }

  lemma OnlyHead(s: State)
    requires Inv(s, 1)
    ensures !DropsBusyOverWaiting(s)
  {
    hide Slots, Owners, QueueOk, SeenOk, LogOk, WorkerOk, FilledSet, Dispatches, PutOk;
    HeadSeq(s, 1);
    if s.recv.Store? { assert s.recv.d.seqno == s.nextSeq; }
  }

  lemma IdleTidy(s: State)
    requires Shape(s) && Tidy(s)
    ensures s.recv.Idle? ==> !HeadReady(s)
  {}

  /**
   Nothing deliverable ever waits at an idle receive thread, whatever happens, exactly when the
   jitter depth is one.
   */
  lemma {:induction false} PromptIffDepthOne(depth: nat)
    requires 1 <= depth <= RING
    ensures depth == 1 <==> forall ls :: Run(depth, ls).recv.Idle? ==> !HeadReady(Run(depth, ls))
  {
    hide Run;
    if depth == 1 {
      forall ls: seq<Label> ensures Run(1, ls).recv.Idle? ==> !HeadReady(Run(1, ls)) { DepthOneNeverStalls(ls); }
    } else {
      var ls := SomeRunStalls(depth);
    }
  }
}
