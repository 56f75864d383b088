/**
 Why the jitter depth may not exceed the ring: beyond it two numbers of one window share
 a slot, the later one is counted lost when it arrives and again when the head passes it.
 */
module DepthLimit {
  import opened JitterRing
  import opened JitterRuns
  import opened FirstDatagram

  predicate Accounted(s: State) {
    s.nextU - s.startU == |s.log| + s.fullDrops + s.lost
  }

  /** Number 3 is in the ring; numbers 1 and 2 have not come. */
  predicate ThreeWaits(s: State) {
    && Shape(s) && s.started && s.startU == 0 && s.fullDrops == 0 && |s.log| == 1
    && 1 <= s.nextU == s.nextSeq <= 3 && s.lost == s.nextU - 1
    && s.ring[3].filled && s.ring[3].seqno == 3 && !s.ring[1].filled && !s.ring[2].filled
  }

  lemma ThirdStored(depth: nat) returns (t: State)
    requires RING < depth < 32768
    ensures Reached(depth, t) && t.recv.Idle? && ThreeWaits(t) && t.nextU == 1
  {
    hide Reached, Bare;
    var d := Bare(3);
    var s := FirstOut(depth);
    t := More(depth, s, LArrive(d));
    assert t == s.(recv := Advance(d, 3));
    t := More(depth, t, LRecv);
    assert t == s.(recv := Store(d, 3));
    t := More(depth, t, LRecv);
    assert t == s.(recv := Write(d, 3));
    t := More(depth, t, LRecv);
    assert t.recv == Release && ThreeWaits(t);
    t := More(depth, t, LRecv);
  }

  /** One turn of the force-advance loop, or its end. */
  lemma Turn(depth: nat, s: State) returns (t: State)
    requires RING < depth < 32768 && Reached(depth, s) && ThreeWaits(s)
    requires s.recv == Advance(Bare(RING + 3), RING + 3)
    ensures Reached(depth, t) && ThreeWaits(t)
    ensures if RING + 3 - s.nextU >= depth then t.recv == s.recv && t.nextU == s.nextU + 1
            else t.recv == Store(Bare(RING + 3), RING + 3)
  {
    hide Reached, Bare;
    t := More(depth, s, LRecv);
  }

  lemma {:induction false} SomeRunMiscounts(depth: nat) returns (ls: seq<Label>)
    requires RING < depth < 32768
    ensures !Accounted(Run(depth, ls))
  {
    var d := Bare(RING + 3);
    var s := ThirdStored(depth);
    var t := More(depth, s, LArrive(d));
    hide Run, Step, Bare;
    assert t == s.(recv := Advance(d, RING + 3));
    t := Turn(depth, t);
    if t.recv.Advance? { t := Turn(depth, t); }
    if t.recv.Advance? { t := Turn(depth, t); }
    var u := Aliased(depth, t);
    ls :| Run(depth, ls) == u;
  }

  lemma Aliased(depth: nat, s: State) returns (t: State)
    requires Reached(depth, s) && ThreeWaits(s) && s.recv == Store(Bare(RING + 3), RING + 3)
    ensures Reached(depth, t) && !Accounted(t)
  {
    hide Reached, Bare;
    t := More(depth, s, LRecv);
  }

  /**
   Among depths a signed sixteen-bit comparison can hold, the accounts balance in every run
   exactly up to the ring's size.
   */
  lemma {:induction false} AccountsIffDepthFits(depth: nat)
    requires 1 <= depth < 32768
    ensures depth <= RING <==> forall ls :: Accounted(Run(depth, ls))
  {
    hide Run;
    if depth <= RING {
      forall ls: seq<Label> ensures Accounted(Run(depth, ls)) { WindowAndAccounts(depth, ls); }
    } else {
      var ls := SomeRunMiscounts(depth);
    }
  }
}
