/** The run in which the first datagram, number 0, is received, released and queued; for any jitter depth. */
module FirstDatagram {
  import opened JitterRing

  ghost predicate Reached(depth: nat, s: State) {
    exists ls :: Run(depth, ls) == s
  }

  lemma More(depth: nat, s: State, l: Label) returns (t: State)
    requires Reached(depth, s)
    ensures Shape(s) && t == Step(s, depth, l) && Reached(depth, t)
  {
    hide Step;
    var ls :| Run(depth, ls) == s;
    t := Step(s, depth, l);
    var more := ls + [l];
    assert more[..|more| - 1] == ls;
    assert Run(depth, more) == t;
  }

  lemma InitReached(depth: nat)
    ensures Reached(depth, Init())
  {
    hide Init;
    assert Run(depth, []) == Init();
  }

  /** Every slot but the first is empty and free. */
  predicate RestFree(ring: seq<Slot>) {
    |ring| == RING && forall i :: 0 < i < RING ==> !ring[i].filled && !ring[i].busy
  }

  /** Nothing has been lost or dropped since the start at number 0. */
  predicate Nothing(s: State) {
    s.started && s.startU == 0 && s.lost == 0 && s.fullDrops == 0
  }

  lemma FirstStored(depth: nat) returns (t: State)
    requires depth >= 1
    ensures Reached(depth, t) && Nothing(t) && t.recv.Release? && t.head == t.tail == 0 && t.log == []
    ensures Shape(t) && t.nextU == t.nextSeq == 0 && t.pending == 1 && RestFree(t.ring)
    ensures t.ring[0].filled && t.ring[0].seqno == 0
  {
    hide Reached, Blank, Bare;
    var d := Bare(0);
    var s := Init();
    InitReached(depth);
    t := More(depth, s, LArrive(d));
    assert t == s.(started := true, recv := Advance(d, 0));
    t := More(depth, t, LRecv);
    assert t == s.(started := true, recv := Store(d, 0));
    t := More(depth, t, LRecv);
    assert t == s.(started := true, recv := Write(d, 0));
    t := More(depth, t, LRecv);
  }

  lemma FirstOut(depth: nat) returns (t: State)
    requires depth >= 1
    ensures Reached(depth, t) && Nothing(t) && t.recv.Idle? && |t.log| == 1
    ensures Shape(t) && t.nextU == t.nextSeq == 1 && RestFree(t.ring) && t.ring[0].busy && !t.ring[0].filled
  {
    hide Reached;
    t := FirstStored(depth);
    t := More(depth, t, LRecv);
    assert t.recv == Own(ToRelease) && RestFree(t.ring) && Nothing(t) && t.pending == 1 && Head(t) == 0;
    t := More(depth, t, LRecv);
    assert t.recv == Load(ToRelease) && RestFree(t.ring) && Nothing(t) && t.pending == 1 && Head(t) == 0
           && t.ring[0].busy;
    t := More(depth, t, LRecv);
    assert t.recv == Put(ToRelease) && RestFree(t.ring) && Nothing(t) && t.pending == 1 && Head(t) == 0
           && t.ring[0].busy;
    t := More(depth, t, LRecv);
    assert t.recv == Publish(ToRelease) && RestFree(t.ring) && Nothing(t) && t.pending == 1 && Head(t) == 0
           && t.ring[0].busy;
    t := More(depth, t, LRecv);
    assert t.recv == Release && RestFree(t.ring) && Nothing(t) && t.pending == 0 && t.nextU == 1 && t.ring[0].busy;
    t := More(depth, t, LRecv);
  }
}
