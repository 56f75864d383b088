/**
 What one call does on a frame some of whose packets arrive damaged, exactly: which precincts it
 reads, where it goes on after one that fails, which it calls back, and when it fails as a whole.
 The frame, its damage and the signals are as in `DamagedFrames`, with signals in byte order.
 */
module DamagedCalls {
  import opened Bytes
  import opened ChainReader
  import opened PacketHeader
  import opened TileHandler
  import opened TileRuns
  import opened DamagedFrames

  predicate ByteOrder(q: seq<Signal>) {
    forall i, j :: 0 <= i < j < |q| ==> q[i].off <= q[j].off
  }

  /** The offset of the last signal; the start of the bytes if there is none. */
  function LastOff(q: seq<Signal>): nat {
    if q == [] then 0 else q[|q| - 1].off
  }

  /** Signal `s` is the nearest one past `pos`. */
  predicate Nearest(q: seq<Signal>, pos: nat, s: Signal) {
    s in q && s.off > pos && forall i :: 0 <= i < |q| && q[i].off > pos ==> s.off <= q[i].off
  }

  predicate NonePastIn(q: seq<Signal>, pos: nat) {
    forall i :: 0 <= i < |q| ==> q[i].off <= pos
  }

  /**
   From precinct `k` the walk goes on with `j`: the next one, or after a failure the one the
   nearest signal is for.
   */
  predicate GoesOn(l: Layout, data: seq<byte>, t0: Tile, got: seq<byte>, q: seq<Signal>, k: nat, j: nat)
    requires Good(l, t0) && t0.idx == 0 && k < |l.crp|
  {
    var r := ReadAt(l, data, t0, got, k);
    if r.ok then j == k + 1
    else j < |l.crp| && Nearest(q, r.rd.pos, Signal(StartOf(l, data, t0, j), PidOf(l, j)))
  }

  /** The precincts a call reads one after the other; the last is where it stops. */
  predicate Chain(l: Layout, data: seq<byte>, t0: Tile, got: seq<byte>, q: seq<Signal>, path: seq<nat>)
    requires Good(l, t0) && t0.idx == 0
  {
    && path != [] && path[|path| - 1] <= |l.crp|
    && forall i :: 0 <= i < |path| - 1 ==> path[i] < |l.crp| && GoesOn(l, data, t0, got, q, path[i], path[i + 1])
  }

  /** The callback for precinct `k` as it is read from `got`, if it can be read. */
  function CallOf(l: Layout, data: seq<byte>, t0: Tile, got: seq<byte>, k: nat): seq<Callback>
    requires Good(l, t0) && t0.idx == 0
  {
    if k >= |l.crp| then []
    else
      var r := ReadAt(l, data, t0, got, k);
      if r.ok then [Callback(k, l.crp[k], t0.store[l.crp[k]].(blocks := r.blocks))] else []
  }

  /** The callbacks of the precincts read. */
  function CallsOf(l: Layout, data: seq<byte>, t0: Tile, got: seq<byte>, ks: seq<nat>): seq<Callback>
    requires Good(l, t0) && t0.idx == 0
  {
    if ks == [] then [] else CallOf(l, data, t0, got, ks[0]) + CallsOf(l, data, t0, got, ks[1..])
  }

  /** The signals still queued are the last of `q`; those gone lie at or before the cursor. */
  predicate Rest(q: seq<Signal>, r: seq<Signal>, pos: nat) {
    |r| <= |q| && r == q[|q| - |r|..] && forall i :: 0 <= i < |q| - |r| ==> q[i].off <= pos
  }

  lemma RestLast(q: seq<Signal>, r: seq<Signal>, pos: nat)
    requires ByteOrder(q) && Rest(q, r, pos)
    ensures r != [] && pos < LastOff(r) <==> pos < LastOff(q)
    ensures LastOff(q) == LastOff(r) || pos >= LastOff(q)
  {
    if r == [] && q != [] { assert q[|q| - 1].off <= pos; }
  }

  /** Recovery with true signals in byte order lands at the nearest one past the cursor, or finds none. */
  lemma {:induction false} RecoversNearest(l: Layout, data: seq<byte>, t0: Tile, have: nat, t: Tile, k: nat,
                                           q: seq<Signal>)
    requires Good(l, t0) && Sent(l, data, t0) && Good(l, t) && k < |l.crp| && k <= t.idx <= k + 1
    requires Untouched(l, t0, t, k + 1) && TrueSignals(l, data, t0, have, t.signals)
    requires t.rd.pos >= StartOf(l, data, t0, k) && ByteOrder(q) && Rest(q, t.signals, StartOf(l, data, t0, k))
    ensures var (ok, t') := TryRecover(l, t);
            && t'.calls == t.calls
            && (ok ==> && k < t'.idx < |l.crp| && Aligned(l, data, t0, have, t') && Rest(q, t'.signals, t'.rd.pos)
                       && Nearest(q, t.rd.pos, Signal(t'.rd.pos, PidOf(l, t'.idx))))
            && (!ok ==> NonePastIn(q, t.rd.pos))
  {
    SentIdx(l, data, t0);
    hide StartOf, PidOf, Sent, Good, Aligned, TrueSignals, Untouched, TryRecover, ByteOrder, Rest, Nearest;
    RecoversInStep(l, data, t0, have, t, k);
    DroppedRest(q, t.signals, StartOf(l, data, t0, k), t.rd.pos);
    if DropPassed(t.signals, t.rd.pos) == [] {
      NonePast(t.signals, t.rd.pos);
    } else {
      LandsAtFront(l, data, t0, have, t, k);
      AlignedAt(l, data, t0, have, TryRecover(l, t).1);
    }
  }

  /** What is left past `pos` of the rest of a queue in byte order: its front is the nearest, and it is popped next. */
  lemma DroppedRest(q: seq<Signal>, r: seq<Signal>, was: nat, pos: nat)
    requires ByteOrder(q) && Rest(q, r, was) && was <= pos
    ensures var d := DropPassed(r, pos);
            && (d == [] ==> NonePastIn(q, pos))
            && (d != [] ==> Nearest(q, pos, d[0]) && Rest(q, d[1..], d[0].off))
  {
    var d := DropPassed(r, pos);
    DropPassedLast(r, pos);
    DropPassedGone(r, pos);
    var m := |q| - |d|;
    forall i | 0 <= i < m ensures q[i].off <= pos {
      if i >= |q| - |r| { assert q[i] == r[i - (|q| - |r|)]; }
    }
    assert d == q[m..];
    if d != [] {
      assert d[0] == q[m] && d[1..] == q[m + 1..];
    }
  }

  lemma {:induction false} DropPassedGone(q: seq<Signal>, pos: nat)
    ensures var r := DropPassed(q, pos);
            && |r| <= |q| && (forall i :: 0 <= i < |q| - |r| ==> q[i].off <= pos)
            && (r != [] ==> r[0].off > pos)
  {
    if q != [] && q[0].off <= pos {
      DropPassedGone(q[1..], pos);
      var r := DropPassed(q, pos);
      forall i | 0 <= i < |q| - |r| ensures q[i].off <= pos { if i > 0 { assert q[i] == q[1..][i - 1]; } }
    }
  }

  /** The signal at the front is the one recovery takes, and it names the precinct it lands on. */
  lemma LandsAtFront(l: Layout, data: seq<byte>, t0: Tile, have: nat, t: Tile, k: nat)
    requires Good(l, t0) && Sent(l, data, t0) && Good(l, t) && k < |l.crp| && k <= t.idx <= k + 1
    requires Untouched(l, t0, t, k + 1) && TrueSignals(l, data, t0, have, t.signals)
    requires t.rd.pos >= StartOf(l, data, t0, k) && DropPassed(t.signals, t.rd.pos) != []
    ensures var (ok, t') := TryRecover(l, t);
            var q := DropPassed(t.signals, t.rd.pos);
            ok && t'.idx < |l.crp| && q[0] == Signal(t'.rd.pos, PidOf(l, t'.idx)) && t'.signals == q[1..]
  {
    hide StartOf, PidOf, WellFormed, StoreOk;
    var q := DropPassed(t.signals, t.rd.pos);
    DropPassedLast(t.signals, t.rd.pos);
    DropPassedPasses(t.signals, t.rd.pos);
    assert q[0] == t.signals[|t.signals| - |q|];
    RecoversInStep(l, data, t0, have, t, k);
    PidBijection(l, 0, q[0].pid);
  }

  // ---------------------------------------------------------------- one turn of a call

  /** A turn that succeeds is in step at the next precinct, and calls back what it read. */
  lemma {:induction false} TurnCalls(l: Layout, data: seq<byte>, t0: Tile, rx: seq<byte>, n: nat, t: Tile)
    requires Good(l, t0) && Sent(l, data, t0) && AllHonest(l, data, t0, rx) && n <= |rx|
    requires Aligned(l, data, t0, n, t) && t.idx < |l.crp| && StartOf(l, data, t0, t.idx + 1) <= n
    requires ReadAt(l, data, t0, rx[..n], t.idx).ok
    ensures ParseOne(l, rx[..n], t).0
    ensures var t2 := Report(l, ParseOne(l, rx[..n], t).1);
            && Aligned(l, data, t0, n, t2) && t2.idx == t.idx + 1 && t2.signals == t.signals
            && t2.calls == t.calls + CallOf(l, data, t0, rx[..n], t.idx)
  {
    hide Sent, StartOf, ReadAt, Aligned, HonestIn, Good, ReadPacket;
    SentIdx(l, data, t0);
    AlignedGood(l, data, t0, n, t);
    TurnReads(l, data, t0, rx[..n], t);
    assert Honest(l, data, t0, rx, t.idx);
    ReadsOn(l, data, t0, rx[..n], t);
  }

  /** A turn that fails leaves the tile as recovery needs it. */
  lemma FailedTurnReads(l: Layout, data: seq<byte>, t0: Tile, have: nat, got: seq<byte>, t: Tile)
    requires Good(l, t0) && Sent(l, data, t0) && |got| == have && Aligned(l, data, t0, have, t) && t.idx < |l.crp|
    requires !ReadAt(l, data, t0, got, t.idx).ok
    ensures var (ok, t1) := ParseOne(l, got, t);
            && !ok && t1.rd == ReadAt(l, data, t0, got, t.idx).rd && t1.signals == t.signals && t1.calls == t.calls
            && t1.idx == t.idx && Good(l, t1) && Untouched(l, t0, t1, t.idx + 1)
            && TrueSignals(l, data, t0, have, t1.signals) && t1.rd.pos >= StartOf(l, data, t0, t.idx)
  {
    hide Sent, StartOf, ReadAt, Aligned, Good, ReadPacket, Untouched, TrueSignals;
    SentIdx(l, data, t0);
    AlignedGood(l, data, t0, have, t);
    TurnReads(l, data, t0, got, t);
    FailedTurn(l, data, t0, have, got, t);
  }

  lemma AlignedAt(l: Layout, data: seq<byte>, t0: Tile, have: nat, t: Tile)
    requires Good(l, t0) && t0.idx == 0 && Aligned(l, data, t0, have, t)
    ensures t.idx <= |l.crp| && t.rd.pos == StartOf(l, data, t0, t.idx)
  {}

  /** One more precinct in front of a chain. */
  lemma ChainFront(l: Layout, data: seq<byte>, t0: Tile, got: seq<byte>, q: seq<Signal>, k: nat, path: seq<nat>)
    requires Good(l, t0) && t0.idx == 0 && k < |l.crp| && Chain(l, data, t0, got, q, path)
    requires GoesOn(l, data, t0, got, q, k, path[0])
    ensures Chain(l, data, t0, got, q, [k] + path)
    ensures CallsOf(l, data, t0, got, ([k] + path)[..|path|])
         == CallOf(l, data, t0, got, k) + CallsOf(l, data, t0, got, path[..|path| - 1])
  {
    hide Good, GoesOn, CallOf;
    var all := [k] + path;
    forall i | 0 <= i < |all| - 1 ensures all[i] < |l.crp| && GoesOn(l, data, t0, got, q, all[i], all[i + 1]) {
      if i > 0 { assert all[i] == path[i - 1] && all[i + 1] == path[i]; }
    }
    assert all[..|path|][1..] == path[..|path| - 1];
  }

  lemma ChainEnd(l: Layout, data: seq<byte>, t0: Tile, got: seq<byte>, q: seq<Signal>, k: nat)
    requires Good(l, t0) && t0.idx == 0 && k <= |l.crp|
    ensures Chain(l, data, t0, got, q, [k]) && CallsOf(l, data, t0, got, [k][..0]) == []
  {}

  /** The precincts but the last lie before the last signal. */
  predicate Gated(l: Layout, data: seq<byte>, t0: Tile, q: seq<Signal>, path: seq<nat>)
    requires Good(l, t0) && t0.idx == 0
  {
    forall i :: 0 <= i < |path| - 1 ==> path[i] <= |l.crp| && StartOf(l, data, t0, path[i]) < LastOff(q)
  }

  /** How a parse call ends, `k` being the last precinct of its path. */
  predicate ParseEnds(l: Layout, data: seq<byte>, t0: Tile, got: seq<byte>, q: seq<Signal>, k: nat, o: Outcome, t: Tile)
    requires Good(l, t0) && t0.idx == 0 && k <= |l.crp|
  {
    var at := StartOf(l, data, t0, k);
    if at >= LastOff(q) then o == Ok && t.idx == k && t.rd.pos == at
    else
      && o == Failed && k < |l.crp| && !ReadAt(l, data, t0, got, k).ok
      && ReadAt(l, data, t0, got, k).rd.pos >= LastOff(q)
  }

  lemma {:induction false} ParsePath(l: Layout, data: seq<byte>, t0: Tile, rx: seq<byte>, n: nat, t: Tile,
                                     q: seq<Signal>)
    returns (path: seq<nat>)
    requires Good(l, t0) && Sent(l, data, t0) && AllHonest(l, data, t0, rx) && n <= |rx|
    requires Aligned(l, data, t0, n, t) && ByteOrder(q) && Rest(q, t.signals, t.rd.pos)
    ensures Good(l, t) && Chain(l, data, t0, rx[..n], q, path) && path[0] == t.idx && Gated(l, data, t0, q, path)
    ensures var (o, t') := Parse(l, rx[..n], t);
            && ParseEnds(l, data, t0, rx[..n], q, path[|path| - 1], o, t')
            && t'.calls == t.calls + CallsOf(l, data, t0, rx[..n], path[..|path| - 1])
    decreases |l.crp| - t.idx
  {
    hide Sent, Good, AllHonest, StartOf, ReadAt, ParseOne, Report, TryRecover, CallOf, CallsOf, ByteOrder, Rest;
    hide Untouched, TrueSignals;
    SentIdx(l, data, t0);
    AlignedGood(l, data, t0, n, t);
    AlignedAt(l, data, t0, n, t);
    RestLast(q, t.signals, t.rd.pos);
    var got := rx[..n];
    if !Gate(t) {
      path := [t.idx];
      ChainEnd(l, data, t0, got, q, t.idx);
    } else {
      GateInside(l, data, t0, n, t);
      hide Aligned, Gate, Chain;
      if ReadAt(l, data, t0, got, t.idx).ok {
        TurnCalls(l, data, t0, rx, n, t);
        var t2 := Report(l, ParseOne(l, got, t).1);
        AlignedAt(l, data, t0, n, t2);
        StartsRise(l, data, t0, t.idx, t2.idx);
        RestStays(q, t.signals, t.rd.pos, t2.rd.pos);
        var rest := ParsePath(l, data, t0, rx, n, t2, q);
        path := Prepend(l, data, t0, got, q, t.idx, rest);
      } else {
        FailedTurnReads(l, data, t0, n, got, t);
        var t1 := ParseOne(l, got, t).1;
        var t2 := t1.(idx := t1.idx + 1);
        StillGood(l, t0, t1, t2, t.idx + 1);
        RecoversNearest(l, data, t0, n, t2, t.idx, q);
        var (recovered, t3) := TryRecover(l, t2);
        if recovered {
          AlignedAt(l, data, t0, n, t3);
          NoCall(l, data, t0, got, t.idx);
          var rest := ParsePath(l, data, t0, rx, n, t3, q);
          path := Prepend(l, data, t0, got, q, t.idx, rest);
        } else {
          path := [t.idx];
          ChainEnd(l, data, t0, got, q, t.idx);
          NoneLast(q, t1.rd.pos);
        }
      }
    }
  }

  lemma NoneLast(q: seq<Signal>, pos: nat)
    requires NonePastIn(q, pos)
    ensures LastOff(q) <= pos
  {}

  lemma NoCall(l: Layout, data: seq<byte>, t0: Tile, got: seq<byte>, k: nat)
    requires Good(l, t0) && t0.idx == 0 && k < |l.crp| && !ReadAt(l, data, t0, got, k).ok
    ensures CallOf(l, data, t0, got, k) == []
  {}

  lemma RestStays(q: seq<Signal>, r: seq<Signal>, pos: nat, pos': nat)
    requires Rest(q, r, pos) && pos <= pos'
    ensures Rest(q, r, pos')
  {}

  lemma Prepend(l: Layout, data: seq<byte>, t0: Tile, got: seq<byte>, q: seq<Signal>, k: nat, rest: seq<nat>)
    returns (path: seq<nat>)
    requires Good(l, t0) && t0.idx == 0 && k < |l.crp| && Chain(l, data, t0, got, q, rest)
    requires GoesOn(l, data, t0, got, q, k, rest[0])
    ensures path == [k] + rest && Chain(l, data, t0, got, q, path) && path[|path| - 1] == rest[|rest| - 1]
    ensures CallsOf(l, data, t0, got, path[..|path| - 1])
         == CallOf(l, data, t0, got, k) + CallsOf(l, data, t0, got, rest[..|rest| - 1])
    ensures StartOf(l, data, t0, k) < LastOff(q) && Gated(l, data, t0, q, rest) ==> Gated(l, data, t0, q, path)
  {
    hide Good, GoesOn, CallOf, StartOf;
    ChainFront(l, data, t0, got, q, k, rest);
    path := [k] + rest;
    if StartOf(l, data, t0, k) < LastOff(q) && Gated(l, data, t0, q, rest) {
      forall i | 0 <= i < |path| - 1 ensures path[i] <= |l.crp| && StartOf(l, data, t0, path[i]) < LastOff(q) {
        if i > 0 { assert path[i] == rest[i - 1]; }
      }
    }
  }

  /** Precinct `k` cannot be read, and no signal lies past where reading it stopped. */
  predicate Stuck(l: Layout, data: seq<byte>, t0: Tile, got: seq<byte>, q: seq<Signal>, k: nat)
    requires Good(l, t0) && t0.idx == 0
  {
    && k < |l.crp| && !ReadAt(l, data, t0, got, k).ok
    && NonePastIn(q, ReadAt(l, data, t0, got, k).rd.pos)
  }

  /**
   A parse call, exactly.  It reads a chain of precincts while they start before the last signal:
   after one that can be read the next, after one that cannot the one the nearest signal past the
   failure is for.  It fails if and only if some precinct of the chain cannot be read and has no
   signal past it; otherwise it succeeds, at the end of the chain, at or behind the last signal.
   It calls back exactly the precincts of the chain that can be read, in order, those that arrived
   as they were sent.
   */
  lemma {:induction false} ParseOutcome(l: Layout, data: seq<byte>, t0: Tile, rx: seq<byte>, n: nat, t: Tile)
    returns (path: seq<nat>)
    requires Good(l, t0) && Sent(l, data, t0) && AllHonest(l, data, t0, rx) && n <= |rx|
    requires Aligned(l, data, t0, n, t) && ByteOrder(t.signals)
    ensures Good(l, t) && Chain(l, data, t0, rx[..n], t.signals, path) && path[0] == t.idx
    ensures Gated(l, data, t0, t.signals, path)
    ensures var (o, t') := Parse(l, rx[..n], t);
            && (o == Ok || o == Failed)
            && (o == Failed <==> exists i :: 0 <= i < |path| && Stuck(l, data, t0, rx[..n], t.signals, path[i])
                                             && StartOf(l, data, t0, path[i]) < LastOff(t.signals))
            && (o == Ok <==> StartOf(l, data, t0, path[|path| - 1]) >= LastOff(t.signals))
            && (o == Ok ==> t'.idx == path[|path| - 1] && t'.rd.pos == StartOf(l, data, t0, t'.idx))
            && t'.calls == t.calls + CallsOf(l, data, t0, rx[..n], path[..|path| - 1])
    ensures forall i :: 0 <= i < |path| && path[i] < |l.crp| && Arrived(l, data, t0, rx[..n], path[i])
                        && StartOf(l, data, t0, path[i]) < LastOff(t.signals) ==>
              SentCall(l, data, t0, path[i]) in Parse(l, rx[..n], t).1.calls
  {
    hide Good, Sent, AllHonest, Aligned, Arrived, SentCall, Parse, CallsOf, StartOf, ReadAt;
    SentIdx(l, data, t0);
    AlignedGood(l, data, t0, n, t);
    var got := rx[..n];
    path := ParsePath(l, data, t0, rx, n, t, t.signals);
    var e := path[|path| - 1];
    var (o, t') := Parse(l, got, t);
    if o == Failed { LastFar(t.signals, ReadAt(l, data, t0, got, e).rd.pos); }
    if i :| 0 <= i < |path| && Stuck(l, data, t0, got, t.signals, path[i])
            && StartOf(l, data, t0, path[i]) < LastOff(t.signals) {
      StuckIsLast(l, data, t0, got, t.signals, path, i);
    }
    forall i | 0 <= i < |path| && path[i] < |l.crp| && Arrived(l, data, t0, got, path[i])
               && StartOf(l, data, t0, path[i]) < LastOff(t.signals)
      ensures SentCall(l, data, t0, path[i]) in t'.calls
    {
      ArrivedCalls(l, data, t0, got, path[i]);
      CallAmong(l, data, t0, got, path[..|path| - 1], i);
    }
  }

  lemma LastFar(q: seq<Signal>, pos: nat)
    requires ByteOrder(q) && LastOff(q) <= pos
    ensures NonePastIn(q, pos)
  {}

  /** Nothing comes after a precinct that is stuck. */
  lemma StuckIsLast(l: Layout, data: seq<byte>, t0: Tile, got: seq<byte>, q: seq<Signal>, path: seq<nat>, i: nat)
    requires Good(l, t0) && t0.idx == 0 && Chain(l, data, t0, got, q, path) && i < |path|
    ensures Stuck(l, data, t0, got, q, path[i]) ==> i == |path| - 1
  {
    hide Good, StartOf, ReadAt, PidOf;
    if i < |path| - 1 { assert GoesOn(l, data, t0, got, q, path[i], path[i + 1]); }
  }

  lemma ArrivedCalls(l: Layout, data: seq<byte>, t0: Tile, got: seq<byte>, k: nat)
    requires Good(l, t0) && Sent(l, data, t0) && k < |l.crp| && Arrived(l, data, t0, got, k)
    ensures ReadAt(l, data, t0, got, k).ok && CallOf(l, data, t0, got, k) == [SentCall(l, data, t0, k)]
  {
    hide Good, Sent, Arrived, ReadAt;
    SentIdx(l, data, t0);
    ArrivedReads(l, data, t0, got, k);
    SentPacket(l, data, t0, k);
  }

  lemma {:induction false} CallAmong(l: Layout, data: seq<byte>, t0: Tile, got: seq<byte>, ks: seq<nat>, i: nat)
    requires Good(l, t0) && t0.idx == 0 && i < |ks|
    ensures forall c :: c in CallOf(l, data, t0, got, ks[i]) ==> c in CallsOf(l, data, t0, got, ks)
  {
    hide Good, CallOf;
    if i > 0 {
      CallAmong(l, data, t0, got, ks[1..], i - 1);
      assert ks[1..][i - 1] == ks[i];
    }
  }

  // ------------------------------------------------------------------------- the flush

  /** How a flush ends, `k` being the last precinct of its path. */
  predicate FlushEnds(l: Layout, data: seq<byte>, t0: Tile, got: seq<byte>, q: seq<Signal>, k: nat, o: Outcome, t: Tile)
    requires Good(l, t0) && t0.idx == 0 && k <= |l.crp|
  {
    if k == |l.crp| then o == Ok && t.idx == k && t.rd.pos == StartOf(l, data, t0, k)
    else o == Failed && Stuck(l, data, t0, got, q, k)
  }

  lemma {:induction false} FlushPath(l: Layout, data: seq<byte>, t0: Tile, rx: seq<byte>, t: Tile, q: seq<Signal>)
    returns (path: seq<nat>)
    requires Good(l, t0) && Sent(l, data, t0) && AllHonest(l, data, t0, rx) && |rx| == |data|
    requires Aligned(l, data, t0, |rx|, t) && ByteOrder(q) && Rest(q, t.signals, t.rd.pos)
    ensures Good(l, t) && Chain(l, data, t0, rx, q, path) && path[0] == t.idx
    ensures var (o, t') := Flush(l, rx, t);
            && FlushEnds(l, data, t0, rx, q, path[|path| - 1], o, t')
            && t'.calls == t.calls + CallsOf(l, data, t0, rx, path[..|path| - 1])
    decreases |l.crp| - t.idx
  {
    hide Sent, Good, AllHonest, StartOf, ReadAt, ParseOne, Report, TryRecover, CallOf, CallsOf, ByteOrder, Rest;
    hide Untouched, TrueSignals, Aligned, Chain, NonePastIn;
    SentIdx(l, data, t0);
    AlignedGood(l, data, t0, |rx|, t);
    AlignedAt(l, data, t0, |rx|, t);
    assert rx[..|rx|] == rx;
    if t.idx == |l.crp| {
      path := [t.idx];
      ChainEnd(l, data, t0, rx, q, t.idx);
    } else if ReadAt(l, data, t0, rx, t.idx).ok {
      SentPacket(l, data, t0, t.idx);
      TurnCalls(l, data, t0, rx, |rx|, t);
      var t2 := Report(l, ParseOne(l, rx, t).1);
      AlignedAt(l, data, t0, |rx|, t2);
      RestStays(q, t.signals, t.rd.pos, t2.rd.pos);
      var rest := FlushPath(l, data, t0, rx, t2, q);
      path := Prepend(l, data, t0, rx, q, t.idx, rest);
    } else {
      FailedTurnReads(l, data, t0, |rx|, rx, t);
      var t1 := ParseOne(l, rx, t).1;
      RecoversNearest(l, data, t0, |rx|, t1, t.idx, q);
      var (recovered, t2) := TryRecover(l, t1);
      if recovered {
        AlignedAt(l, data, t0, |rx|, t2);
        NoCall(l, data, t0, rx, t.idx);
        var rest := FlushPath(l, data, t0, rx, t2, q);
        path := Prepend(l, data, t0, rx, q, t.idx, rest);
      } else {
        path := [t.idx];
        ChainEnd(l, data, t0, rx, q, t.idx);
      }
    }
  }

  /**
   A flush, exactly.  It reads a chain of precincts to the end of the progression, and fails if
   and only if some precinct of the chain cannot be read and has no signal past it.  It calls back
   exactly the precincts of the chain that can be read, in order, those that arrived as they were
   sent.
   */
  lemma {:induction false} FlushOutcome(l: Layout, data: seq<byte>, t0: Tile, rx: seq<byte>, t: Tile)
    returns (path: seq<nat>)
    requires Good(l, t0) && Sent(l, data, t0) && AllHonest(l, data, t0, rx) && |rx| == |data|
    requires Aligned(l, data, t0, |rx|, t) && ByteOrder(t.signals)
    ensures Good(l, t) && Chain(l, data, t0, rx, t.signals, path) && path[0] == t.idx
    ensures var (o, t') := Flush(l, rx, t);
            && (o == Ok || o == Failed)
            && (o == Failed <==> exists i :: 0 <= i < |path| && Stuck(l, data, t0, rx, t.signals, path[i]))
            && (o == Ok <==> path[|path| - 1] == |l.crp|)
            && t'.calls == t.calls + CallsOf(l, data, t0, rx, path[..|path| - 1])
    ensures forall i :: 0 <= i < |path| && path[i] < |l.crp| && Arrived(l, data, t0, rx, path[i]) ==>
              SentCall(l, data, t0, path[i]) in Flush(l, rx, t).1.calls
  {
    hide Good, Sent, AllHonest, Aligned, Arrived, SentCall, Flush, CallsOf, StartOf, Stuck;
    SentIdx(l, data, t0);
    AlignedGood(l, data, t0, |rx|, t);
    path := FlushPath(l, data, t0, rx, t, t.signals);
    if i :| 0 <= i < |path| && Stuck(l, data, t0, rx, t.signals, path[i]) {
      StuckIsLast(l, data, t0, rx, t.signals, path, i);
      StuckInside(l, data, t0, rx, t.signals, path[i]);
    }
    forall i | 0 <= i < |path| && path[i] < |l.crp| && Arrived(l, data, t0, rx, path[i])
      ensures SentCall(l, data, t0, path[i]) in Flush(l, rx, t).1.calls
    {
      ArrivedCalls(l, data, t0, rx, path[i]);
      if Stuck(l, data, t0, rx, t.signals, path[i]) { StuckUnread(l, data, t0, rx, t.signals, path[i]); }
      CallAmong(l, data, t0, rx, path[..|path| - 1], i);
    }
  }

  lemma StuckInside(l: Layout, data: seq<byte>, t0: Tile, got: seq<byte>, q: seq<Signal>, k: nat)
    requires Good(l, t0) && t0.idx == 0 && Stuck(l, data, t0, got, q, k)
    ensures k < |l.crp|
  {}

  lemma StuckUnread(l: Layout, data: seq<byte>, t0: Tile, got: seq<byte>, q: seq<Signal>, k: nat)
    requires Good(l, t0) && t0.idx == 0 && Stuck(l, data, t0, got, q, k)
    ensures k < |l.crp| && !ReadAt(l, data, t0, got, k).ok
  {}

  /** Reading a packet does not go back behind its start. */
  lemma ReadForward(l: Layout, data: seq<byte>, t0: Tile, got: seq<byte>, k: nat)
    requires Good(l, t0) && t0.idx == 0 && k < |l.crp|
    ensures ReadAt(l, data, t0, got, k).rd.pos >= StartOf(l, data, t0, k)
  {
    hide ReadPacket, LayoutOk, PrecinctOk;
    var t := t0.(idx := k, rd := Reader(StartOf(l, data, t0, k), 0, 0));
    BlocksOk(l, t);
    ParseOneForward(l, got, t);
  }

  /**
   With the cursor at or behind the last signal, as a parse call that succeeds leaves it, the flush
   never recovers: it succeeds if and only if every packet from there on can be read.
   */
  lemma {:induction false} FlushAfterParse(l: Layout, data: seq<byte>, t0: Tile, rx: seq<byte>, t: Tile)
    requires Good(l, t0) && Sent(l, data, t0) && AllHonest(l, data, t0, rx) && |rx| == |data|
    requires Aligned(l, data, t0, |rx|, t) && ByteOrder(t.signals) && t.rd.pos >= LastOff(t.signals)
    ensures Good(l, t) && t0.idx == 0
    ensures Flush(l, rx, t).0 == Ok <==> forall k :: t.idx <= k < |l.crp| ==> ReadAt(l, data, t0, rx, k).ok
  {
    hide Good, Sent, AllHonest, Aligned, Arrived, SentCall, Flush, CallsOf, StartOf, ReadAt, ByteOrder;
    SentIdx(l, data, t0);
    AlignedAt(l, data, t0, |rx|, t);
    var path := FlushOutcome(l, data, t0, rx, t);
    NoJump(l, data, t0, rx, t.signals, path, |path| - 1);
    if Flush(l, rx, t).0 == Ok {
      forall k | t.idx <= k < |l.crp| ensures ReadAt(l, data, t0, rx, k).ok {
        NoJump(l, data, t0, rx, t.signals, path, k - t.idx + 1);
      }
    } else {
      var i :| 0 <= i < |path| && Stuck(l, data, t0, rx, t.signals, path[i]);
      NoJump(l, data, t0, rx, t.signals, path, i);
      StuckUnread(l, data, t0, rx, t.signals, path[i]);
    }
  }

  /** Without a signal past its start the chain is consecutive, and all but its last precinct can be read. */
  lemma {:induction false} NoJump(l: Layout, data: seq<byte>, t0: Tile, got: seq<byte>, q: seq<Signal>, path: seq<nat>,
                                  i: nat)
    requires Good(l, t0) && Sent(l, data, t0) && t0.idx == 0 && Chain(l, data, t0, got, q, path) && i < |path|
    requires path[0] <= |l.crp| && ByteOrder(q) && StartOf(l, data, t0, path[0]) >= LastOff(q)
    ensures path[i] == path[0] + i && path[i] <= |l.crp|
    ensures StartOf(l, data, t0, path[i]) >= LastOff(q)
    ensures i > 0 ==> ReadAt(l, data, t0, got, path[i] - 1).ok
  {
    hide Good, Sent, StartOf, ReadAt, PidOf;
    if i > 0 {
      NoJump(l, data, t0, got, q, path, i - 1);
      var k := path[i - 1];
      assert GoesOn(l, data, t0, got, q, k, path[i]);
      ReadForward(l, data, t0, got, k);
      LastFar(q, ReadAt(l, data, t0, got, k).rd.pos);
      StartsRise(l, data, t0, k, k + 1);
    }
  }
}
