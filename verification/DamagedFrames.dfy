/**
 A frame some of whose packets arrive damaged.  As long as no damaged packet is read, at its
 start, to an end that is not its own, the damage stays where it is: after each precinct, read
 or recovered to, the cursor is at the start of the packet the index names, the loop does not
 leave the progression, and what arrived whole is reported as it was sent.
 */
module DamagedFrames {
  import opened Bytes
  import opened ChainReader
  import opened BitStuffing
  import opened PacketHeader
  import opened TileHandler
  import opened TileRuns

  /** The frame as it was sent: well-formed, read from a byte boundary, each precinct once. */
  predicate Sent(l: Layout, data: seq<byte>, t0: Tile)
    requires Good(l, t0)
  {
    && t0.idx == 0 && WellFormed(l, data, t0) && t0.rd == Reader(t0.rd.pos, 0, 0) && t0.signals == [] && t0.calls == []
    && 1 <= l.components <= MAX_COMPONENTS
    && (forall i :: 0 <= i < |l.crp| ==> l.crp[i].c < l.components)
    && (forall i, j :: 0 <= i < j < |l.crp| ==> l.crp[i] != l.crp[j])
  }

  /** The byte at which packet `k` starts. */
  function StartOf(l: Layout, data: seq<byte>, t0: Tile, k: nat): nat
    requires Good(l, t0) && t0.idx == 0 && k <= |l.crp|
  {
    Walk(l, data, t0, k).rd.pos
  }

  /** Packet `k` read from `got`, at its start and into untouched blocks. */
  function ReadAt(l: Layout, data: seq<byte>, t0: Tile, got: seq<byte>, k: nat): Packet
    requires Good(l, t0) && t0.idx == 0 && k < |l.crp|
  {
    ReadPacket(got, Reader(StartOf(l, data, t0, k), 0, 0), t0.store[l.crp[k]].blocks)
  }

  /** The callback of precinct `k` of the frame as it was sent. */
  function SentCall(l: Layout, data: seq<byte>, t0: Tile, k: nat): Callback
    requires Good(l, t0) && t0.idx == 0 && k < |l.crp|
  {
    Callback(k, l.crp[k], t0.store[l.crp[k]].(blocks := ReadAt(l, data, t0, data, k).blocks))
  }

  /** The walk over the frame as it was sent. */
  lemma {:induction false} SentWalk(l: Layout, data: seq<byte>, t0: Tile, k: nat)
    requires Good(l, t0) && Sent(l, data, t0) && k <= |l.crp|
    ensures var w := Walk(l, data, t0, k);
            && w.rd == Reader(StartOf(l, data, t0, k), 0, 0) && w.rd.pos < |data|
            && (forall i :: k <= i < |l.crp| ==> w.store[l.crp[i]] == t0.store[l.crp[i]])
            && |w.calls| == k && (forall i :: 0 <= i < k ==> w.calls[i] == SentCall(l, data, t0, i))
  {
    hide ReadPacket, LayoutOk, PrecinctOk, PacketFits;
    if k > 0 {
      SentWalk(l, data, t0, k - 1);
      SentTurn(l, data, t0, k - 1);
    }
  }

  /** One more precinct of it. */
  lemma SentTurn(l: Layout, data: seq<byte>, t0: Tile, k: nat)
    requires Good(l, t0) && Sent(l, data, t0) && k < |l.crp|
    requires var w := Walk(l, data, t0, k);
             w.rd == Reader(StartOf(l, data, t0, k), 0, 0) && w.rd.pos < |data|
             && w.store[l.crp[k]] == t0.store[l.crp[k]]
    ensures var w, w' := Walk(l, data, t0, k), Walk(l, data, t0, k + 1);
            && ReadAt(l, data, t0, data, k).ok && w'.rd == ReadAt(l, data, t0, data, k).rd
            && w'.rd == Reader(w'.rd.pos, 0, 0) && w.rd.pos < w'.rd.pos < |data|
            && w'.calls == w.calls + [SentCall(l, data, t0, k)]
            && (forall i :: 0 <= i < |l.crp| && l.crp[i] != l.crp[k] ==> w'.store[l.crp[i]] == w.store[l.crp[i]])
  {
    hide ReadPacket, LayoutOk, PrecinctOk;
    var w := Walk(l, data, t0, k);
    BlocksOk(l, w);
    assert PacketFits(l, data, t0, k);
    ReadPacketAdvances(data, w.rd, w.store[l.crp[k]].blocks);
  }

  /** Each packet is read to its end, which is the start of the next, further on. */
  lemma SentPacket(l: Layout, data: seq<byte>, t0: Tile, k: nat)
    requires Good(l, t0) && Sent(l, data, t0) && k < |l.crp|
    ensures var r := ReadAt(l, data, t0, data, k);
            && r.ok && r.rd == Reader(StartOf(l, data, t0, k + 1), 0, 0)
            && StartOf(l, data, t0, k) < StartOf(l, data, t0, k + 1) < |data|
  {
    hide ReadAt, Walk, LayoutOk, PrecinctOk, WellFormed;
    SentWalk(l, data, t0, k);
    SentTurn(l, data, t0, k);
  }

  lemma StartsRise(l: Layout, data: seq<byte>, t0: Tile, j: nat, k: nat)
    requires Good(l, t0) && Sent(l, data, t0) && j < k <= |l.crp|
    ensures StartOf(l, data, t0, j) < StartOf(l, data, t0, k)
  {
    hide Good, Walk, Sent;
    SentPacket(l, data, t0, j);
    SentIdx(l, data, t0);
    WalkForward(l, data, t0, j + 1, k);
  }

  lemma SentIdx(l: Layout, data: seq<byte>, t0: Tile)
    requires Good(l, t0) && Sent(l, data, t0)
    ensures t0.idx == 0
  {}

  // ---------------------------------------------------------------------- damage

  /** Packet `k` is in `got` as it was sent. */
  predicate Arrived(l: Layout, data: seq<byte>, t0: Tile, got: seq<byte>, k: nat)
    requires Good(l, t0) && t0.idx == 0 && k < |l.crp|
  {
    SameBytes(data, got, StartOf(l, data, t0, k), StartOf(l, data, t0, k + 1))
  }

  /** Read from `got`, packet `k` fails or ends at its own end. */
  predicate HonestIn(l: Layout, data: seq<byte>, t0: Tile, got: seq<byte>, k: nat)
    requires Good(l, t0) && t0.idx == 0 && k < |l.crp|
  {
    var r := ReadAt(l, data, t0, got, k);
    r.ok ==> r.rd == Reader(StartOf(l, data, t0, k + 1), 0, 0)
  }

  /** So it is however much has come behind it when it is read. */
  predicate Honest(l: Layout, data: seq<byte>, t0: Tile, rx: seq<byte>, k: nat)
    requires Good(l, t0) && t0.idx == 0 && k < |l.crp|
  {
    forall n :: StartOf(l, data, t0, k + 1) <= n <= |rx| ==> HonestIn(l, data, t0, rx[..n], k)
  }

  /** A packet that arrived is read as it was sent. */
  lemma ArrivedReads(l: Layout, data: seq<byte>, t0: Tile, got: seq<byte>, k: nat)
    requires Good(l, t0) && Sent(l, data, t0) && k < |l.crp| && Arrived(l, data, t0, got, k)
    ensures ReadAt(l, data, t0, got, k) == ReadAt(l, data, t0, data, k)
    ensures HonestIn(l, data, t0, got, k)
  {
    hide ReadPacket, Walk, LayoutOk, PrecinctOk;
    SentPacket(l, data, t0, k);
    BlocksOk(l, t0.(idx := k));
    ReadPacketAgrees(data, got, StartOf(l, data, t0, k + 1), Reader(StartOf(l, data, t0, k), 0, 0),
                     t0.store[l.crp[k]].blocks);
  }

  lemma {:induction false} ArrivedHonest(l: Layout, data: seq<byte>, t0: Tile, rx: seq<byte>, k: nat)
    requires Good(l, t0) && Sent(l, data, t0) && k < |l.crp| && Arrived(l, data, t0, rx, k)
    ensures Honest(l, data, t0, rx, k)
  {
    SentIdx(l, data, t0);
    hide Sent, Good, HonestIn, StartOf;
    forall n | StartOf(l, data, t0, k + 1) <= n <= |rx| ensures HonestIn(l, data, t0, rx[..n], k) {
      ArrivedReads(l, data, t0, rx[..n], k);
    }
  }

  // --------------------------------------------------------------------- in step

  /** A signal covered by the `have` bytes, on the start of the precinct its PID names. */
  predicate TrueSignal(l: Layout, data: seq<byte>, t0: Tile, have: nat, s: Signal)
    requires Good(l, t0) && t0.idx == 0
  {
    s.off <= have && exists j :: 0 <= j < |l.crp| && StartOf(l, data, t0, j) == s.off && PidOf(l, j) == s.pid
  }

  predicate TrueSignals(l: Layout, data: seq<byte>, t0: Tile, have: nat, q: seq<Signal>)
    requires Good(l, t0) && t0.idx == 0
  {
    forall i :: 0 <= i < |q| ==> TrueSignal(l, data, t0, have, q[i])
  }

  /** The precincts from `k` on are as at the frame's start. */
  predicate Untouched(l: Layout, t0: Tile, t: Tile, k: nat)
    requires Good(l, t0) && Good(l, t)
  {
    forall i :: k <= i < |l.crp| ==> t.store[l.crp[i]] == t0.store[l.crp[i]]
  }

  /** The cursor is at the start of the packet the index names, whatever was lost before. */
  predicate Aligned(l: Layout, data: seq<byte>, t0: Tile, have: nat, t: Tile)
    requires Good(l, t0) && t0.idx == 0
  {
    && Good(l, t) && t.idx <= |l.crp| && Untouched(l, t0, t, t.idx)
    && t.rd == Reader(StartOf(l, data, t0, t.idx), 0, 0) && t.rd.pos <= have
    && TrueSignals(l, data, t0, have, t.signals)
  }

  /** Every callback for a precinct that arrived is the one of the frame as it was sent. */
  predicate Faithful(l: Layout, data: seq<byte>, t0: Tile, rx: seq<byte>, calls: seq<Callback>)
    requires Good(l, t0) && t0.idx == 0
  {
    forall i :: 0 <= i < |calls| ==>
      calls[i].idx < |l.crp| &&
      (Arrived(l, data, t0, rx, calls[i].idx) ==> calls[i] == SentCall(l, data, t0, calls[i].idx))
  }

  /** A signal beyond the cursor means the packet at the cursor is there to its end. */
  lemma GateInside(l: Layout, data: seq<byte>, t0: Tile, have: nat, t: Tile)
    requires Good(l, t0) && Sent(l, data, t0) && Aligned(l, data, t0, have, t) && Gate(t)
    ensures t.idx < |l.crp| && StartOf(l, data, t0, t.idx + 1) <= have
  {
    hide Sent, Good, StartOf, PidOf;
    SentIdx(l, data, t0);
    var s := t.signals[|t.signals| - 1];
    assert TrueSignal(l, data, t0, have, s);
    var j :| 0 <= j < |l.crp| && StartOf(l, data, t0, j) == s.off && PidOf(l, j) == s.pid;
    if j < t.idx { StartsRise(l, data, t0, j, t.idx); }
    if t.idx + 1 < j { StartsRise(l, data, t0, t.idx + 1, j); }
  }

  /** What a turn reads is the packet of the precinct, into untouched blocks. */
  lemma TurnReads(l: Layout, data: seq<byte>, t0: Tile, got: seq<byte>, t: Tile)
    requires Good(l, t0) && t0.idx == 0 && Aligned(l, data, t0, |got|, t) && t.idx < |l.crp|
    ensures var (ok, t1) := ParseOne(l, got, t);
            var r := ReadAt(l, data, t0, got, t.idx);
            && ok == r.ok && t1.rd == r.rd && t1.store[l.crp[t.idx]] == t0.store[l.crp[t.idx]].(blocks := r.blocks)
            && (forall i :: 0 <= i < |l.crp| && l.crp[i] != l.crp[t.idx] ==> t1.store[l.crp[i]] == t.store[l.crp[i]])
  {
    hide ReadPacket, LayoutOk, PrecinctOk, Walk, TrueSignals;
  }

  /** A turn that succeeds stays in step exactly when the packet was honest, and then reports it faithfully. */
  lemma {:induction false} ReadsOn(l: Layout, data: seq<byte>, t0: Tile, got: seq<byte>, t: Tile)
    requires Good(l, t0) && Sent(l, data, t0) && Aligned(l, data, t0, |got|, t) && t.idx < |l.crp|
    requires StartOf(l, data, t0, t.idx + 1) <= |got| && ParseOne(l, got, t).0
    ensures var t2 := Report(l, ParseOne(l, got, t).1);
            && (Aligned(l, data, t0, |got|, t2) <==> HonestIn(l, data, t0, got, t.idx))
            && t2.calls == t.calls + [t2.calls[|t.calls|]] && t2.calls[|t.calls|].idx == t.idx
            && (Arrived(l, data, t0, got, t.idx) ==> t2.calls[|t.calls|] == SentCall(l, data, t0, t.idx))
  {
    hide ReadPacket, LayoutOk, PrecinctOk, Walk, WellFormed, ReadAt, SameBytes, TrueSignals;
    TurnReads(l, data, t0, got, t);
    if Arrived(l, data, t0, got, t.idx) { ArrivedReads(l, data, t0, got, t.idx); }
  }

  /** Recovery succeeds exactly when a signal lies past the cursor, and lands in step. */
  lemma {:induction false} RecoversInStep(l: Layout, data: seq<byte>, t0: Tile, have: nat, t: Tile, k: nat)
    requires Good(l, t0) && Sent(l, data, t0) && Good(l, t) && k < |l.crp| && k <= t.idx <= k + 1
    requires Untouched(l, t0, t, k + 1) && TrueSignals(l, data, t0, have, t.signals)
    requires t.rd.pos >= StartOf(l, data, t0, k)
    ensures var (ok, t') := TryRecover(l, t);
            && (ok <==> exists i :: 0 <= i < |t.signals| && t.signals[i].off > t.rd.pos)
            && t'.calls == t.calls
            && (ok ==> t'.idx > k && Aligned(l, data, t0, have, t'))
  {
    hide StartOf, PidOf, WellFormed, LayoutOk, StoreOk, Lookup;
    var q := DropPassed(t.signals, t.rd.pos);
    DropPassedLast(t.signals, t.rd.pos);
    DropPassedPasses(t.signals, t.rd.pos);
    if q == [] {
      NonePast(t.signals, t.rd.pos);
    } else {
      var s := t.signals[|t.signals| - |q|];
      assert s == q[0] && TrueSignal(l, data, t0, have, s);
      var j :| 0 <= j < |l.crp| && StartOf(l, data, t0, j) == s.off && PidOf(l, j) == s.pid;
      if j < k { StartsRise(l, data, t0, j, k); }
      PidBijection(l, j, s.pid);
    }
  }

  lemma {:induction false} NonePast(q: seq<Signal>, pos: nat)
    requires DropPassed(q, pos) == []
    ensures forall i :: 0 <= i < |q| ==> q[i].off <= pos
  {
    if q != [] {
      NonePast(q[1..], pos);
      forall i | 0 <= i < |q| ensures q[i].off <= pos { if i > 0 { assert q[i] == q[1..][i - 1]; } }
    }
  }

  // ------------------------------------------------------------- parse and flush

  /** What has been reported stays faithful with one more callback. */
  lemma FaithfulSnoc(l: Layout, data: seq<byte>, t0: Tile, rx: seq<byte>, calls: seq<Callback>, c: Callback)
    requires Good(l, t0) && t0.idx == 0 && Faithful(l, data, t0, rx, calls) && c.idx < |l.crp|
    requires Arrived(l, data, t0, rx, c.idx) ==> c == SentCall(l, data, t0, c.idx)
    ensures Faithful(l, data, t0, rx, calls + [c])
  {
    hide Arrived, SentCall, Good;
  }

  /** No packet of `rx` misleads. */
  predicate AllHonest(l: Layout, data: seq<byte>, t0: Tile, rx: seq<byte>)
    requires Good(l, t0) && t0.idx == 0
  {
    forall k :: 0 <= k < |l.crp| ==> Honest(l, data, t0, rx, k)
  }

  /** A packet wholly inside the first `n` bytes arrived in them if it arrived. */
  lemma ArrivedPrefix(l: Layout, data: seq<byte>, t0: Tile, rx: seq<byte>, n: nat, k: nat)
    requires Good(l, t0) && t0.idx == 0 && k < |l.crp| && StartOf(l, data, t0, k + 1) <= n <= |rx|
    requires Arrived(l, data, t0, rx, k)
    ensures Arrived(l, data, t0, rx[..n], k)
  {
    hide Good, StartOf;
  }

  /** One precinct of the damaged frame read from the bytes there are: in step, and faithful. */
  lemma {:induction false} TurnAligned(l: Layout, data: seq<byte>, t0: Tile, rx: seq<byte>, n: nat, t: Tile)
    requires Good(l, t0) && Sent(l, data, t0) && AllHonest(l, data, t0, rx) && n <= |rx|
    requires Aligned(l, data, t0, n, t) && Faithful(l, data, t0, rx, t.calls)
    requires t.idx < |l.crp| && StartOf(l, data, t0, t.idx + 1) <= n && ParseOne(l, rx[..n], t).0
    ensures var t2 := Report(l, ParseOne(l, rx[..n], t).1);
            Aligned(l, data, t0, n, t2) && Faithful(l, data, t0, rx, t2.calls)
  {
    hide ParseOne, Report, Arrived, SentCall, Sent, Aligned, Faithful, StartOf, HonestIn;
    SentIdx(l, data, t0);
    assert Honest(l, data, t0, rx, t.idx);
    AlignedGood(l, data, t0, n, t);
    ReadsOn(l, data, t0, rx[..n], t);
    var t2 := Report(l, ParseOne(l, rx[..n], t).1);
    if Arrived(l, data, t0, rx, t.idx) { ArrivedPrefix(l, data, t0, rx, n, t.idx); }
    FaithfulSnoc(l, data, t0, rx, t.calls, t2.calls[|t.calls|]);
  }

  lemma AlignedGood(l: Layout, data: seq<byte>, t0: Tile, have: nat, t: Tile)
    requires Good(l, t0) && t0.idx == 0 && Aligned(l, data, t0, have, t)
    ensures Good(l, t) && t.idx <= |l.crp|
  {}

  /** After a precinct that failed, the tile is as recovery needs it. */
  lemma FailedTurn(l: Layout, data: seq<byte>, t0: Tile, have: nat, got: seq<byte>, t: Tile)
    requires Good(l, t0) && Sent(l, data, t0) && Aligned(l, data, t0, have, t) && t.idx < |l.crp|
    ensures var t1 := ParseOne(l, got, t).1;
            && Untouched(l, t0, t1, t.idx + 1) && TrueSignals(l, data, t0, have, t1.signals)
            && t1.rd.pos >= StartOf(l, data, t0, t.idx)
  {
    hide ReadPacket, LayoutOk, PrecinctOk, Walk, WellFormed, TrueSignals;
    ParseOneForward(l, got, t);
  }

  /**
   A parse call over the bytes there are, whatever packets are damaged: it does not leave the
   progression, it is in step when it succeeds, and it reports faithfully.
   */
  lemma {:induction false} ParseAligned(l: Layout, data: seq<byte>, t0: Tile, rx: seq<byte>, n: nat, t: Tile)
    requires Good(l, t0) && Sent(l, data, t0) && AllHonest(l, data, t0, rx) && n <= |rx|
    requires Aligned(l, data, t0, n, t) && Faithful(l, data, t0, rx, t.calls)
    ensures Good(l, t)
    ensures var (o, t') := Parse(l, rx[..n], t);
            o != OutOfRange && (o == Ok ==> Aligned(l, data, t0, n, t')) && Faithful(l, data, t0, rx, t'.calls)
    decreases |l.crp| - t.idx
  {
    hide ParseOne, Report, Sent, Aligned, Faithful, StartOf, AllHonest, TryRecover, Good, Gate;
    SentIdx(l, data, t0);
    AlignedGood(l, data, t0, n, t);
    if Gate(t) {
      GateInside(l, data, t0, n, t);
      var (ok, t1) := ParseOne(l, rx[..n], t);
      if ok {
        TurnAligned(l, data, t0, rx, n, t);
        ReportNext(l, t1);
        ParseAligned(l, data, t0, rx, n, Report(l, t1));
      } else {
        FailedTurn(l, data, t0, n, rx[..n], t);
        var t2 := t1.(idx := t1.idx + 1);
        StillGood(l, t0, t1, t2, t.idx + 1);
        RecoversInStep(l, data, t0, n, t2, t.idx);
        var (recovered, t3) := TryRecover(l, t2);
        if recovered { ParseAligned(l, data, t0, rx, n, t3); }
      }
    }
  }

  lemma ReportNext(l: Layout, t: Tile)
    requires Good(l, t) && t.idx < |l.crp|
    ensures Report(l, t).idx == t.idx + 1 && Good(l, Report(l, t))
  {}

  lemma StillGood(l: Layout, t0: Tile, t: Tile, t': Tile, k: nat)
    requires Good(l, t0) && Good(l, t) && t'.store == t.store && Untouched(l, t0, t, k)
    ensures Good(l, t') && Untouched(l, t0, t', k)
  {}

  /** The flush over the whole damaged frame reports faithfully too. */
  lemma {:induction false} FlushFaithful(l: Layout, data: seq<byte>, t0: Tile, rx: seq<byte>, t: Tile)
    requires Good(l, t0) && Sent(l, data, t0) && AllHonest(l, data, t0, rx) && |rx| == |data|
    requires Aligned(l, data, t0, |rx|, t) && Faithful(l, data, t0, rx, t.calls)
    ensures Good(l, t) && Faithful(l, data, t0, rx, Flush(l, rx, t).1.calls)
    decreases |l.crp| - t.idx
  {
    hide ParseOne, Report, Sent, Aligned, Faithful, StartOf, AllHonest, TryRecover, Good;
    SentIdx(l, data, t0);
    AlignedGood(l, data, t0, |rx|, t);
    assert rx[..|rx|] == rx;
    if t.idx < |l.crp| {
      var (ok, t1) := ParseOne(l, rx, t);
      if ok {
        SentPacket(l, data, t0, t.idx);
        TurnAligned(l, data, t0, rx, |rx|, t);
        ReportNext(l, t1);
        FlushFaithful(l, data, t0, rx, Report(l, t1));
      } else {
        FailedTurn(l, data, t0, |rx|, rx, t);
        RecoversInStep(l, data, t0, |rx|, t1, t.idx);
        var (recovered, t2) := TryRecover(l, t1);
        if recovered { FlushFaithful(l, data, t0, rx, t2); }
      }
    }
  }

  /**
   In step, and with every packet from there on arrived: the flush succeeds and reports exactly
   the rest of the frame.
   */
  lemma {:induction false} RestOfFrame(l: Layout, data: seq<byte>, t0: Tile, rx: seq<byte>, t: Tile)
    requires Good(l, t0) && Sent(l, data, t0) && |rx| == |data| && Aligned(l, data, t0, |rx|, t)
    requires forall k :: t.idx <= k < |l.crp| ==> Arrived(l, data, t0, rx, k)
    ensures Good(l, t) && Flush(l, rx, t).0 == Ok
    ensures var (calls, sent) := (Flush(l, rx, t).1.calls, Flush(l, data, t0).1.calls);
            |sent| == |l.crp| && calls == t.calls + sent[t.idx..]
    decreases |l.crp| - t.idx
  {
    hide ParseOne, Report, Sent, Aligned, StartOf, Arrived, Good, SentCall;
    SentIdx(l, data, t0);
    AlignedGood(l, data, t0, |rx|, t);
    SentCalls(l, data, t0);
    var sent := Flush(l, data, t0).1.calls;
    if t.idx < |l.crp| {
      var k := t.idx;
      assert Arrived(l, data, t0, rx, k);
      ArrivedTurn(l, data, t0, rx, t);
      var t2 := Report(l, ParseOne(l, rx, t).1);
      RestOfFrame(l, data, t0, rx, t2);
      assert sent[k..] == [sent[k]] + sent[k + 1..];
      assert t.calls + [sent[k]] + sent[k + 1..] == t.calls + sent[k..];
    }
  }

  lemma ArrivedTurn(l: Layout, data: seq<byte>, t0: Tile, rx: seq<byte>, t: Tile)
    requires Good(l, t0) && Sent(l, data, t0) && |rx| == |data| && Aligned(l, data, t0, |rx|, t)
    requires t.idx < |l.crp| && Arrived(l, data, t0, rx, t.idx)
    ensures Good(l, t) && ParseOne(l, rx, t).0
    ensures var t2 := Report(l, ParseOne(l, rx, t).1);
            && Aligned(l, data, t0, |rx|, t2) && t2.idx == t.idx + 1
            && t2.calls == t.calls + [SentCall(l, data, t0, t.idx)]
  {
    hide Sent, StartOf, Arrived, SentCall, ReadAt, Report, ParseOne, Aligned, Good, HonestIn;
    SentIdx(l, data, t0);
    AlignedGood(l, data, t0, |rx|, t);
    ArrivedReads(l, data, t0, rx, t.idx);
    TurnReads(l, data, t0, rx, t);
    SentPacket(l, data, t0, t.idx);
    ReadsOn(l, data, t0, rx, t);
    ReportNext(l, ParseOne(l, rx, t).1);
  }

  /** The flush of the frame as it was sent calls back what was sent. */
  lemma SentCalls(l: Layout, data: seq<byte>, t0: Tile)
    requires Good(l, t0) && Sent(l, data, t0)
    ensures var sent := Flush(l, data, t0).1.calls;
            |sent| == |l.crp| && forall i :: 0 <= i < |l.crp| ==> sent[i] == SentCall(l, data, t0, i)
  {
    hide ParseOne, Report, LayoutOk, StoreOk, SentCall, Flush;
    FlushInStep(l, data, t0, t0, 0);
    SentWalk(l, data, t0, |l.crp|);
  }

  // ------------------------------------------------------------- the whole frame

  /** The frame up to its first parse call that does not succeed, and what that call says. */
  function Receive(l: Layout, f: Frame, ops: seq<TileOp>): (r: (Outcome, Frame))
    requires Good(l, f.tile)
    ensures Good(l, r.1.tile)
    decreases |ops|
  {
    if ops == [] then (Ok, f)
    else
      var g := Step(l, f, ops[0]);
      if ops[0].Go? && Parse(l, f.data, f.tile).0 != Ok then (Parse(l, f.data, f.tile).0, g)
      else Receive(l, g, ops[1..])
  }

  /** The bytes `rx` arrive in order from byte `have` on, and every signal is a true one. */
  predicate Arrives(l: Layout, data: seq<byte>, t0: Tile, rx: seq<byte>, have: nat, ops: seq<TileOp>)
    requires Good(l, t0) && t0.idx == 0
    decreases |ops|
  {
    if ops == [] then have == |rx|
    else
      match ops[0]
      case Grow(c) =>
        have + |c| <= |rx| && rx[have..have + |c|] == c && Arrives(l, data, t0, rx, have + |c|, ops[1..])
      case Mark(off, pid) =>
        TrueSignal(l, data, t0, have, Signal(off, pid)) && Arrives(l, data, t0, rx, have, ops[1..])
      case Go => Arrives(l, data, t0, rx, have, ops[1..])
  }

  /** What is true of a signal stays true with more bytes; one more true signal is taken in. */
  lemma AlignedGrows(l: Layout, data: seq<byte>, t0: Tile, have: nat, more: nat, t: Tile)
    requires Good(l, t0) && t0.idx == 0 && Aligned(l, data, t0, have, t) && have <= more
    ensures Aligned(l, data, t0, more, t)
  {
    hide StartOf, PidOf, LayoutOk, StoreOk;
    forall i | 0 <= i < |t.signals| ensures TrueSignal(l, data, t0, more, t.signals[i]) {
      assert TrueSignal(l, data, t0, have, t.signals[i]);
    }
  }

  lemma AlignedMarked(l: Layout, data: seq<byte>, t0: Tile, have: nat, t: Tile, off: nat, pid: nat)
    requires Good(l, t0) && t0.idx == 0 && Aligned(l, data, t0, have, t)
    requires TrueSignal(l, data, t0, have, Signal(off, pid))
    ensures Aligned(l, data, t0, have, AddSignal(t, off, pid))
  {
    hide StartOf, TrueSignal, LayoutOk, StoreOk;
  }

  lemma {:induction false} ReceiveAligned(l: Layout, data: seq<byte>, t0: Tile, rx: seq<byte>, n: nat, t: Tile,
                                          ops: seq<TileOp>)
    requires Good(l, t0) && Sent(l, data, t0) && AllHonest(l, data, t0, rx) && n <= |rx|
    requires Aligned(l, data, t0, n, t) && Faithful(l, data, t0, rx, t.calls) && Arrives(l, data, t0, rx, n, ops)
    ensures Good(l, t)
    ensures var (o, g) := Receive(l, Frame(rx[..n], t), ops);
            && o != OutOfRange && Faithful(l, data, t0, rx, g.tile.calls)
            && (o == Ok ==> g.data == rx && Aligned(l, data, t0, |rx|, g.tile))
    decreases |ops|
  {
    hide Sent, Aligned, Faithful, AllHonest, Good, Parse, TrueSignal;
    SentIdx(l, data, t0);
    AlignedGood(l, data, t0, n, t);
    if ops == [] {
      assert rx[..n] == rx;
    } else {
      match ops[0] {
        case Grow(c) =>
          assert rx[..n] + c == rx[..n + |c|];
          AlignedGrows(l, data, t0, n, n + |c|, t);
          ReceiveAligned(l, data, t0, rx, n + |c|, t, ops[1..]);
        case Mark(off, pid) =>
          AlignedMarked(l, data, t0, n, t, off, pid);
          ReceiveAligned(l, data, t0, rx, n, AddSignal(t, off, pid), ops[1..]);
        case Go =>
          ParseAligned(l, data, t0, rx, n, t);
          var (o, t') := Parse(l, rx[..n], t);
          if o == Ok { ReceiveAligned(l, data, t0, rx, n, t', ops[1..]); }
      }
    }
  }

  /**
   Damage is contained.  Let some packets of a well-formed frame arrive damaged, none of them
   read at its start to a wrong end; cut the bytes in any way, put signals on true precinct
   starts anywhere, parse at any time.  No call leaves the progression.  As long as calls
   succeed, the cursor is where the undamaged frame has the precinct the index names.  Every
   callback, of the flush too, for a precinct whose bytes arrived is the undamaged frame's.
   And if the damage lies behind, the flush reports exactly the rest of the undamaged frame.
   */
  lemma {:induction false} DamageContained(l: Layout, data: seq<byte>, t0: Tile, rx: seq<byte>, have: nat,
                                           ops: seq<TileOp>)
    requires Good(l, t0) && Sent(l, data, t0) && |rx| == |data| && AllHonest(l, data, t0, rx)
    requires t0.rd.pos <= have <= |rx| && Arrives(l, data, t0, rx, have, ops)
    ensures var (o, f) := Receive(l, Frame(rx[..have], t0), ops);
            && o != OutOfRange
            && (o == Ok ==> && f.data == rx && f.tile.idx <= |l.crp|
                            && f.tile.rd == Walk(l, data, t0, f.tile.idx).rd)
            && Matches(l, data, t0, rx, f.tile.calls)
            && (o == Ok ==> Matches(l, data, t0, rx, Flush(l, rx, f.tile).1.calls))
            && (o == Ok && (forall k :: f.tile.idx <= k < |l.crp| ==> Arrived(l, data, t0, rx, k)) ==>
                  && Flush(l, rx, f.tile).0 == Ok && |Flush(l, data, t0).1.calls| == |l.crp|
                  && Flush(l, rx, f.tile).1.calls == f.tile.calls + Flush(l, data, t0).1.calls[f.tile.idx..])
  {
    hide Sent, Good, Faithful, AllHonest, Parse, Walk, Flush, Receive, Arrives;
    SentIdx(l, data, t0);
    StartAligned(l, data, t0, have);
    assert Faithful(l, data, t0, rx, []) by { NothingYet(l, data, t0, rx); }
    StartCalls(l, data, t0);
    ReceiveAligned(l, data, t0, rx, have, t0, ops);
    var (o, f) := Receive(l, Frame(rx[..have], t0), ops);
    FaithfulMatches(l, data, t0, rx, f.tile.calls);
    if o == Ok {
      FlushFaithful(l, data, t0, rx, f.tile);
      FaithfulMatches(l, data, t0, rx, Flush(l, rx, f.tile).1.calls);
      SentWalk(l, data, t0, f.tile.idx);
      if forall k :: f.tile.idx <= k < |l.crp| ==> Arrived(l, data, t0, rx, k) {
        RestOfFrame(l, data, t0, rx, f.tile);
      }
    }
  }

  /** Every callback for a precinct that arrived is the undamaged frame's. */
  predicate Matches(l: Layout, data: seq<byte>, t0: Tile, rx: seq<byte>, calls: seq<Callback>)
    requires Good(l, t0) && t0.idx == 0
  {
    var sent := Flush(l, data, t0).1.calls;
    forall i :: 0 <= i < |calls| ==>
      calls[i].idx < |l.crp| == |sent| && (Arrived(l, data, t0, rx, calls[i].idx) ==> calls[i] == sent[calls[i].idx])
  }

  lemma FaithfulMatches(l: Layout, data: seq<byte>, t0: Tile, rx: seq<byte>, calls: seq<Callback>)
    requires Good(l, t0) && Sent(l, data, t0) && Faithful(l, data, t0, rx, calls)
    ensures Matches(l, data, t0, rx, calls)
  {
    hide Sent, Good, Arrived, SentCall, Flush;
    SentCalls(l, data, t0);
  }

  lemma StartAligned(l: Layout, data: seq<byte>, t0: Tile, have: nat)
    requires Good(l, t0) && Sent(l, data, t0) && t0.rd.pos <= have
    ensures Aligned(l, data, t0, have, t0)
  {
    hide WellFormed, LayoutOk, StoreOk;
    assert Walk(l, data, t0, 0) == t0;
  }

  lemma StartCalls(l: Layout, data: seq<byte>, t0: Tile)
    requires Good(l, t0) && Sent(l, data, t0)
    ensures t0.calls == []
  {}

  lemma NothingYet(l: Layout, data: seq<byte>, t0: Tile, rx: seq<byte>)
    requires Good(l, t0) && t0.idx == 0
    ensures Faithful(l, data, t0, rx, [])
  {}
}
