/**
 What holds over a whole frame, however its bytes, signals and parse calls
 interleave: callbacks stay in progression order whatever fails, and on a
 well-formed frame parsing as the bytes arrive equals parsing the whole frame.
 */
module TileRuns {
  import opened Bytes
  import opened ChainReader
  import opened BitStuffing
  import opened PacketHeader
  import opened TileHandler

  /** What a frame does to the tile: bytes arrive, a signal is noted, parsing is attempted. */
  datatype TileOp = Grow(chunk: seq<byte>) | Mark(off: nat, pid: nat) | Go

  datatype Frame = Frame(data: seq<byte>, tile: Tile)

  function Step(l: Layout, f: Frame, op: TileOp): (r: Frame)
    requires Good(l, f.tile)
    ensures Good(l, r.tile)
  {
    match op
    case Grow(chunk) => f.(data := f.data + chunk)
    case Mark(off, pid) => f.(tile := AddSignal(f.tile, off, pid))
    case Go => f.(tile := Parse(l, f.data, f.tile).1)
  }

  function Run(l: Layout, f: Frame, ops: seq<TileOp>): (r: Frame)
    requires Good(l, f.tile)
    ensures Good(l, r.tile)
    decreases |ops|
  {
    if ops == [] then f else Run(l, Step(l, f, ops[0]), ops[1..])
  }

  // ------------------------------------------------ callbacks keep the order

  /** The callbacks so far are a strictly increasing subsequence of the progression, all behind the index. */
  predicate Ordered(l: Layout, t: Tile) {
    && (forall i :: 0 <= i < |t.calls| ==>
          t.calls[i].idx < |l.crp| && t.calls[i].idx < t.idx && t.calls[i].ct == l.crp[t.calls[i].idx])
    && (forall i, j :: 0 <= i < j < |t.calls| ==> t.calls[i].idx < t.calls[j].idx)
  }

  lemma {:induction false} ParseOrdered(l: Layout, data: seq<byte>, t: Tile)
    requires Good(l, t) && Ordered(l, t)
    ensures Ordered(l, Parse(l, data, t).1) && t.calls <= Parse(l, data, t).1.calls
    decreases |l.crp| - t.idx
  {
    hide StoreOk, LayoutOk, ReadPacket;
    if Gate(t) && t.idx < |l.crp| {
      var (ok, t1) := ParseOne(l, data, t);
      if ok {
        ParseOrdered(l, data, Report(l, t1));
      } else {
        var t2 := t1.(idx := t1.idx + 1);
        RecoverProgress(l, t2);
        var (recovered, t3) := TryRecover(l, t2);
        if recovered { ParseOrdered(l, data, t3); }
      }
    }
  }

  lemma {:induction false} FlushOrdered(l: Layout, data: seq<byte>, t: Tile)
    requires Good(l, t) && Ordered(l, t)
    ensures Ordered(l, Flush(l, data, t).1) && t.calls <= Flush(l, data, t).1.calls
    decreases |l.crp| - t.idx + |t.signals|
  {
    hide StoreOk, LayoutOk, ReadPacket;
    if t.idx < |l.crp| {
      var (ok, t1) := ParseOne(l, data, t);
      if ok {
        FlushOrdered(l, data, Report(l, t1));
      } else {
        RecoverProgress(l, t1);
        var (recovered, t2) := TryRecover(l, t1);
        if recovered { FlushOrdered(l, data, t2); }
      }
    }
  }

  lemma {:induction false} RunOrdered(l: Layout, f: Frame, ops: seq<TileOp>)
    requires Good(l, f.tile) && Ordered(l, f.tile)
    ensures Ordered(l, Run(l, f, ops).tile)
    decreases |ops|
  {
    if ops != [] {
      if ops[0].Go? { ParseOrdered(l, f.data, f.tile); }
      RunOrdered(l, Step(l, f, ops[0]), ops[1..]);
    }
  }

  /**
   Whatever bytes and signals arrive in whatever order and whichever precincts fail,
   the callbacks of a frame, flush included, are a strictly increasing subsequence
   of the progression.
   */
  lemma {:induction false} CallbacksInOrder(l: Layout, f: Frame, ops: seq<TileOp>)
    requires Good(l, f.tile) && f.tile.calls == []
    ensures var g := Run(l, f, ops);
            Ordered(l, g.tile) && Ordered(l, Flush(l, g.data, g.tile).1)
  {
    RunOrdered(l, f, ops);
    var g := Run(l, f, ops);
    FlushOrdered(l, g.data, g.tile);
  }

  /**
   A precinct read from a byte boundary moves the byte cursor forward exactly when the cursor
   is inside the bytes, and leaves it on a byte boundary if it succeeds; a recovery then moves
   it on again.  So the loop cannot spin there, even before the progression index is looked at.
   */
  lemma {:induction false} ParseTurnAdvances(l: Layout, data: seq<byte>, t: Tile)
    requires Good(l, t) && t.idx < |l.crp| && t.rd == Reader(t.rd.pos, 0, 0)
    ensures var (ok, t1) := ParseOne(l, data, t);
            && t1.rd.pos >= t.rd.pos && (t1.rd.pos > t.rd.pos <==> t.rd.pos < |data|)
            && (t.rd.pos >= |data| ==> ok)
            && (if ok then t1.rd == Reader(t1.rd.pos, 0, 0)
                else
                  var (recovered, t2) := TryRecover(l, t1.(idx := t1.idx + 1));
                  recovered ==> t2.rd == Reader(t2.rd.pos, 0, 0) && t2.rd.pos > t1.rd.pos)
  {
    BlocksOk(l, t);
    var bs := t.store[l.crp[t.idx]].blocks;
    if t.rd.pos < |data| { ReadPacketAdvances(data, t.rd, bs); } else { EmptyPastEnd(data, t.rd.pos, bs); }
    RecoverProgress(l, ParseOne(l, data, t).1.(idx := t.idx + 1));
  }

  /** How many precincts one parse call tries. */
  function Turns(l: Layout, data: seq<byte>, t: Tile): nat
    requires Good(l, t)
    decreases |l.crp| - t.idx
  {
    if !Gate(t) || t.idx >= |l.crp| then 0
    else
      var (ok, t1) := ParseOne(l, data, t);
      if ok then 1 + Turns(l, data, Report(l, t1))
      else
        RecoverProgress(l, t1.(idx := t1.idx + 1));
        var (recovered, t2) := TryRecover(l, t1.(idx := t1.idx + 1));
        if recovered then 1 + Turns(l, data, t2) else 1
  }

  /** What is left of the queue after popping still ends in the same signal. */
  lemma {:induction false} DropPassedLast(q: seq<Signal>, pos: nat)
    ensures var r := DropPassed(q, pos);
            |r| <= |q| && r == q[|q| - |r|..]
  {
    if q != [] && q[0].off <= pos {
      DropPassedLast(q[1..], pos);
      var r := DropPassed(q, pos);
      assert q[1..][|q| - 1 - |r|..] == q[|q| - |r|..];
    }
  }

  /** Recovery leaves the last signal where it is, or none. */
  lemma RecoverKeepsLast(l: Layout, t: Tile)
    ensures var (ok, t') := TryRecover(l, t);
            ok && t'.signals != [] ==> t.signals != [] && t'.signals[|t'.signals| - 1] == t.signals[|t.signals| - 1]
  {
    DropPassedLast(t.signals, t.rd.pos);
  }

  /**
   The parse loop ends: while the last signal lies inside the buffered bytes, one call tries
   at most as many precincts as there are bytes between the cursor and that signal, whatever
   the bytes are, whatever fails and however long the progression is.
   */
  lemma {:induction false} ParseTurnsBounded(l: Layout, data: seq<byte>, t: Tile)
    requires Good(l, t) && t.rd == Reader(t.rd.pos, 0, 0)
    requires t.signals != [] && t.signals[|t.signals| - 1].off <= |data|
    ensures var last := t.signals[|t.signals| - 1].off;
            Turns(l, data, t) <= if t.rd.pos < last then last - t.rd.pos else 0
    decreases |l.crp| - t.idx
  {
    hide StoreOk, LayoutOk, ReadPacket, Lookup;
    if Gate(t) && t.idx < |l.crp| {
      ParseTurnAdvances(l, data, t);
      var (ok, t1) := ParseOne(l, data, t);
      if ok {
        ParseTurnsBounded(l, data, Report(l, t1));
      } else {
        var t2 := t1.(idx := t1.idx + 1);
        RecoverProgress(l, t2);
        RecoverKeepsLast(l, t2);
        var (recovered, t3) := TryRecover(l, t2);
        if recovered && t3.signals != [] { ParseTurnsBounded(l, data, t3); }
      }
    }
  }

  // ---------------------------------------------------------- recovery is sound

  /** Signal `k` is the first one past the cursor. */
  predicate FirstPast(q: seq<Signal>, pos: nat, k: nat) {
    k < |q| && q[k].off > pos && forall j :: 0 <= j < k ==> q[j].off <= pos
  }

  lemma {:induction false} DropPassedIs(q: seq<Signal>, pos: nat, k: nat)
    requires FirstPast(q, pos, k)
    ensures DropPassed(q, pos) == q[k..]
  {
    if k > 0 {
      assert q[0].off <= pos;
      forall j | 0 <= j < k - 1 ensures q[1..][j].off <= pos { assert q[j + 1].off <= pos; }
      DropPassedIs(q[1..], pos, k - 1);
      assert q[1..][k - 1..] == q[k..];
    }
  }

  /**
   With signals in byte order, recovery lands on the nearest signal past the cursor
   and on the very precinct its PID names, or gives up; it gives up exactly when that
   PID names no precinct or one already passed.
   */
  lemma {:induction false} RecoverySound(l: Layout, t: Tile, k: nat)
    requires LayoutOk(l) && 1 <= l.components <= MAX_COMPONENTS && FirstPast(t.signals, t.rd.pos, k)
    requires forall i, j :: 0 <= i < j < |t.signals| ==> t.signals[i].off <= t.signals[j].off
    ensures var (ok, t') := TryRecover(l, t);
            var sig := t.signals[k];
            && (ok <==> Lookup(l, sig.pid).Some? && Lookup(l, sig.pid).value >= t.idx)
            && (ok ==> && t'.rd == Reader(sig.off, 0, 0) && t'.rd.pos > t.rd.pos
                       && t.idx <= t'.idx < |l.crp| && PidOf(l, t'.idx) == sig.pid
                       && t'.signals == t.signals[k + 1..])
            && (forall j :: 0 <= j < |t.signals| && t.signals[j].off > t.rd.pos ==> sig.off <= t.signals[j].off)
  {
    DropPassedIs(t.signals, t.rd.pos, k);
    PidBijection(l, 0, t.signals[k].pid);
    assert t.signals[k..][1..] == t.signals[k + 1..];
  }

  // ----------------------------------------- incremental equals whole-frame

  /** The tile after `k` precincts read one after the other from `data`, no gate and no signals consulted. */
  function Walk(l: Layout, data: seq<byte>, t0: Tile, k: nat): (r: Tile)
    requires Good(l, t0) && t0.idx + k <= |l.crp|
    ensures Good(l, r) && r.idx == t0.idx + k && r.signals == t0.signals
  {
    if k == 0 then t0 else Report(l, ParseOne(l, data, Walk(l, data, t0, k - 1)).1)
  }

  /** Precinct `k` parses, and its packet ends before the last byte of the frame. */
  predicate PacketFits(l: Layout, data: seq<byte>, t0: Tile, k: nat)
    requires Good(l, t0) && t0.idx + k < |l.crp|
  {
    ParseOne(l, data, Walk(l, data, t0, k)).0 && Walk(l, data, t0, k + 1).rd.pos < |data|
  }

  /** All precincts of the frame parse in sequence, with the end-of-codestream marker behind the last. */
  predicate WellFormed(l: Layout, data: seq<byte>, t0: Tile)
    requires Good(l, t0)
  {
    && t0.idx == 0 && t0.rd.pos < |data|
    && forall k :: 0 <= k < |l.crp| ==> PacketFits(l, data, t0, k)
  }

  /** `off` is the byte at which some precinct of the frame starts. */
  predicate IsStart(l: Layout, data: seq<byte>, t0: Tile, off: nat)
    requires Good(l, t0) && t0.idx == 0
  {
    exists j :: 0 <= j < |l.crp| && Walk(l, data, t0, j).rd.pos == off
  }

  lemma ParseOneForward(l: Layout, data: seq<byte>, t: Tile)
    requires Good(l, t) && t.idx < |l.crp|
    ensures ParseOne(l, data, t).1.rd.pos >= t.rd.pos
  {
    var bs := t.store[l.crp[t.idx]].blocks;
    AfterMonotone(data, t.rd, 0, 1);
    AfterMonotone(data, t.rd, 0, DecodeFrom(Avail(data, t.rd), 1, bs, 0).next);
  }

  lemma {:induction false} WalkForward(l: Layout, data: seq<byte>, t0: Tile, j: nat, k: nat)
    requires Good(l, t0) && t0.idx == 0 && j <= k <= |l.crp|
    ensures Walk(l, data, t0, j).rd.pos <= Walk(l, data, t0, k).rd.pos
    decreases k
  {
    hide ReadPacket, StoreOk, LayoutOk;
    if j < k {
      WalkForward(l, data, t0, j, k - 1);
      ParseOneForward(l, data, Walk(l, data, t0, k - 1));
    }
  }

  predicate SignalOk(l: Layout, data: seq<byte>, t0: Tile, have: nat, s: Signal)
    requires Good(l, t0) && t0.idx == 0
  {
    s.off <= have && IsStart(l, data, t0, s.off)
  }

  /** With `got` buffered of the frame, the tile is where the whole-frame walk is after `k` precincts. */
  predicate InStep(l: Layout, data: seq<byte>, t0: Tile, got: seq<byte>, t: Tile, k: nat)
    requires Good(l, t0) && t0.idx == 0
  {
    && k <= |l.crp| && got <= data
    && t == Walk(l, data, t0, k).(signals := t.signals)
    && t.rd.pos <= |got|
    && forall i :: 0 <= i < |t.signals| ==> SignalOk(l, data, t0, |got|, t.signals[i])
  }

  lemma BlocksOk(l: Layout, t: Tile)
    requires Good(l, t) && t.idx < |l.crp|
    ensures l.crp[t.idx] in t.store && AllLengthsOk(t.store[l.crp[t.idx]].blocks)
  {}

  /** An open gate means the packet at the cursor is buffered to its end. */
  lemma GateCoversPacket(l: Layout, data: seq<byte>, t0: Tile, got: seq<byte>, t: Tile, k: nat)
    requires Good(l, t0) && WellFormed(l, data, t0) && InStep(l, data, t0, got, t, k) && Gate(t)
    ensures k < |l.crp| && Walk(l, data, t0, k + 1).rd.pos <= |got|
  {
    hide Good, ParseOne, Report;
    var last := t.signals[|t.signals| - 1];
    assert SignalOk(l, data, t0, |got|, last);
    var j :| 0 <= j < |l.crp| && Walk(l, data, t0, j).rd.pos == last.off;
    if j <= k { WalkForward(l, data, t0, j, k); }
    WalkForward(l, data, t0, k + 1, j);
  }

  /** One gated turn: the precinct parsed from the buffered bytes is the one the whole frame gives. */
  lemma TurnInStep(l: Layout, data: seq<byte>, t0: Tile, got: seq<byte>, t: Tile, k: nat)
    requires Good(l, t0) && WellFormed(l, data, t0) && InStep(l, data, t0, got, t, k) && Gate(t)
    ensures k < |l.crp| && t.idx == k && Good(l, t) && ParseOne(l, got, t).0
    ensures InStep(l, data, t0, got, Report(l, ParseOne(l, got, t).1), k + 1)
  {
    hide ReadPacket, StoreOk, LayoutOk, Gate, IsStart;
    GateCoversPacket(l, data, t0, got, t, k);
    assert PacketFits(l, data, t0, k);
    var w := Walk(l, data, t0, k);
    BlocksOk(l, w);
    var bs := w.store[l.crp[k]].blocks;
    assert got == data[..|got|];
    assert Walk(l, data, t0, k + 1).rd == ReadPacket(data, w.rd, bs).rd;
    ReadPacketLocal(data, |got|, w.rd, bs);
  }

  lemma StepGood(l: Layout, data: seq<byte>, t0: Tile, got: seq<byte>, t: Tile, k: nat)
    requires Good(l, t0) && WellFormed(l, data, t0) && InStep(l, data, t0, got, t, k)
    ensures Good(l, t) && t0.idx == 0
  {
    hide ParseOne, PacketFits, StoreOk, LayoutOk;
  }

  lemma {:induction false} ParseInStep(l: Layout, data: seq<byte>, t0: Tile, got: seq<byte>, t: Tile, k: nat)
    returns (k': nat)
    requires Good(l, t0) && WellFormed(l, data, t0) && InStep(l, data, t0, got, t, k)
    ensures Good(l, t) && Parse(l, got, t).0 == Ok
    ensures InStep(l, data, t0, got, Parse(l, got, t).1, k')
    decreases |l.crp| - k
  {
    hide ParseOne, Report, Good, WellFormed, InStep, Gate, TryRecover;
    StepGood(l, data, t0, got, t, k);
    if Gate(t) {
      TurnInStep(l, data, t0, got, t, k);
      k' := ParseInStep(l, data, t0, got, Report(l, ParseOne(l, got, t).1), k + 1);
    } else {
      k' := k;
    }
  }

  lemma {:induction false} FlushInStep(l: Layout, data: seq<byte>, t0: Tile, t: Tile, k: nat)
    requires Good(l, t0) && WellFormed(l, data, t0) && k <= |l.crp|
    requires t == Walk(l, data, t0, k).(signals := t.signals)
    ensures Good(l, t) && Flush(l, data, t) == (Ok, Walk(l, data, t0, |l.crp|).(signals := t.signals))
    decreases |l.crp| - k
  {
    hide ReadPacket, StoreOk, LayoutOk;
    if k < |l.crp| {
      assert PacketFits(l, data, t0, k);
      FlushInStep(l, data, t0, Report(l, ParseOne(l, data, t).1), k + 1);
    }
  }

  lemma TurnWalks(l: Layout, data: seq<byte>, t0: Tile, t: Tile, k: nat)
    requires Good(l, t0) && WellFormed(l, data, t0) && k < |l.crp|
    requires t == Walk(l, data, t0, k).(signals := t.signals)
    ensures Good(l, t) && t.idx == k && ParseOne(l, data, t).0
    ensures Report(l, ParseOne(l, data, t).1) == Walk(l, data, t0, k + 1).(signals := t.signals)
  {
    hide ReadPacket, StoreOk, LayoutOk;
    assert PacketFits(l, data, t0, k);
  }

  /**
   The parse loop looks at no bound of the progression.  On a well-formed frame it leaves the
   progression exactly when the last signal lies behind the end of the last packet; otherwise
   it stops, successfully, at the first precinct start at or behind that signal.
   */
  lemma {:induction false} LeavesRangeIff(l: Layout, data: seq<byte>, t0: Tile, t: Tile, k: nat) returns (k': nat)
    requires Good(l, t0) && WellFormed(l, data, t0) && k <= |l.crp|
    requires t == Walk(l, data, t0, k).(signals := t.signals)
    ensures Good(l, t) && k <= k' <= |l.crp|
    ensures var beyond := t.signals != [] && t.signals[|t.signals| - 1].off > Walk(l, data, t0, |l.crp|).rd.pos;
            && Parse(l, data, t) == (if beyond then OutOfRange else Ok, Walk(l, data, t0, k').(signals := t.signals))
            && (beyond ==> k' == |l.crp|)
    ensures t.signals != [] ==> forall j :: k <= j < k' ==> Walk(l, data, t0, j).rd.pos < t.signals[|t.signals| - 1].off
    ensures t.signals == [] ==> k' == k
    decreases |l.crp| - k
  {
    hide ParseOne, Report, StoreOk, LayoutOk, PacketFits;
    WalkForward(l, data, t0, k, |l.crp|);
    k' := k;
    if Gate(t) && k < |l.crp| {
      TurnWalks(l, data, t0, t, k);
      k' := LeavesRangeIff(l, data, t0, Report(l, ParseOne(l, data, t).1), k + 1);
    }
  }

  /** Past the end there are only empty packets, and they do not move the cursor. */
  lemma EmptyPastEnd(data: seq<byte>, pos: nat, bs: seq<Block>)
    requires AllLengthsOk(bs) && pos >= |data|
    ensures ReadPacket(data, Reader(pos, 0, 0), bs) == Packet(true, bs, Reader(pos, 0, 0))
  {
    var rd := Reader(pos, 0, 0);
    assert Avail(data, rd) == [];
    assert After(data, rd, 1) == ReadBit(data, rd).1;
  }

  /**
   Whatever the frame: with the cursor at the end of the bytes and a signal beyond, the loop
   always leaves the progression.
   */
  lemma {:induction false} SignalBeyondBytes(l: Layout, data: seq<byte>, t: Tile)
    requires Good(l, t) && Gate(t) && t.rd == Reader(t.rd.pos, 0, 0) && t.rd.pos >= |data|
    ensures Parse(l, data, t).0 == OutOfRange
    decreases |l.crp| - t.idx
  {
    hide ReadPacket, StoreOk, LayoutOk;
    if t.idx < |l.crp| {
      BlocksOk(l, t);
      EmptyPastEnd(data, t.rd.pos, t.store[l.crp[t.idx]].blocks);
      SignalBeyondBytes(l, data, Report(l, ParseOne(l, data, t).1));
    }
  }

  /** The frame `data` arrives in order from byte `have` on, and every signal is a precinct start already covered. */
  predicate Clean(l: Layout, data: seq<byte>, t0: Tile, have: nat, ops: seq<TileOp>)
    requires Good(l, t0) && t0.idx == 0
    decreases |ops|
  {
    if ops == [] then have == |data|
    else
      match ops[0]
      case Grow(c) => have + |c| <= |data| && data[have..have + |c|] == c && Clean(l, data, t0, have + |c|, ops[1..])
      case Mark(off, pid) => off <= have && IsStart(l, data, t0, off) && Clean(l, data, t0, have, ops[1..])
      case Go => Clean(l, data, t0, have, ops[1..])
  }

  /**
   Every parse call along the way succeeds, inside the progression, and appends never find the
   cursor past the end.
   */
  predicate Smooth(l: Layout, f: Frame, ops: seq<TileOp>)
    requires Good(l, f.tile)
    decreases |ops|
  {
    ops == [] || (&& (ops[0].Go? ==> Parse(l, f.data, f.tile).0 == Ok)
                  && f.tile.rd.pos <= |f.data|
                  && Smooth(l, Step(l, f, ops[0]), ops[1..]))
  }

  lemma {:induction false} RunInStep(l: Layout, data: seq<byte>, t0: Tile, f: Frame, k: nat, ops: seq<TileOp>)
    returns (k': nat)
    requires Good(l, t0) && WellFormed(l, data, t0) && InStep(l, data, t0, f.data, f.tile, k)
    requires Clean(l, data, t0, |f.data|, ops)
    ensures Good(l, f.tile) && Smooth(l, f, ops)
    ensures Run(l, f, ops).data == data && InStep(l, data, t0, data, Run(l, f, ops).tile, k')
    decreases |ops|
  {
    hide ReadPacket, StoreOk, LayoutOk, Parse, PacketFits;
    if ops == [] {
      k' := k;
    } else {
      var g := Step(l, f, ops[0]);
      var k1 := k;
      match ops[0] {
        case Grow(c) =>
          assert f.data + c <= data
            by { assert data[..|f.data| + |c|] == data[..|f.data|] + data[|f.data|..|f.data| + |c|]; }
          assert forall i :: 0 <= i < |f.tile.signals| ==> SignalOk(l, data, t0, |f.data|, f.tile.signals[i]);
        case Mark(off, pid) =>
          assert SignalOk(l, data, t0, |f.data|, Signal(off, pid));
        case Go =>
          k1 := ParseInStep(l, data, t0, f.data, f.tile, k);
      }
      k' := RunInStep(l, data, t0, g, k1, ops[1..]);
    }
  }

  /**
   Incremental equals whole-frame.  For a well-formed frame, any cut into pieces, any
   signals on true precinct starts and any parse calls in between: every call succeeds
   inside the progression, and after the flush the callbacks, the blocks of every
   precinct, the cursor and the index are those of one flush over the whole frame,
   which fires exactly the progression.
   */
  lemma {:induction false} IncrementalEqualsWhole(l: Layout, data: seq<byte>, t0: Tile, ops: seq<TileOp>, have: nat)
    requires Good(l, t0) && WellFormed(l, data, t0) && t0.signals == [] && t0.calls == []
    requires t0.rd.pos <= have <= |data| && Clean(l, data, t0, have, ops)
    ensures var f0 := Frame(data[..have], t0);
            var f := Run(l, f0, ops);
            var (o, t) := Flush(l, f.data, f.tile);
            var (o', whole) := Flush(l, data, t0);
            && Smooth(l, f0, ops) && o == Ok == o'
            && t == whole.(signals := f.tile.signals)
            && whole.idx == |l.crp| == |whole.calls|
            && forall i :: 0 <= i < |l.crp| ==> whole.calls[i].idx == i && whole.calls[i].ct == l.crp[i]
  {
    var f0 := Frame(data[..have], t0);
    assert t0 == Walk(l, data, t0, 0);
    var k := RunInStep(l, data, t0, f0, 0, ops);
    FlushInStep(l, data, t0, Run(l, f0, ops).tile, k);
    FlushInStep(l, data, t0, t0, 0);
    WalkCalls(l, data, t0, |l.crp|);
  }

  lemma {:induction false} WalkCalls(l: Layout, data: seq<byte>, t0: Tile, k: nat)
    requires Good(l, t0) && t0.idx == 0 && t0.calls == [] && k <= |l.crp|
    ensures var w := Walk(l, data, t0, k);
            |w.calls| == k && forall i :: 0 <= i < k ==> w.calls[i].idx == i && w.calls[i].ct == l.crp[i]
  {
    hide ReadPacket, StoreOk, LayoutOk;
    if k > 0 { WalkCalls(l, data, t0, k - 1); }
  }
}
