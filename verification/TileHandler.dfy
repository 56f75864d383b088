/**
 The tile: precincts in progression order, parsed as their bytes arrive.
 Parsing is gated by the resync signals of body packets, the end of the frame
 flushes the rest, and a failed precinct snaps forward to the next signal.
 The functions here say what each operation does to the tile's state; the class
 in `TileParser` is proved against them.
 */
module TileHandler {
  import opened Bytes
  import opened ChainReader
  import opened PacketHeader

  const MAX_COMPONENTS := 3
  const MAX_SIGNALS := 16384

  /** Component, resolution, precinct. */
  datatype Crp = Crp(c: nat, r: nat, p: nat)

  datatype Precinct = Precinct(numBands: nat, perBand: nat, blocks: seq<Block>)

  datatype Signal = Signal(off: nat, pid: nat)

  /** A precinct callback: index in the progression, identity, contents. */
  datatype Callback = Callback(idx: nat, ct: Crp, prec: Precinct)

  /** What `create` builds once per stream. */
  datatype Layout = Layout(crp: seq<Crp>, components: nat, table: seq<seq<nat>>)

  datatype Tile = Tile(rd: Reader, idx: nat, signals: seq<Signal>, store: map<Crp, Precinct>, calls: seq<Callback>)

  /** `OutOfRange`: the gate asked for a precinct past the last one, an access the code does not guard. */
  datatype Outcome = Ok | Failed | OutOfRange

  predicate PrecinctOk(p: Precinct) {
    |p.blocks| == p.numBands * p.perBand && AllLengthsOk(p.blocks)
  }

  predicate StoreOk(crp: seq<Crp>, store: map<Crp, Precinct>) {
    forall i :: 0 <= i < |crp| ==> crp[i] in store && PrecinctOk(store[crp[i]])
  }

  // -------------------------------------------------------------- PID table

  /** Indices below `n` that belong to component `c`, in order. */
  function IndicesOf(crp: seq<Crp>, c: nat, n: nat): (r: seq<nat>)
    requires n <= |crp|
    ensures forall s :: 0 <= s < |r| ==> r[s] < n && crp[r[s]].c == c
  {
    if n == 0 then []
    else if crp[n - 1].c == c then IndicesOf(crp, c, n - 1) + [n - 1]
    else IndicesOf(crp, c, n - 1)
  }

  predicate LayoutOk(l: Layout) {
    && |l.table| == MAX_COMPONENTS
    && forall c :: 0 <= c < MAX_COMPONENTS ==> l.table[c] == IndicesOf(l.crp, c, |l.crp|)
  }

  /** The progression index a signalled PID stands for. */
  function Lookup(l: Layout, pid: nat): Option<nat> {
    if l.components == 0 then None
    else
      var c, s := pid % l.components, pid / l.components;
      if c >= |l.table| || s >= |l.table[c]| then None else Some(l.table[c][s])
  }

  /**
   The PID of progression index `i`: component plus, per earlier precinct of that component,
   the number of components.
   */
  function PidOf(l: Layout, i: nat): nat
    requires i < |l.crp|
  {
    l.crp[i].c + l.components * |IndicesOf(l.crp, l.crp[i].c, i)|
  }

  lemma {:induction false} IndicesPrefix(crp: seq<Crp>, c: nat, m: nat, n: nat)
    requires m <= n <= |crp|
    ensures IndicesOf(crp, c, m) <= IndicesOf(crp, c, n)
    decreases n
  {
    if m < n { IndicesPrefix(crp, c, m, n - 1); }
  }

  lemma {:induction false} IndexRank(crp: seq<Crp>, c: nat, n: nat, s: nat)
    requires n <= |crp| && s < |IndicesOf(crp, c, n)|
    ensures |IndicesOf(crp, c, IndicesOf(crp, c, n)[s])| == s
  {
    if s < |IndicesOf(crp, c, n - 1)| { IndexRank(crp, c, n - 1, s); }
  }

  /** Remainder and quotient of a number put together from them. */
  lemma DivMod(c: nat, s: nat, n: nat)
    requires c < n <= MAX_COMPONENTS
    ensures (c + n * s) % n == c && (c + n * s) / n == s
  {
    if n == 1 {} else if n == 2 {} else {}
  }

  /** PIDs and progression indices correspond one to one: each is recovered from the other. */
  lemma {:induction false} PidBijection(l: Layout, i: nat, pid: nat)
    requires LayoutOk(l) && 1 <= l.components <= MAX_COMPONENTS
    ensures i < |l.crp| && l.crp[i].c < l.components ==> Lookup(l, PidOf(l, i)) == Some(i)
    ensures Lookup(l, pid).Some? ==> Lookup(l, pid).value < |l.crp| && PidOf(l, Lookup(l, pid).value) == pid
  {
    var n := l.components;
    if i < |l.crp| && l.crp[i].c < n {
      var c := l.crp[i].c;
      IndicesPrefix(l.crp, c, i + 1, |l.crp|);
      var s := |IndicesOf(l.crp, c, i)|;
      assert IndicesOf(l.crp, c, i + 1)[s] == i;
      DivMod(c, s, n);
    }
    if Lookup(l, pid).Some? {
      IndexRank(l.crp, pid % n, |l.crp|, pid / n);
    }
  }

  // ------------------------------------------------------------- operations

  function AddSignal(t: Tile, off: nat, pid: nat): Tile {
    t.(signals := (if |t.signals| >= MAX_SIGNALS then [] else t.signals) + [Signal(off, pid)])
  }

  function DropPassed(q: seq<Signal>, pos: nat): seq<Signal> {
    if q != [] && q[0].off <= pos then DropPassed(q[1..], pos) else q
  }

  /** Snap to the first signal past the cursor, if its precinct is not behind. */
  function TryRecover(l: Layout, t: Tile): (bool, Tile) {
    var q := DropPassed(t.signals, t.rd.pos);
    var t1 := t.(signals := q);
    if q == [] then (false, t1)
    else
      match Lookup(l, q[0].pid)
      case None => (false, t1)
      case Some(i) =>
        if i < t.idx then (false, t1)
        else (true, t1.(rd := Reader(q[0].off, 0, 0), idx := i, signals := q[1..]))
  }

  predicate Good(l: Layout, t: Tile) {
    LayoutOk(l) && StoreOk(l.crp, t.store)
  }

  /** One precinct at the current index: the packet goes into its blocks. */
  function ParseOne(l: Layout, data: seq<byte>, t: Tile): (r: (bool, Tile))
    requires Good(l, t) && t.idx < |l.crp|
    ensures Good(l, r.1) && l.crp[t.idx] in r.1.store
    ensures r.1 == t.(rd := r.1.rd, store := r.1.store)
  {
    var ct := l.crp[t.idx];
    var p := t.store[ct];
    var r := ReadPacket(data, t.rd, p.blocks);
    (r.ok, t.(rd := r.rd, store := t.store[ct := p.(blocks := r.blocks)]))
  }

  /** The callback for the precinct just parsed, then the next index. */
  function Report(l: Layout, t: Tile): Tile
    requires Good(l, t) && t.idx < |l.crp|
  {
    var ct := l.crp[t.idx];
    t.(idx := t.idx + 1, calls := t.calls + [Callback(t.idx, ct, t.store[ct])])
  }

  /** Parsing may go on: there is a signal beyond the cursor. */
  predicate Gate(t: Tile) {
    t.signals != [] && t.rd.pos < t.signals[|t.signals| - 1].off
  }

  function Parse(l: Layout, data: seq<byte>, t: Tile): (r: (Outcome, Tile))
    requires Good(l, t)
    ensures Good(l, r.1)
    decreases |l.crp| - t.idx
  {
    if !Gate(t) then (Ok, t)
    else if t.idx >= |l.crp| then (OutOfRange, t)
    else
      var (ok, t1) := ParseOne(l, data, t);
      if ok then Parse(l, data, Report(l, t1))
      else
        var (recovered, t2) := TryRecover(l, t1.(idx := t1.idx + 1));
        if recovered then Parse(l, data, t2) else (Failed, t2)
  }

  lemma {:induction false} DropPassedShorter(q: seq<Signal>, pos: nat)
    ensures |DropPassed(q, pos)| <= |q|
  {
    if q != [] && q[0].off <= pos { DropPassedShorter(q[1..], pos); }
  }

  /** Recovery never goes back and always uses up a signal. */
  lemma {:induction false} RecoverProgress(l: Layout, t: Tile)
    ensures var (ok, t') := TryRecover(l, t);
            ok ==> t'.idx >= t.idx && |t'.signals| < |t.signals| && t'.rd.pos > t.rd.pos
  {
    DropPassedShorter(t.signals, t.rd.pos);
    DropPassedPasses(t.signals, t.rd.pos);
  }

  lemma {:induction false} DropPassedPasses(q: seq<Signal>, pos: nat)
    ensures DropPassed(q, pos) != [] ==> DropPassed(q, pos)[0].off > pos
  {
    if q != [] && q[0].off <= pos { DropPassedPasses(q[1..], pos); }
  }

  function Flush(l: Layout, data: seq<byte>, t: Tile): (r: (Outcome, Tile))
    requires Good(l, t)
    ensures Good(l, r.1)
    decreases |l.crp| - t.idx + |t.signals|
  {
    if t.idx >= |l.crp| then (Ok, t)
    else
      var (ok, t1) := ParseOne(l, data, t);
      if ok then Flush(l, data, Report(l, t1))
      else
        RecoverProgress(l, t1);
        var (recovered, t2) := TryRecover(l, t1);
        if recovered then Flush(l, data, t2) else (Failed, t2)
  }

  /** A block as `restart` leaves it. */
  function ResetBlock(b: Block): (r: Block)
    ensures Fresh(r) && LengthsOk(r)
  {
    b.(length := 0, npasses := 0, len0 := 0, len1 := 0, inclVal := 0, zbpVal := 0)
  }

  function ResetPrecinct(p: Precinct): (r: Precinct)
    ensures |r.blocks| == |p.blocks| && forall k :: 0 <= k < |r.blocks| ==> Fresh(r.blocks[k])
    ensures PrecinctOk(p) ==> PrecinctOk(r)
  {
    p.(blocks := seq(|p.blocks|, k requires 0 <= k < |p.blocks| => ResetBlock(p.blocks[k])))
  }

  /** Frame boundary: no signals, first precinct, fresh blocks; the cursor is the caller's business. */
  function Restart(t: Tile): Tile {
    t.(idx := 0, signals := [], store := map ct | ct in t.store :: ResetPrecinct(t.store[ct]))
  }

  /** Two blocks agree in all that a restart leaves alone: the last contents. */
  predicate SameContents(a: Block, b: Block) {
    (a.incl, a.zbp, a.lblock, a.plhd, a.data, a.scup) == (b.incl, b.zbp, b.lblock, b.plhd, b.data, b.scup)
  }

  /** A restarted tile meets the starting conditions of a frame; what is not counted anew stays. */
  lemma {:induction false} RestartIsFresh(l: Layout, t: Tile)
    requires Good(l, t)
    ensures Good(l, Restart(t)) && Restart(t).idx == 0 && Restart(t).signals == []
    ensures forall i, k :: 0 <= i < |l.crp| && 0 <= k < |Restart(t).store[l.crp[i]].blocks| ==>
              Fresh(Restart(t).store[l.crp[i]].blocks[k])
    ensures Restart(t).store.Keys == t.store.Keys && Restart(t).rd == t.rd && Restart(t).calls == t.calls
    ensures forall i :: 0 <= i < |l.crp| ==> Kept(t.store[l.crp[i]], Restart(t).store[l.crp[i]])
  {}

  predicate Kept(p: Precinct, q: Precinct) {
    && q.numBands == p.numBands && q.perBand == p.perBand && |q.blocks| == |p.blocks|
    && forall k :: 0 <= k < |p.blocks| ==> SameContents(q.blocks[k], p.blocks[k])
  }
}
