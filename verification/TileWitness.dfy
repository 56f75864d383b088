/**
 A small tile, three components of one precinct with one block each, and inputs on it that
 leave the progression, fail, or fail and are recovered from.
 */
module TileWitness {
  import opened Bytes
  import opened ChainReader
  import opened BitStuffing
  import opened PacketHeader
  import opened PacketCoding
  import opened TileHandler
  import opened TileRuns
  import P = Progression
  import TF = TileFailures

  const TRIPLE := Layout([Crp(0, 0, 0), Crp(1, 0, 0), Crp(2, 0, 0)], 3, [[0], [1], [2]])

  const NEW := Precinct(1, 1, [Block(false, 0, 0, 0, 0, 0, false, 0, 0, 0, [], 0)])

  const STORE := map[Crp(0, 0, 0) := NEW, Crp(1, 0, 0) := NEW, Crp(2, 0, 0) := NEW]

  function Triple(at: nat, signals: seq<Signal>): Tile {
    Tile(Reader(at, 0, 0), 0, signals, STORE, [])
  }

  lemma TripleGood()
    ensures LayoutOk(TRIPLE) && StoreOk(TRIPLE.crp, STORE)
  {
    var crp := TRIPLE.crp;
    forall c | 0 <= c < 3 ensures IndicesOf(crp, c, 3) == [c] {
      assert IndicesOf(crp, c, 1) == if c == 0 then [0] else [];
      assert IndicesOf(crp, c, 2) == if c == 0 then [0] else if c == 1 then [1] else [];
    }
  }

  /** One pixel in three components: the walk builds this progression, in either order. */
  const PIXEL := P.Component(1, 1, [P.Resolution(0, 0, 0, 0, 0, 0, 1, 1)])

  const ONE_POINT := P.Grid(P.Geometry(0, 0, 1, 1, [PIXEL, PIXEL, PIXEL]), 1, 1)

  /** At the only grid point each component has its one entry. */
  lemma PixelEntry(c: nat, r: nat)
    ensures P.Sound(ONE_POINT)
    ensures P.One(ONE_POINT, c, r, 0, 0) == if c < 3 && r == 0 then [Crp(c, 0, 0)] else []
  {
    hide P.SpaceX, P.SpaceY;
    if c < 3 && r == 0 { assert P.Hit(ONE_POINT, c, r, 0, 0); }
  }

  lemma {:induction false} PixelComponent(c: nat, n: nat)
    requires c < 3 && n >= 1
    ensures P.Sound(ONE_POINT) && P.OfComponent(ONE_POINT, c, n, 0, 0) == [Crp(c, 0, 0)]
  {
    hide P.One;
    PixelEntry(c, n - 1);
    if n > 1 {
      PixelComponent(c, n - 1);
    } else {
      assert P.OfComponent(ONE_POINT, c, 0, 0, 0) == [];
    }
  }

  lemma {:induction false} PixelResolution(n: nat)
    requires n >= 1
    ensures P.Sound(ONE_POINT) && P.ByResolution(ONE_POINT, n, 0, 0) == TRIPLE.crp
  {
    hide P.One;
    var w, r := ONE_POINT, n - 1;
    PixelEntry(0, r);
    PixelEntry(1, r);
    PixelEntry(2, r);
    assert P.OfResolution(w, r, 0, 0, 0) == [];
    assert P.OfResolution(w, r, 1, 0, 0) == P.One(w, 0, r, 0, 0);
    assert P.OfResolution(w, r, 2, 0, 0) == P.OfResolution(w, r, 1, 0, 0) + P.One(w, 1, r, 0, 0);
    assert P.OfResolution(w, r, 3, 0, 0) == P.OfResolution(w, r, 2, 0, 0) + P.One(w, 2, r, 0, 0);
    if n > 1 { PixelResolution(n - 1); }
  }

  lemma {:induction false} TripleWalked(o: P.Order)
    ensures P.Sound(ONE_POINT) && P.Sequence(ONE_POINT, o) == TRIPLE.crp
  {
    hide P.One;
    var w := ONE_POINT;
    PixelComponent(0, P.MAX_RESOLUTIONS);
    PixelComponent(1, P.MAX_RESOLUTIONS);
    PixelComponent(2, P.MAX_RESOLUTIONS);
    PixelResolution(P.MAX_RESOLUTIONS);
    hide P.OfComponent, P.ByResolution;
    assert P.ByComponent(w, 1, 0, 0) == [Crp(0, 0, 0)];
    assert P.ByComponent(w, 2, 0, 0) == [Crp(0, 0, 0), Crp(1, 0, 0)];
    assert P.AtPoint(w, o, 0, 0) == TRIPLE.crp;
    hide P.AtPoint;
    assert P.XEnd(w) == 1 && P.YEnd(w) == 1;
    assert P.UpTo(w, o, 0, 0) == [];
    assert P.UpTo(w, o, 0, 1) == P.UpTo(w, o, 0, 0) + P.AtPoint(w, o, 0, 0);
  }

  // ------------------------------------------------------------- empty packets

  /** A zero byte is an empty packet. */
  lemma ZeroByte(data: seq<byte>, pos: nat, bs: seq<Block>)
    requires AllLengthsOk(bs) && pos < |data| && data[pos] == 0
    ensures ReadPacket(data, Reader(pos, 0, 0), bs) == Packet(true, bs, Reader(pos + 1, 0, 0))
  {
    ZeroLowBits(8, 0);
    var rd := Reader(pos, 0, 0);
    assert Avail(data, rd) == LowBits(0, 0) + (LowBits(0, 8) + BytesToBits(data, pos + 1, false));
    assert After(data, rd, 1) == ReadBit(data, rd).1;
  }

  /** Reading an empty packet moves the cursor and nothing else. */
  lemma EmptyTurn(l: Layout, data: seq<byte>, t: Tile, rd: Reader)
    requires Good(l, t) && t.idx < |l.crp| && l.crp[t.idx] in t.store && AllLengthsOk(t.store[l.crp[t.idx]].blocks)
    requires ReadPacket(data, t.rd, t.store[l.crp[t.idx]].blocks) == Packet(true, t.store[l.crp[t.idx]].blocks, rd)
    ensures ParseOne(l, data, t) == (true, t.(rd := rd))
  {
    hide ReadPacket;
    var ct := l.crp[t.idx];
    assert t.store[ct := t.store[ct].(blocks := t.store[ct].blocks)] == t.store;
  }

  lemma {:induction false} ZerosWalk(n: nat, at: nat, k: nat)
    requires k <= 3 && at + k <= n
    ensures Good(TRIPLE, Triple(at, []))
    ensures var w := Walk(TRIPLE, Zeros(n), Triple(at, []), k);
            w.rd == Reader(at + k, 0, 0) && w.store == STORE
    ensures k < 3 && at + k < n ==>
              var w := Walk(TRIPLE, Zeros(n), Triple(at, []), k);
              ParseOne(TRIPLE, Zeros(n), w) == (true, w.(rd := Reader(at + k + 1, 0, 0)))
  {
    TripleGood();
    hide ReadPacket, LayoutOk, StoreOk, ParseOne;
    if k > 0 { ZerosWalk(n, at, k - 1); }
    var w := Walk(TRIPLE, Zeros(n), Triple(at, []), k);
    if k < 3 && at + k < n {
      BlocksOk(TRIPLE, w);
      ZeroByte(Zeros(n), at + k, w.store[TRIPLE.crp[k]].blocks);
      EmptyTurn(TRIPLE, Zeros(n), w, Reader(at + k + 1, 0, 0));
    }
  }

  /** On zero bytes a signal behind the third leads out of the progression. */
  lemma {:induction false} ZerosLeave(n: nat, s: Signal)
    requires n > 3 && s.off > 3
    ensures Good(TRIPLE, Triple(0, [])) && WellFormed(TRIPLE, Zeros(n), Triple(0, []))
    ensures Good(TRIPLE, Triple(0, [s])) && Parse(TRIPLE, Zeros(n), Triple(0, [s])).0 == OutOfRange
  {
    TripleGood();
    hide ParseOne, StoreOk, LayoutOk;
    forall k | 0 <= k < 3 ensures PacketFits(TRIPLE, Zeros(n), Triple(0, []), k) {
      ZerosWalk(n, 0, k);
      ZerosWalk(n, 0, k + 1);
    }
    ZerosWalk(n, 0, 3);
    var k' := LeavesRangeIff(TRIPLE, Zeros(n), Triple(0, []), Triple(0, [s]), 0);
  }

  /** A well-formed frame, its bytes all there, and a signal at the end of them: the loop leaves the progression. */
  lemma {:induction false} SomeParseLeavesRange()
    ensures Good(TRIPLE, Triple(0, [])) && WellFormed(TRIPLE, Zeros(4), Triple(0, []))
    ensures var t := Triple(0, [Signal(4, 0)]);
            Good(TRIPLE, t) && Parse(TRIPLE, Zeros(4), t).0 == OutOfRange
  {
    ZerosLeave(4, Signal(4, 0));
  }

  // --------------------------------------------------------------- a bad packet

  /** A packet that codes as many passes as the limit. */
  function Bad(): seq<byte> {
    Stuff(PassesOnly(MAX_PASSES), false)
  }

  lemma {:induction false} StuffLength(bits: seq<bool>, afterFF: bool)
    ensures |Stuff(bits, afterFF)| <= |bits| + 1
    decreases |bits|
  {
    if bits != [] {
      var cap := if afterFF then 7 else 8;
      PowersOfTwo();
      if |bits| > cap { StuffLength(bits[cap..], Pack(bits, cap) == 0xFF); }
    }
  }

  lemma BadLength()
    ensures |Bad()| <= 20
  {
    hide NumBits, Stuff;
    StuffLength(PassesOnly(MAX_PASSES), false);
  }

  /** Read for the first precinct it fails, having gone over no more than its own bytes. */
  lemma BadTurn(header: seq<byte>, behind: seq<byte>, t: Tile)
    requires t == Triple(|header|, t.signals)
    ensures Good(TRIPLE, t)
    ensures var (ok, t1) := ParseOne(TRIPLE, header + Bad() + behind, t);
            && !ok && t1 == t.(rd := t1.rd, store := t1.store) && |header| < t1.rd.pos <= |header + Bad()|
            && t1.store.Keys == STORE.Keys && t1.store[Crp(1, 0, 0)] == t1.store[Crp(2, 0, 0)] == NEW
  {
    TripleGood();
    hide ReadPacket, LayoutOk, Stuff, PassesOnly;
    TooManyPassesFail(header, MAX_PASSES, behind, NEW.blocks);
  }

  /** With a signal just behind its start nothing is left to go on from: the parse fails. */
  lemma BadParse(header: seq<byte>)
    ensures var t := Triple(|header|, [Signal(|header| + 1, 0)]);
            Good(TRIPLE, t) && Parse(TRIPLE, header + Bad(), t).0 == Failed
  {
    hide StoreOk, LayoutOk, Bad, ParseOne;
    var t := Triple(|header|, [Signal(|header| + 1, 0)]);
    BadTurn(header, [], t);
    assert header + Bad() + [] == header + Bad();
    var t1 := ParseOne(TRIPLE, header + Bad(), t).1;
    assert t.signals[1..] == [] && DropPassed(t.signals, t1.rd.pos) == [];
  }

  lemma BadFlush(header: seq<byte>)
    ensures Good(TRIPLE, Triple(|header|, []))
    ensures Flush(TRIPLE, header + Bad(), Triple(|header|, [])).0 == Failed
  {
    hide StoreOk, LayoutOk, Bad, ParseOne;
    BadTurn(header, [], Triple(|header|, []));
    assert header + Bad() + [] == header + Bad();
  }

  // ---------------------------------------------------- failed and recovered from

  /** The tile once it has gone on at the second precinct, at the end of the bytes. */
  predicate WentOn(t: Tile, at: nat) {
    && t.rd == Reader(at, 0, 0) && t.idx == 1 && t.signals == [] && t.calls == []
    && t.store.Keys == STORE.Keys && t.store[Crp(1, 0, 0)] == t.store[Crp(2, 0, 0)] == NEW
  }

  /**
   With a signal for the second precinct behind the bad packet, the call succeeds although the
   first precinct failed.
   */
  lemma RecoveredParse(header: seq<byte>, behind: seq<byte>)
    requires behind != []
    ensures var data := header + Bad() + behind;
            var t := Triple(|header|, [Signal(|data|, 1)]);
            && Good(TRIPLE, t) && Parse(TRIPLE, data, t).0 == Ok && WentOn(Parse(TRIPLE, data, t).1, |data|)
            && TF.ParseFailures(TRIPLE, data, t) == 1
  {
    hide StoreOk, LayoutOk, Bad, ParseOne;
    var data := header + Bad() + behind;
    var t := Triple(|header|, [Signal(|data|, 1)]);
    BadTurn(header, behind, t);
    var t1 := ParseOne(TRIPLE, data, t).1;
    assert DropPassed(t.signals, t1.rd.pos) == t.signals;
    assert Lookup(TRIPLE, 1) == Some(1);
    var (ok, t2) := TryRecover(TRIPLE, t1.(idx := 1));
    assert ok && WentOn(t2, |data|);
    RecoverProgress(TRIPLE, t1.(idx := 1));
  }

  /** The flush then finds only empty packets: it succeeds, and calls back the second and third precincts. */
  lemma RecoveredFlush(data: seq<byte>, t: Tile)
    requires Good(TRIPLE, t) && WentOn(t, |data|)
    ensures var (o, t') := Flush(TRIPLE, data, t);
            o == Ok && |t'.calls| == 2 && t'.calls[0].idx == 1 && t'.calls[1].idx == 2
    ensures TF.FlushFailures(TRIPLE, data, t) == 0
  {
    hide StoreOk, LayoutOk, ParseOne, ReadPacket;
    EmptyPastEnd(data, |data|, NEW.blocks);
    EmptyTurn(TRIPLE, data, t, Reader(|data|, 0, 0));
    var t1 := Report(TRIPLE, t);
    EmptyTurn(TRIPLE, data, t1, Reader(|data|, 0, 0));
    assert t.(rd := Reader(|data|, 0, 0)) == t && t1.(rd := Reader(|data|, 0, 0)) == t1;
    var t2 := Report(TRIPLE, t1);
    assert Flush(TRIPLE, data, t2) == (Ok, t2) && TF.FlushFailures(TRIPLE, data, t2) == 0;
    assert Flush(TRIPLE, data, t1) == (Ok, t2) && TF.FlushFailures(TRIPLE, data, t1) == 0;
  }
}
