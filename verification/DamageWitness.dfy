/**
 Why `DamagedFrames` asks that no packet be read to a wrong end: zero bytes are empty
 packets, so a damaged frame can run through its progression in a few bytes.
 */
module DamageWitness {
  import opened Bytes
  import opened PacketHeader
  import opened PacketCoding
  import opened TileHandler
  import opened TileRuns
  import opened TileWitness
  import D = DamagedFrames
  import EF = EncodedFrame

  /** A block of four bytes in the first precinct, nothing in the other two. */
  const WRITTEN := [EF.FullPacket([Present(0, 1, 0, 4, 0)], [Zeros(4)]), EF.EmptyPacket, EF.EmptyPacket]

  lemma WrittenFits()
    ensures Good(TRIPLE, Triple(0, [])) && EF.FreshStart(TRIPLE, Triple(0, []))
            && EF.Covers(TRIPLE, Triple(0, []), WRITTEN)
  {
    TripleGood();
    FirstFits();
    hide LayoutOk, ValidCode, ValidCodes, CodeLength, PrecinctOk;
    var t0 := Triple(0, []);
    forall i | 0 <= i < 3 ensures t0.store[TRIPLE.crp[i]] == NEW && EF.Fits(WRITTEN[i], 1) {
      assert TRIPLE.crp[i] == Crp(i, 0, 0);
    }
    assert FreshFrom(NEW.blocks, 0);
  }

  lemma FirstFits()
    ensures EF.Fits(WRITTEN[0], 1)
  {
    assert Log2(1) == 0 && Pow2(3) == 8;
    assert ValidCode(Present(0, 1, 0, 4, 0));
  }

  /** The frame as it was sent. */
  function WrittenFrame(): seq<byte>
    requires Good(TRIPLE, Triple(0, [])) && EF.Covers(TRIPLE, Triple(0, []), WRITTEN)
  {
    EF.FrameBytes(TRIPLE, Triple(0, []), [], WRITTEN, [0])
  }

  lemma WrittenFrameSent()
    ensures Good(TRIPLE, Triple(0, [])) && EF.Covers(TRIPLE, Triple(0, []), WRITTEN)
    ensures D.Sent(TRIPLE, WrittenFrame(), Triple(0, []))
    ensures 3 < D.StartOf(TRIPLE, WrittenFrame(), Triple(0, []), 1) < |WrittenFrame()|
  {
    WrittenWellFormed();
    hide WrittenFrame, Good, WellFormed, EF.Covers, D.Sent, Triple, Walk;
    TripleSent(WrittenFrame());
    FirstStart();
    D.SentWalk(TRIPLE, WrittenFrame(), Triple(0, []), 1);
  }

  lemma WrittenWellFormed()
    ensures Good(TRIPLE, Triple(0, [])) && EF.Covers(TRIPLE, Triple(0, []), WRITTEN)
    ensures WellFormed(TRIPLE, WrittenFrame(), Triple(0, []))
  {
    WrittenFits();
    hide Good, EF.Covers, EF.FreshStart, WellFormed, EF.FrameBytes;
    EF.EncodedIsWellFormed(TRIPLE, Triple(0, []), [], WRITTEN, [0]);
  }

  lemma TripleSent(data: seq<byte>)
    requires Good(TRIPLE, Triple(0, [])) && WellFormed(TRIPLE, data, Triple(0, []))
    ensures D.Sent(TRIPLE, data, Triple(0, [])) && Triple(0, []).idx == 0 && |TRIPLE.crp| == 3
  {
    hide Good, WellFormed;
  }

  lemma FirstStart()
    ensures Good(TRIPLE, Triple(0, [])) && EF.Covers(TRIPLE, Triple(0, []), WRITTEN)
    ensures D.StartOf(TRIPLE, WrittenFrame(), Triple(0, []), 1) >= 4
  {
    WrittenFits();
    hide Good, EF.Covers, EF.FreshStart, EF.FrameBytes, ParseOne, EF.Packets;
    EF.WalkEncoded(TRIPLE, Triple(0, []), [], WRITTEN, [0], 1);
    FirstPacket();
  }

  lemma FirstPacket()
    ensures Good(TRIPLE, Triple(0, [])) && EF.Covers(TRIPLE, Triple(0, []), WRITTEN)
    ensures |EF.Packets(TRIPLE, Triple(0, []), WRITTEN, 1)| >= 4
  {
    WrittenFits();
    hide Good, EF.Covers, ValidCodes, HeaderBits, CodeLength;
    assert EF.Packets(TRIPLE, Triple(0, []), WRITTEN, 0) == [];
    assert Join([Zeros(4)]) == Zeros(4);
  }

  /** All bytes of the frame zeroed, one signal, and that a true one: the loop leaves the progression. */
  lemma {:induction false} UndetectedLeavesRange()
    ensures Good(TRIPLE, Triple(0, [])) && EF.Covers(TRIPLE, Triple(0, []), WRITTEN)
    ensures var data, t0, rx := WrittenFrame(), Triple(0, []), Zeros(|WrittenFrame()|);
            var s := Signal(D.StartOf(TRIPLE, data, t0, 1), PidOf(TRIPLE, 1));
            && D.Sent(TRIPLE, data, t0) && D.TrueSignal(TRIPLE, data, t0, |data|, s)
            && !D.HonestIn(TRIPLE, data, t0, rx, 0)
            && Good(TRIPLE, AddSignal(t0, s.off, s.pid))
            && Parse(TRIPLE, rx, AddSignal(t0, s.off, s.pid)).0 == OutOfRange
  {
    WrittenFrameSent();
    hide WrittenFrame, D.Sent, LayoutOk, StoreOk, EF.Covers, Parse, WellFormed, PidOf;
    var data, t0 := WrittenFrame(), Triple(0, []);
    var s := Signal(D.StartOf(TRIPLE, data, t0, 1), PidOf(TRIPLE, 1));
    ZerosLeave(|data|, s);
    assert AddSignal(t0, s.off, s.pid) == Triple(0, [s]);
    hide ReadPacket;
    BlocksOk(TRIPLE, t0);
    ZeroByte(Zeros(|data|), 0, t0.store[TRIPLE.crp[0]].blocks);
    assert D.StartOf(TRIPLE, data, t0, 0) == 0;
  }
}
