/** From the geometry to the callbacks: a frame over the progression that the walk builds. */
module WalkedFrame {
  import opened Bytes
  import opened ChainReader
  import opened TileHandler
  import opened TileRuns
  import opened EncodedFrame
  import P = Progression
  import GC = GridCoverage

  /** No resolution has more precincts than sixteen bits can number. */
  ghost predicate Numberable(w: P.Grid) {
    forall c: nat, r: nat :: GC.PrecinctCount(w, c, r) <= 65536
  }

  /** A restarted tile over a walked progression meets the starting conditions of a frame. */
  lemma {:induction false} RestartedStart(w: P.Grid, ex: nat, ey: nat, o: P.Order, l: Layout, t: Tile)
    requires GC.AtOrigin(w, ex, ey) && Numberable(w) && l.crp == P.Sequence(w, o) && Good(l, t)
    ensures Good(l, Restart(t)) && FreshStart(l, Restart(t))
  {
    hide P.Sequence, Restart, LayoutOk, StoreOk, GC.ResolutionOk;
    GC.DistinctIff(w, ex, ey, o);
    RestartIsFresh(l, t);
  }

  /** The precincts called back, in order. */
  function Called(t: Tile): seq<Crp> {
    seq(|t.calls|, i requires 0 <= i < |t.calls| => t.calls[i].ct)
  }

  /**
   From geometry and encoder to the consumer: over the progression the walk builds for a tile at
   the origin, a frame of written packets, cut and signalled in any clean way and parsed as it
   arrives, calls back every precinct of every component and resolution exactly once, and nothing
   else, each callback showing what was written for it.
   */
  lemma {:induction false} EveryPrecinctDelivered(w: P.Grid, ex: nat, ey: nat, o: P.Order, l: Layout, t0: Tile,
                                                  header: seq<byte>, ws: seq<Written>, tail: seq<byte>,
                                                  ops: seq<TileOp>, have: nat, e: Crp)
    requires GC.AtOrigin(w, ex, ey) && Numberable(w) && l.crp == P.Sequence(w, o)
    requires Good(l, t0) && FreshStart(l, t0) && Covers(l, t0, ws) && t0.rd == Reader(|header|, 0, 0) && tail != []
    requires t0.signals == [] && t0.calls == []
    requires var data := FrameBytes(l, t0, header, ws, tail);
             |header| <= have <= |data| && Clean(l, data, t0, have, ops)
    ensures var f := Run(l, Frame(FrameBytes(l, t0, header, ws, tail)[..have], t0), ops);
            var t := Flush(l, f.data, f.tile).1;
            && multiset(Called(t))[e] == ToNat(e.p < GC.PrecinctCount(w, e.c, e.r))
            && (forall i :: 0 <= i < |l.crp| ==> CallShows(l, t0, ws, t, i))
  {
    hide P.Sequence, Good, FreshStart, Fits, FrameBytes, Clean, Run, Flush, GC.AtOrigin, Shows;
    WrittenFrameIsDelivered(l, t0, header, ws, tail, ops, have);
    GC.EveryPrecinctOnce(w, ex, ey, o, e);
    var f := Run(l, Frame(FrameBytes(l, t0, header, ws, tail)[..have], t0), ops);
    var t := Flush(l, f.data, f.tile).1;
    assert Called(t) == l.crp by {
      forall i | 0 <= i < |l.crp| ensures Called(t)[i] == l.crp[i] { assert CallShows(l, t0, ws, t, i); }
    }
  }
}
