/**
 Handler and tile together on one frame that arrives without loss: packets go
 through the frame handler, the tile parses as they come, and the answers the
 handler meets are the tile's own.
 */
module CleanFrame {
  import opened Bytes
  import opened ChainReader
  import T = TileHandler
  import TR = TileRuns
  import F = FrameHandler
  import FR = FrameRuns
  import GS = GeometrySignature

  /** What one body packet makes the tile do, `at` being the bytes before it. */
  function OpsOfPacket(at: nat, p: F.Packet): seq<TR.TileOp> {
    [TR.Grow(p.body)] + (if p.ordb then [TR.Mark(at + p.pos, p.pid), TR.Go] else [])
  }

  function OpsOf(at: nat, ps: seq<F.Packet>): seq<TR.TileOp>
    decreases |ps|
  {
    if ps == [] then [] else OpsOfPacket(at, ps[0]) + OpsOf(at + |ps[0].body|, ps[1..])
  }

  /** What the tile's parse says once the packet's bytes and signal are in. */
  function TileParse(l: T.Layout, f: TR.Frame, a: TR.TileOp, b: TR.TileOp): bool
    requires T.Good(l, f.tile)
  {
    var g := TR.Step(l, TR.Step(l, f, a), b);
    T.Parse(l, g.data, g.tile).0.Ok?
  }

  /** The parse answer the handler gets for a packet is the outcome of the tile's own parse. */
  predicate ParseAnswered(l: T.Layout, f: TR.Frame, at: nat, p: F.Packet)
    requires T.Good(l, f.tile)
  {
    p.ordb ==> p.parseOk == TileParse(l, f, TR.Grow(p.body), TR.Mark(at + p.pos, p.pid))
  }

  /** Body packets of one frame, no loss flagged, the last one marked, each answered by the tile. */
  predicate BodyOfFrame(l: T.Layout, f: TR.Frame, at: nat, ps: seq<F.Packet>)
    requires T.Good(l, f.tile)
    decreases |ps|
  {
    ps != [] &&
    var p := ps[0];
    var g := TR.Run(l, f, OpsOfPacket(at, p));
    && p.mh == 0 && !p.gap && (p.marker <==> |ps| == 1)
    && ParseAnswered(l, f, at, p)
    && if |ps| == 1 then p.flushOk <==> T.Flush(l, g.data, g.tile).0.Ok?
       else BodyOfFrame(l, g, at + |p.body|, ps[1..])
  }

  function PullAll(c: F.Config, s: F.Fh, ps: seq<F.Packet>): F.Fh
    decreases |ps|
  {
    if ps == [] then s else PullAll(c, F.Pull(c, s, ps[0]), ps[1..])
  }

  function Bodies(ps: seq<F.Packet>): seq<byte> {
    if ps == [] then [] else ps[0].body + Bodies(ps[1..])
  }

  lemma {:induction false} RunParts(l: T.Layout, f: TR.Frame, a: seq<TR.TileOp>, b: seq<TR.TileOp>)
    requires T.Good(l, f.tile)
    ensures TR.Run(l, f, a + b) == TR.Run(l, TR.Run(l, f, a), b)
    ensures TR.Smooth(l, f, a + b) ==> TR.Smooth(l, f, a) && TR.Smooth(l, TR.Run(l, f, a), b)
    decreases |a|
  {
    hide TR.Step, T.Good;
    if a == [] {
      assert a + b == b;
    } else {
      assert (a + b)[1..] == a[1..] + b;
      RunParts(l, TR.Step(l, f, a[0]), a[1..], b);
    }
  }

  /** On a smooth run the tile parses what the packet's signal covers. */
  lemma PacketParses(l: T.Layout, f: TR.Frame, at: nat, p: F.Packet)
    requires T.Good(l, f.tile) && ParseAnswered(l, f, at, p) && TR.Smooth(l, f, OpsOfPacket(at, p))
    ensures p.ordb ==> p.parseOk
  {
    hide TileParse, TR.Smooth, T.Good;
    if p.ordb {
      SmoothToGo(l, f, TR.Grow(p.body), TR.Mark(at + p.pos, p.pid));
    }
  }

  /** Two operations and a parse: if they run smoothly the parse succeeds. */
  lemma SmoothToGo(l: T.Layout, f: TR.Frame, a: TR.TileOp, b: TR.TileOp)
    requires T.Good(l, f.tile) && TR.Smooth(l, f, [a] + [b, TR.Go])
    ensures TileParse(l, f, a, b)
  {
    hide TR.Step, TR.Smooth, T.Good, T.Parse;
    var ops := [a] + [b, TR.Go];
    assert ops[1..] == [b, TR.Go];
    assert [b, TR.Go][1..] == [TR.Go];
    SmoothHead(l, f, ops);
    SmoothHead(l, TR.Step(l, f, a), [b, TR.Go]);
    SmoothHead(l, TR.Step(l, TR.Step(l, f, a), b), [TR.Go]);
  }

  lemma SmoothHead(l: T.Layout, f: TR.Frame, ops: seq<TR.TileOp>)
    requires T.Good(l, f.tile) && ops != [] && TR.Smooth(l, f, ops)
    ensures ops[0].Go? ==> T.Parse(l, f.data, f.tile).0.Ok?
    ensures TR.Smooth(l, TR.Step(l, f, ops[0]), ops[1..])
  {}

  /** A packet inside the frame keeps it tracked and adds to the chain. */
  lemma InnerPacket(c: F.Config, s: F.Fh, p: F.Packet)
    requires F.Intact(s.flags) && |s.flow.held| < F.SLAB_CAP && p.mh == 0 && !p.gap && !p.marker
             && (p.ordb ==> p.parseOk)
    ensures var t := F.Pull(c, s, p);
            && F.Intact(t.flags) && t.flow.chain == s.flow.chain + [p.body] && |t.flow.held| == |s.flow.held| + 1
            && t.flow.total == s.flow.total + |p.body|
  {}

  /** The marked packet closes an intact frame. */
  lemma LastPacket(c: F.Config, s: F.Fh, p: F.Packet)
    requires F.Intact(s.flags) && |s.flow.held| < F.SLAB_CAP && p.mh == 0 && !p.gap && p.marker
             && (p.ordb ==> p.parseOk) && p.flushOk
    ensures Closes(F.Pull(c, s, p), Flatten(s.flow.chain + [p.body]))
  {
    var s1 := F.OnBody(c, s, p);
    assert F.Intact(s1.flags) && s1.flow.chain == s.flow.chain + [p.body];
    var t := F.OnEoc(s1, p).rec.trace;
    assert t[|t| - 1] == F.Ready(true, Flatten(s1.flow.chain));
  }

  /** The frame ended intact, with `bytes` reported, and nothing of it is left. */
  predicate Closes(s: F.Fh, bytes: seq<byte>) {
    && s.rec.trace != [] && s.rec.trace[|s.rec.trace| - 1] == F.Ready(true, bytes)
    && s.flow.held == [] && !s.flags.passed && !s.flags.failed
  }

  lemma FlattenSnoc(chain: seq<seq<byte>>, b: seq<byte>)
    ensures Flatten(chain + [b]) == Flatten(chain) + b
  {
    assert (chain + [b])[..|chain|] == chain;
  }

  lemma {:induction false} SmoothFrame(c: F.Config, s: F.Fh, l: T.Layout, f: TR.Frame, ps: seq<F.Packet>)
    requires T.Good(l, f.tile) && F.Intact(s.flags) && |s.flow.held| + |ps| <= F.SLAB_CAP
    requires BodyOfFrame(l, f, s.flow.total, ps) && TR.Smooth(l, f, OpsOf(s.flow.total, ps))
    requires var g := TR.Run(l, f, OpsOf(s.flow.total, ps)); T.Flush(l, g.data, g.tile).0.Ok?
    ensures Closes(PullAll(c, s, ps), Flatten(s.flow.chain) + Bodies(ps))
    decreases |ps|
  {
    hide TR.Smooth, TR.Run, T.Good, T.Flush, F.Pull, Closes, ParseAnswered, OpsOfPacket;
    var p := ps[0];
    var ops, rest := OpsOfPacket(s.flow.total, p), OpsOf(s.flow.total + |p.body|, ps[1..]);
    RunParts(l, f, ops, rest);
    PacketParses(l, f, s.flow.total, p);
    FlattenSnoc(s.flow.chain, p.body);
    if |ps| == 1 {
      assert rest == [] && ops + [] == ops;
      LastPacket(c, s, p);
      assert PullAll(c, s, ps) == F.Pull(c, s, p) by { assert ps[1..] == []; }
      assert Bodies(ps) == p.body;
    } else {
      InnerPacket(c, s, p);
      SmoothFrame(c, F.Pull(c, s, p), l, TR.Run(l, f, ops), ps[1..]);
      assert Flatten(s.flow.chain) + p.body + Bodies(ps[1..]) == Flatten(s.flow.chain) + Bodies(ps);
    }
  }

  /** The body of a well-formed frame whose main header has been taken. */
  lemma {:induction false} CleanBody(c: F.Config, s: F.Fh, l: T.Layout, data: seq<byte>, t0: T.Tile, ps: seq<F.Packet>)
    requires F.Intact(s.flags) && |s.flow.held| + |ps| <= F.SLAB_CAP
    requires s.flow.total == |Flatten(s.flow.chain)| && data == Flatten(s.flow.chain) + Bodies(ps)
    requires T.Good(l, t0) && TR.WellFormed(l, data, t0) && t0.signals == [] && t0.calls == []
             && t0.rd.pos <= s.flow.total
    requires TR.Clean(l, data, t0, s.flow.total, OpsOf(s.flow.total, ps))
    requires BodyOfFrame(l, TR.Frame(Flatten(s.flow.chain), t0), s.flow.total, ps)
    ensures Closes(PullAll(c, s, ps), data)
    ensures CallsAll(l, TR.Run(l, TR.Frame(Flatten(s.flow.chain), t0), OpsOf(s.flow.total, ps)))
  {
    hide TR.Smooth, TR.Run, T.Good, T.Flush, TR.Clean, TR.WellFormed, BodyOfFrame, PullAll, Closes;
    assert data[..s.flow.total] == Flatten(s.flow.chain);
    TR.IncrementalEqualsWhole(l, data, t0, OpsOf(s.flow.total, ps), s.flow.total);
    SmoothFrame(c, s, l, TR.Frame(Flatten(s.flow.chain), t0), ps);
  }

  /** After the flush every precinct of the progression has been called back, in order. */
  predicate CallsAll(l: T.Layout, f: TR.Frame)
    requires T.Good(l, f.tile)
  {
    var (o, t) := T.Flush(l, f.data, f.tile);
    && o.Ok? && |t.calls| == |l.crp|
    && forall i :: 0 <= i < |l.crp| ==> t.calls[i].idx == i && t.calls[i].ct == l.crp[i]
  }

  /** The latched structure still fits the stream, as far as this header tells. */
  predicate Fits(c: F.Config, st: F.Stream, sig: nat) {
    st.ready && sig != 0 && st.geomSig == sig && F.StaleReason(c, st, sig).None?
  }

  /** A main packet between frames, on a stream that is still the latched one, opens the frame at its own SOD. */
  lemma {:induction false} MainPacket(c: F.Config, s: F.Fh, p: F.Packet, sig: nat, sod: nat)
    requires s.flow.held == [] && s.flow.chain == [] && s.flow.total == 0 && s.flow.signals == [] && !s.flags.resyncSoft
    requires p.mh >= 2 && !p.gap && !p.marker && GS.Signature(p.body) == (sig, sod) && sod != 0
             && Fits(c, s.stream, sig)
    ensures var t := F.Pull(c, s, p);
            F.Intact(t.flags) && t.flow == F.Flow([p.slab], [p.body], |p.body|, sod, [])
  {
    hide GS.Signature;
  }

  /**
   A well-formed frame, in a main packet and body packets cut anywhere, signals on true
   precinct starts, on a stream whose latched geometry it has: the handler puts the tile
   behind the header's SOD, never aborts the frame, and reports it intact with exactly
   its bytes, while the tile calls back the whole progression in order.
   */
  lemma {:induction false} CleanFrameIntact(c: F.Config, s: F.Fh, segs: seq<GS.Segment>, rest: seq<byte>, p0: F.Packet,
                         l: T.Layout, t0: T.Tile, ps: seq<F.Packet>)
    requires FR.Good(c, s) && s.flow.held == []
    requires GS.AllOk(segs) && p0.body == GS.HeaderBytes(segs, rest)
    requires p0.mh >= 2 && !p0.gap && !p0.marker && Fits(c, s.stream, GS.Signature(p0.body).0)
    requires |ps| < F.SLAB_CAP && T.Good(l, t0) && t0.signals == [] && t0.calls == []
    requires t0.rd == Reader(|GS.HeaderBytes(segs, [])|, 0, 0)
    requires var data := p0.body + Bodies(ps);
             && TR.WellFormed(l, data, t0) && TR.Clean(l, data, t0, |p0.body|, OpsOf(|p0.body|, ps))
             && BodyOfFrame(l, TR.Frame(p0.body, t0), |p0.body|, ps)
    ensures Closes(PullAll(c, s, [p0] + ps), p0.body + Bodies(ps))
    ensures F.Pull(c, s, p0).flow.cursor == t0.rd.pos
    ensures CallsAll(l, TR.Run(l, TR.Frame(p0.body, t0), OpsOf(|p0.body|, ps)))
  {
    hide GS.Signature, GS.HeaderBytes, TR.Run, T.Good, T.Flush, TR.Clean, TR.WellFormed, BodyOfFrame, Closes, CallsAll,
         OpsOf, Bodies, F.Pull, FR.Watching, Fits;
    GS.SignatureOfHeader(segs, rest);
    HeaderFits(segs, rest);
    var (sig, sod) := GS.Signature(p0.body);
    MainPacket(c, s, p0, sig, sod);
    var s1 := F.Pull(c, s, p0);
    FlattenSnoc([], p0.body);
    assert [] + [p0.body] == [p0.body];
    assert Flatten(s1.flow.chain) == p0.body;
    CleanBody(c, s1, l, p0.body + Bodies(ps), t0, ps);
    assert ([p0] + ps)[1..] == ps;
  }

  lemma HeaderFits(segs: seq<GS.Segment>, rest: seq<byte>)
    requires GS.AllOk(segs)
    ensures 0 < |GS.HeaderBytes(segs, [])| <= |GS.HeaderBytes(segs, rest)|
  {}
}
