/**
 Streams on which promises of the frame handler fail.  The first three are a complete main
 header, any that is framed and accepted, and one body packet that ends the frame; what the
 handler is told of the parse is what the tile, on the smallest progression the walk builds,
 does with the bytes.
 */
module FrameWitness {
  import opened Bytes
  import opened ChainReader
  import T = TileHandler
  import TW = TileWitness
  import TF = TileFailures
  import F = FrameHandler
  import FR = FrameRuns
  import FE = FrameEnds
  import J = TiledFrames
  import CF = CleanFrame
  import GS = GeometrySignature

  /** A complete main header, accepted. */
  function MainOf(header: seq<byte>): F.Packet {
    F.Packet(2, false, 0, 0, header, false, 0, false, false, false, false, false, |header|, true)
  }

  /** The body packet that ends the frame. */
  function LastOf(ordb: bool, pos: nat, pid: nat, body: seq<byte>): F.Packet {
    F.Packet(0, ordb, pos, pid, body, true, 1, false, false, false, false, false, 0, false)
  }

  /** The structure the header gives. */
  const BUILT := J.Built(TW.TRIPLE, TW.STORE)

  /** The stream of the two packets. */
  function Stream(header: seq<byte>, p: F.Packet): seq<(F.Packet, J.Built)> {
    [(MainOf(header), BUILT), (p, BUILT)]
  }

  /** The handler after the main packet. */
  function Opened(header: seq<byte>): F.Fh {
    var sig := GS.Signature(header).0;
    F.Fh(F.Flow([0], [header], |header|, |header|, []), F.Flags(false, true, false, false, false, true),
         F.Stream(true, sig, sig, |header|, 0, 0),
         F.Record(0, 0, [F.Begin, F.Chunk(0, header), F.Tracked, F.Latched(sig)], []))
  }

  /** Handler and tile after the main packet. */
  function Start(header: seq<byte>): J.Joint {
    J.Joint(Opened(header), TW.TRIPLE, TW.Triple(|header|, []), 0)
  }

  lemma OpensFirst(c: F.Config, header: seq<byte>)
    requires header != []
    ensures F.OnMain(c, F.Init(), MainOf(header)) == (Opened(header), false)
    ensures FE.Found(c, F.Init(), MainOf(header)) == F.Init()
  {
    hide GS.Signature;
    var sig := GS.Signature(header).0;
    var r := F.OnMain(c, F.Init(), MainOf(header)).0.rec;
    assert r.trace == [] + [F.Begin] + [F.Chunk(0, header)] + [F.Tracked] + [F.Latched(sig)];
    assert [] + [0] == [0] && [] + [header] == [header] && [] + [F.Begin] == [F.Begin];
    assert r.trace == [F.Begin, F.Chunk(0, header), F.Tracked, F.Latched(sig)];
  }

  lemma StartsSo(c: F.Config, header: seq<byte>)
    requires header != []
    ensures J.Step(c, J.Init(), MainOf(header), BUILT) == Start(header)
  {
    hide GS.Signature, T.LayoutOk, T.StoreOk, F.OnMain, FE.Found;
    TW.TripleGood();
    OpensFirst(c, header);
    var p := MainOf(header);
    assert p.(createOk := p.createOk && J.BuiltOk(BUILT)) == p;
    assert J.Rebuilds(c, F.OpenFrame(F.Init(), p), p);
  }

  /** The stream's run is the body packet's step from there. */
  lemma StreamRun(c: F.Config, header: seq<byte>, p: F.Packet)
    requires header != []
    ensures T.Good(TW.TRIPLE, TW.Triple(|header|, []))
    ensures J.Run(c, Stream(header, p)) == J.Step(c, Start(header), p, BUILT)
  {
    TW.TripleGood();
    StartsSo(c, header);
    hide J.Step, J.Init, T.LayoutOk, T.StoreOk;
    var ins := Stream(header, p);
    assert ins[..1] == [(MainOf(header), BUILT)] && ins[..1][..0] == [];
    assert J.Run(c, ins[..1][..0]) == J.Init();
    assert J.Run(c, ins[..1]) == Start(header);
  }

  lemma TwoChunks(header: seq<byte>, body: seq<byte>)
    ensures Flatten([header, body]) == header + body
  {
    OneChunk(header);
    CF.FlattenSnoc([header], body);
    assert [header] + [body] == [header, body];
  }

  /** The body packet's step, put together from what the tile does. */
  lemma LastStep(c: F.Config, header: seq<byte>, p: F.Packet)
    requires header != [] && p.mh == 0 && p.marker && !p.gap
    ensures T.Good(TW.TRIPLE, TW.Triple(|header|, []))
    ensures var y := J.FeedTile(c, Start(header), Opened(header), p);
            J.Step(c, Start(header), p, BUILT) == J.Ended(y, p)
  {
    TW.TripleGood();
    hide J.FeedTile, J.Ended, T.LayoutOk, T.StoreOk, GS.Signature;
    assert FE.Found(c, Opened(header), p) == Opened(header);
  }

  /** The tile with the packet's resync point, if it has one. */
  function Told(header: seq<byte>, p: F.Packet): T.Tile {
    TW.Triple(|header|, if p.ordb then [T.Signal(|header| + p.pos, p.pid)] else [])
  }

  lemma ToldGood(header: seq<byte>, p: F.Packet)
    ensures T.Good(TW.TRIPLE, Told(header, p))
  {
    TW.TripleGood();
  }

  /** A packet with a resync point is parsed. */
  lemma FeedsOrdb(c: F.Config, header: seq<byte>, p: F.Packet)
    requires p.ordb
    ensures T.Good(TW.TRIPLE, Told(header, p)) && T.Good(TW.TRIPLE, TW.Triple(|header|, []))
    ensures var (o, t) := T.Parse(TW.TRIPLE, header + p.body, Told(header, p));
            J.FeedTile(c, Start(header), Opened(header), p)
              == J.Joint(F.OnBody(c, Opened(header), p.(parseOk := o.Ok?)), TW.TRIPLE, t,
                         TF.ParseFailures(TW.TRIPLE, header + p.body, Told(header, p)))
  {
    TW.TripleGood();
    ToldGood(header, p);
    hide F.OnBody, T.LayoutOk, T.StoreOk, T.Parse, TF.ParseFailures, J.FeedTile;
    NotesLast(header, p);
    hide Opened, Told, Flatten, J.Noted;
    FeedParses(c, Start(header), Opened(header), p, header + p.body, Told(header, p));
  }

  lemma NotesLast(header: seq<byte>, p: F.Packet)
    requires p.ordb
    ensures var g := Opened(header);
            && Flatten(g.flow.chain + [p.body]) == header + p.body && !g.flags.resyncSoft
            && J.Noted(Start(header).tile, g, p) == Told(header, p)
  {
    hide GS.Signature, Flatten;
    TwoChunks(header, p.body);
    assert [header] + [p.body] == [header, p.body];
  }

  lemma FeedParses(c: F.Config, z: J.Joint, g: F.Fh, p: F.Packet, data: seq<byte>, t: T.Tile)
    requires T.Good(z.l, z.tile) && T.Good(z.l, t) && p.ordb && !g.flags.resyncSoft
    requires Flatten(g.flow.chain + [p.body]) == data && J.Noted(z.tile, g, p) == t
    ensures var (o, t1) := T.Parse(z.l, data, t);
            J.FeedTile(c, z, g, p)
              == J.Joint(F.OnBody(c, g, p.(parseOk := o.Ok?)), z.l, t1, z.failed + TF.ParseFailures(z.l, data, t))
  {
    hide F.OnBody, T.Good, T.Parse, TF.ParseFailures, Flatten, J.Noted;
  }

  /** A packet without one is not. */
  lemma FeedsPlain(c: F.Config, header: seq<byte>, p: F.Packet)
    requires !p.ordb
    ensures T.Good(TW.TRIPLE, Told(header, p)) && T.Good(TW.TRIPLE, TW.Triple(|header|, []))
    ensures J.FeedTile(c, Start(header), Opened(header), p)
         == J.Joint(F.OnBody(c, Opened(header), p), TW.TRIPLE, Told(header, p), 0)
  {
    TW.TripleGood();
    hide F.OnBody, T.LayoutOk, T.StoreOk, GS.Signature;
  }

  // ------------------------------------------------------------- handler's side

  lemma BodyParsed(c: F.Config, header: seq<byte>, p: F.Packet)
    requires p.ordb
    ensures var s := F.OnBody(c, Opened(header), p);
            && s.flow.chain == [header, p.body] && s.flow.held != []
            && F.Intact(s.flags) == p.parseOk && s.flags.failed == !p.parseOk && s.flags.parseFailed == !p.parseOk
            && s.rec.trace == Opened(header).rec.trace + [F.Chunk(|header|, p.body), F.Parsed(p.parseOk)]
                              + (if p.parseOk then [] else [F.Abort(F.ParseFailure)])
  {
    hide GS.Signature;
    var s := Opened(header);
    assert s.rec.trace + [F.Chunk(|header|, p.body)] + [F.Parsed(p.parseOk)]
        == s.rec.trace + [F.Chunk(|header|, p.body), F.Parsed(p.parseOk)];
  }

  lemma BodyPlain(c: F.Config, header: seq<byte>, p: F.Packet)
    requires !p.ordb
    ensures var s := F.OnBody(c, Opened(header), p);
            && s.flow.chain == [header, p.body] && s.flow.held != []
            && F.Intact(s.flags) && !s.flags.failed && !s.flags.parseFailed
            && s.rec.trace == Opened(header).rec.trace + [F.Chunk(|header|, p.body)]
  {
    hide GS.Signature;
  }

  /** The end of a frame whose parse has failed, and of one that goes into the flush. */
  lemma EndsFailed(s: F.Fh, p: F.Packet)
    requires !F.Intact(s.flags) && s.flags.parseFailed
    ensures F.OnEoc(s, p).rec.trace == s.rec.trace + [F.Judged(F.Failed), F.Ready(false, Flatten(s.flow.chain))]
  {
    hide Flatten;
  }

  lemma EndsIntact(s: F.Fh, p: F.Packet)
    requires F.Intact(s.flags)
    ensures F.OnEoc(s, p).rec.trace
         == s.rec.trace + [F.Flushed(p.flushOk), F.Judged(if p.flushOk then F.Clean else F.Failed),
                           F.Ready(true, Flatten(s.flow.chain))]
  {
    hide Flatten;
  }

  // ----------------------------------------------------------------- the streams

  /** A frame that gets both an abort and a report, whatever its header and the handler's set-up. */
  lemma {:induction false} BothHappen(c: F.Config, segs: seq<GS.Segment>)
    requires GS.AllOk(segs)
    ensures var header := GS.HeaderBytes(segs, []);
            J.Run(c, Stream(header, LastOf(true, 1, 0, TW.Bad()))).fh.rec.trace
              == Opened(header).rec.trace
                 + [F.Chunk(|header|, TW.Bad()), F.Parsed(false), F.Abort(F.ParseFailure), F.Judged(F.Failed),
                    F.Ready(false, header + TW.Bad())]
  {
    hide J.Run, J.FeedTile, GS.Signature, GS.SegmentsBytes, TW.Bad, Opened, T.Parse, TF.ParseFailures, F.OnBody;
    var header, p := GS.HeaderBytes(segs, []), LastOf(true, 1, 0, TW.Bad());
    StreamRun(c, header, p);
    LastStep(c, header, p);
    FeedsOrdb(c, header, p);
    TW.BadParse(header);
    BodyParsed(c, header, p);
    TwoChunks(header, p.body);
    var y := J.FeedTile(c, Start(header), Opened(header), p);
    assert p.(parseOk := false) == p;
    assert y.fh == F.OnBody(c, Opened(header), p);
    hide F.OnEoc, Flatten;
    EndsFailed(y.fh, p);
    assert J.FlushAnswer(y, p) == p;
  }

  /** A frame reported intact although its flush fails: the report carries the state before the flush. */
  lemma {:induction false} IntactThoughFlushFails(c: F.Config, segs: seq<GS.Segment>)
    requires GS.AllOk(segs)
    ensures var header := GS.HeaderBytes(segs, []);
            J.Run(c, Stream(header, LastOf(false, 0, 0, TW.Bad()))).fh.rec.trace
              == Opened(header).rec.trace
                 + [F.Chunk(|header|, TW.Bad()), F.Flushed(false), F.Judged(F.Failed), F.Ready(true, header + TW.Bad())]
  {
    hide J.Run, J.FeedTile, GS.Signature, GS.SegmentsBytes, TW.Bad, Opened, T.Flush, TF.FlushFailures, F.OnBody;
    var header, p := GS.HeaderBytes(segs, []), LastOf(false, 0, 0, TW.Bad());
    StreamRun(c, header, p);
    LastStep(c, header, p);
    FeedsPlain(c, header, p);
    TW.BadFlush(header);
    BodyPlain(c, header, p);
    TwoChunks(header, p.body);
    var y := J.FeedTile(c, Start(header), Opened(header), p);
    hide F.OnEoc, Flatten;
    EndsIntact(y.fh, J.FlushAnswer(y, p));
  }

  /** A body whose first packet cannot be read, and whose end is announced as the start of the second precinct. */
  function Lossy(): seq<byte> {
    TW.Bad() + Zeros(20)
  }

  /**
   A frame of which a precinct failed, reported intact and counted as clean: every call of
   the parser succeeds, because it goes on at the resync point, and two of the three
   precincts reach the consumer.  The point's offset fits the twelve bits of its field.
   */
  lemma {:induction false} RecoveredYetIntact(c: F.Config, segs: seq<GS.Segment>)
    requires GS.AllOk(segs)
    ensures |Lossy()| < 4096
    ensures var header := GS.HeaderBytes(segs, []);
            var z := J.Run(c, Stream(header, LastOf(true, |Lossy()|, 1, Lossy())));
            && z.fh.rec.trace == Opened(header).rec.trace
                                 + [F.Chunk(|header|, Lossy()), F.Parsed(true), F.Flushed(true), F.Judged(F.Clean),
                                    F.Ready(true, header + Lossy())]
            && z.failed == 1 && |z.l.crp| == 3
            && |z.tile.calls| == 2 && z.tile.calls[0].idx == 1 && z.tile.calls[1].idx == 2
  {
    hide J.Run, J.FeedTile, GS.Signature, GS.SegmentsBytes, TW.Bad, Opened, T.Parse, TF.ParseFailures, F.OnBody;
    hide T.Flush, TF.FlushFailures;
    var header, p := GS.HeaderBytes(segs, []), LastOf(true, |Lossy()|, 1, Lossy());
    TW.BadLength();
    StreamRun(c, header, p);
    LastStep(c, header, p);
    FeedsOrdb(c, header, p);
    assert header + p.body == header + TW.Bad() + Zeros(20);
    TW.RecoveredParse(header, Zeros(20));
    BodyParsed(c, header, p.(parseOk := true));
    TwoChunks(header, p.body);
    var y := J.FeedTile(c, Start(header), Opened(header), p);
    TW.RecoveredFlush(header + p.body, y.tile);
    hide F.OnEoc, Flatten;
    EndsIntact(y.fh, J.FlushAnswer(y, p));
  }

  lemma TwoPackets(c: F.Config, p: F.Packet, q: F.Packet)
    ensures F.Run(c, [p, q]) == F.Pull(c, F.Pull(c, F.Init(), p), q)
  {
    hide F.Pull;
    assert [p, q][..1] == [p] && [p][..0] == [];
    assert F.Run(c, [p]) == F.Pull(c, F.Run(c, []), p);
  }

  // -------------------------------------------------- headers that never complete

  /** The first bytes of a main header that goes on elsewhere. */
  function HalfMain(body: seq<byte>, marker: bool): F.Packet {
    F.Packet(1, false, 0, 0, body, marker, 0, false, false, false, false, false, 0, false)
  }

  /** A frame whose main header never completes gets neither a report nor an abort, and is not counted. */
  lemma {:induction false} NeitherHappens(c: F.Config, body: seq<byte>, p: F.Packet)
    requires 0 < |body| < 0x1_0000_0000 && p.mh == 0 && p.marker && !p.gap
    ensures var s := F.Run(c, [HalfMain(body, false), p]);
            s.rec.trace == [F.Begin, F.Chunk(0, body)] && s.flow.held == [] && s.rec.totalFrames == 0
  {
    hide F.Run, GS.Signature;
    TwoPackets(c, HalfMain(body, false), p);
    var s := F.Pull(c, F.Init(), HalfMain(body, false));
    assert s.rec.trace == [] + [F.Begin] + [F.Chunk(0, body)];
  }

  /** `n` header beginnings of 4096 bytes, one after the other. */
  function Mains(n: nat): (ps: seq<F.Packet>)
    ensures |ps| == n
  {
    if n == 0 then [] else Mains(n - 1) + [HalfMain(Zeros(4096), false)]
  }

  lemma HalfStep(c: F.Config, s: F.Fh, p: F.Packet)
    requires p.mh == 1 && !p.gap && !p.marker && !s.stream.ready && |s.flow.held| <= 1
    ensures var t := F.Pull(c, s, p);
            !t.stream.ready && |t.flow.held| == 1 && t.stream.startSod == (s.stream.startSod + |p.body|) % 0x1_0000_0000
  {
    hide GS.Signature;
  }

  lemma WrapOn(n: nat)
    ensures ((4096 * n) % 0x1_0000_0000 + 4096) % 0x1_0000_0000 == (4096 * (n + 1)) % 0x1_0000_0000
  {}

  lemma {:induction false} MainsAddUp(c: F.Config, n: nat)
    ensures var s := F.Run(c, Mains(n));
            !s.stream.ready && |s.flow.held| <= 1 && s.stream.startSod == (4096 * n) % 0x1_0000_0000
  {
    hide F.Pull, Zeros, F.Run;
    if n == 0 {
      NoneRun(c);
    } else {
      MainsAddUp(c, n - 1);
      var p := HalfMain(Zeros(4096), false);
      LastPull(c, Mains(n - 1), p);
      HalfStep(c, F.Run(c, Mains(n - 1)), p);
      WrapOn(n - 1);
    }
  }

  lemma NoneRun(c: F.Config)
    ensures F.Run(c, []) == F.Init()
  {
  }

  /** The other way to neither: header beginnings until the running length comes round to zero with the last one. */
  lemma {:induction false} NeitherByWrap(c: F.Config)
    ensures var s := F.Run(c, Mains(0x10_0000 - 1) + [HalfMain(Zeros(4096), true)]);
            !FR.Seen(c, s).aborted && FR.Seen(c, s).open && FR.Seen(c, s).ok
  {
    hide F.Run, F.Pull, Mains, Zeros, FR.Seen, FE.Found;
    var ps, p := Mains(0x10_0000 - 1), HalfMain(Zeros(4096), true);
    MainsAddUp(c, 0x10_0000 - 1);
    FE.EitherOr(c, ps, p);
    LastPull(c, ps, p);
    FR.DeliveryContract(c, ps + [p]);
  }

  lemma LastPull(c: F.Config, ps: seq<F.Packet>, p: F.Packet)
    ensures F.Run(c, ps + [p]) == F.Pull(c, F.Run(c, ps), p)
  {
    hide F.Pull;
    assert (ps + [p])[..|ps + [p]| - 1] == ps;
  }
}
