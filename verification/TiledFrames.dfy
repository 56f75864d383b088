/**
 The frame handler and its tile together, over arbitrary packets.  What the tile does is
 computed, not given: a packet's parse runs over the chain the handler has assembled, its
 answer decides what the handler does next, and the precincts that fail are counted.
 */
module TiledFrames {
  import opened Bytes
  import opened ChainReader
  import T = TileHandler
  import TR = TileRuns
  import TF = TileFailures
  import F = FrameHandler
  import FR = FrameRuns
  import FE = FrameEnds
  import GS = GeometrySignature
  import PacketHeader

  /** A structure built from a main header. */
  datatype Built = Built(l: T.Layout, store: map<T.Crp, T.Precinct>)

  predicate BuiltOk(b: Built) {
    T.LayoutOk(b.l) && T.StoreOk(b.l.crp, b.store)
  }

  /** Handler, tile, and how many precincts have failed since the frame opened. */
  datatype Joint = Joint(fh: F.Fh, l: T.Layout, tile: T.Tile, failed: nat)

  const NO_LAYOUT := T.Layout([], 3, [[], [], []])

  function Init(): Joint {
    Joint(F.Init(), NO_LAYOUT, T.Tile(Reader(0, 0, 0), 0, [], map[], []), 0)
  }

  /** The tile when the chain is let go. */
  function Rested(t: T.Tile): T.Tile {
    T.Restart(t).(rd := Reader(0, 0, 0))
  }

  lemma RestedGood(l: T.Layout, t: T.Tile)
    requires T.Good(l, t)
    ensures T.Good(l, Rested(t)) && Rested(t).idx == 0 && Rested(t).signals == [] && Rested(t).calls == t.calls
  {
    hide T.ResetPrecinct;
    T.RestartIsFresh(l, t);
  }

  function Settle(z: Joint): (r: Joint)
    requires T.Good(z.l, z.tile)
    ensures T.Good(r.l, r.tile) && r == z.(tile := r.tile) && r.tile.calls == z.tile.calls
  {
    RestedGood(z.l, z.tile);
    if z.fh.flow.held == [] then z.(tile := Rested(z.tile)) else z
  }

  /** A complete header is parsed afresh rather than checked against the latched structure. */
  predicate Rebuilds(c: F.Config, s: F.Fh, p: F.Packet) {
    var sig := GS.Signature(p.body).0;
    var known := s.stream.(geomSig := if s.stream.geomSig == 0 then sig else s.stream.geomSig);
    p.mh >= 2 && (!s.stream.ready || (sig != 0 && F.StaleReason(c, known, sig).Some?))
  }

  /** A main packet: the tile starts over, on a new structure or the old one, behind the header. */
  function OpenTile(c: F.Config, z: Joint, g: F.Fh, p: F.Packet, b: Built): (r: (Joint, bool))
    requires T.Good(z.l, z.tile)
    ensures T.Good(r.0.l, r.0.tile)
  {
    RestedGood(z.l, z.tile);
    var (s, done) := F.OnMain(c, g, p);
    var t := Rested(z.tile).(calls := []);
    if !s.flags.passed then (Joint(s, z.l, t, 0), done)
    else if Rebuilds(c, F.OpenFrame(g, p), p) && BuiltOk(b) then
      (Joint(s, b.l, T.Tile(Reader(s.flow.cursor, 0, 0), 0, [], b.store, []), 0), done)
    else (Joint(s, z.l, t.(rd := Reader(s.flow.cursor, 0, 0)), 0), done)
  }

  /** The packet with the answer of the parse it causes, if it causes one. */
  function ParseAnswer(z: Joint, g: F.Fh, p: F.Packet): F.Packet
    requires T.Good(z.l, z.tile)
  {
    if p.ordb && !g.flags.resyncSoft then
      p.(parseOk := T.Parse(z.l, Flatten(g.flow.chain + [p.body]), Noted(z.tile, g, p)).0.Ok?)
    else p
  }

  function Noted(t: T.Tile, g: F.Fh, p: F.Packet): T.Tile {
    if p.ordb then T.AddSignal(t, g.flow.total + p.pos, p.pid) else t
  }

  /** A body packet of the tracked frame: its resync point is noted, and parsed up to. */
  function FeedTile(c: F.Config, z: Joint, g: F.Fh, p: F.Packet): (r: Joint)
    requires T.Good(z.l, z.tile)
    ensures T.Good(r.l, r.tile)
  {
    var s, t, data := F.OnBody(c, g, ParseAnswer(z, g, p)), Noted(z.tile, g, p), Flatten(g.flow.chain + [p.body]);
    if p.ordb && !g.flags.resyncSoft then
      Joint(s, z.l, T.Parse(z.l, data, t).1, z.failed + TF.ParseFailures(z.l, data, t))
    else z.(fh := s, tile := t)
  }

  /** The packet taken in, before the end of the frame is looked at; the flag says that the call returns here. */
  function Taken(c: F.Config, z: Joint, p: F.Packet, b: Built): (r: (Joint, bool))
    requires T.Good(z.l, z.tile)
    ensures T.Good(r.0.l, r.0.tile)
  {
    var g := FE.Found(c, z.fh, p);
    if p.mh >= 1 then OpenTile(c, z, g, p.(createOk := p.createOk && BuiltOk(b)), b)
    else (FeedTile(c, z, g, p), false)
  }

  predicate FlushSays(y: Joint)
    requires T.Good(y.l, y.tile)
  {
    T.Flush(y.l, Flatten(y.fh.flow.chain), y.tile).0.Ok?
  }

  /** The packet with the answer of the flush that the end of the frame causes, if it causes one. */
  function FlushAnswer(y: Joint, p: F.Packet): F.Packet
    requires T.Good(y.l, y.tile)
  {
    p.(flushOk := if F.Intact(y.fh.flags) then FlushSays(y) else p.flushOk)
  }

  /** The end of the frame. */
  function Ended(y: Joint, p: F.Packet): (r: Joint)
    requires T.Good(y.l, y.tile)
    ensures T.Good(r.l, r.tile)
  {
    var s, data := F.OnEoc(y.fh, FlushAnswer(y, p)), Flatten(y.fh.flow.chain);
    if F.Intact(y.fh.flags) then
      Settle(Joint(s, y.l, T.Flush(y.l, data, y.tile).1, y.failed + TF.FlushFailures(y.l, data, y.tile)))
    else Settle(y.(fh := s))
  }

  /** One packet, with the structure its header would give. */
  function Step(c: F.Config, z: Joint, p: F.Packet, b: Built): (r: Joint)
    requires T.Good(z.l, z.tile)
    ensures T.Good(r.l, r.tile)
  {
    var g := FE.Found(c, z.fh, p);
    if F.Skips(g, p) then Settle(z.(fh := F.OnSkip(g, p)))
    else
      var (y, done) := Taken(c, z, p, b);
      if p.marker && !done then Ended(y, p) else y
  }

  function Run(c: F.Config, ins: seq<(F.Packet, Built)>): (z: Joint)
    ensures T.Good(z.l, z.tile)
  {
    if ins == [] then Init() else Step(c, Run(c, ins[..|ins| - 1]), ins[|ins| - 1].0, ins[|ins| - 1].1)
  }

  // ------------------------------------------------------------------- invariant

  /** Callbacks in strictly increasing progression order. */
  predicate InOrder(l: T.Layout, calls: seq<T.Callback>) {
    && (forall i :: 0 <= i < |calls| ==> calls[i].idx < |l.crp| && calls[i].ct == l.crp[calls[i].idx])
    && (forall i, j :: 0 <= i < j < |calls| ==> calls[i].idx < calls[j].idx)
  }

  /** In a tracked frame callbacks lie behind the index, and precincts are missing exactly when some have failed. */
  predicate Counted(l: T.Layout, t: T.Tile, failed: nat) {
    && TR.Ordered(l, t) && t.idx <= |l.crp| && TF.Missing(t) >= 0
    && (TF.Missing(t) > 0 <==> failed > 0)
  }

  predicate Good(c: F.Config, z: Joint) {
    && FR.Good(c, z.fh) && T.Good(z.l, z.tile) && InOrder(z.l, z.tile.calls)
    && (z.fh.flags.passed && !z.fh.flags.failed ==> Counted(z.l, z.tile, z.failed))
  }

  lemma OpenGood(c: F.Config, z: Joint, g: F.Fh, p: F.Packet, b: Built)
    requires Good(c, z) && FR.Good(c, g) && p.mh >= 1
    ensures var (y, done) := OpenTile(c, z, g, p, b);
            Good(c, y) && y.fh.flow.held != []
  {
    hide FR.Good, T.Good, F.OnMain, Rebuilds, BuiltOk, FR.Seen;
    FR.MainGood(c, g, p);
    RestedGood(z.l, z.tile);
  }

  /** A packet that finds the frame tracked finds it as it was left, but for a note of a loss. */
  lemma FoundTracked(c: F.Config, s: F.Fh, p: F.Packet)
    requires FE.Found(c, s, p).flags.passed && !FE.Found(c, s, p).flags.failed
    ensures s.flags.passed && !s.flags.failed && FE.Found(c, s, p).flow == s.flow
  {}

  lemma ParseCounted(l: T.Layout, data: seq<byte>, t: T.Tile, failed: nat)
    requires T.Good(l, t) && Counted(l, t, failed)
    ensures Counted(l, T.Parse(l, data, t).1, failed + TF.ParseFailures(l, data, t))
  {
    hide T.Good, T.Parse, TF.ParseFailures, TR.Ordered;
    TR.ParseOrdered(l, data, t);
    TF.ParseIndex(l, data, t);
    TF.ParseMisses(l, data, t);
  }

  lemma OrderedInOrder(l: T.Layout, t: T.Tile)
    requires TR.Ordered(l, t)
    ensures InOrder(l, t.calls)
  {}

  lemma FeedGood(c: F.Config, z: Joint, g: F.Fh, p: F.Packet)
    requires Good(c, z) && FR.Good(c, g) && |g.flow.held| < F.SLAB_CAP
    requires g.flags.passed && !g.flags.failed && z.fh.flags.passed && !z.fh.flags.failed
    ensures Good(c, FeedTile(c, z, g, p)) && FeedTile(c, z, g, p).fh.flow.held != []
    ensures Counted(z.l, FeedTile(c, z, g, p).tile, FeedTile(c, z, g, p).failed)
  {
    hide FR.Good, T.Good, F.OnBody, T.Parse, TF.ParseFailures, InOrder, FR.Seen;
    FR.BodyGood(c, g, ParseAnswer(z, g, p));
    var t := Noted(z.tile, g, p);
    assert Counted(z.l, t, z.failed);
    assert T.Good(z.l, t) by { NotedGood(z.l, z.tile, g, p); }
    hide Counted, Noted;
    ParseCounted(z.l, Flatten(g.flow.chain + [p.body]), t, z.failed);
    CountedInOrder(z.l, FeedTile(c, z, g, p).tile, FeedTile(c, z, g, p).failed);
  }

  lemma NotedGood(l: T.Layout, t: T.Tile, g: F.Fh, p: F.Packet)
    requires T.Good(l, t)
    ensures T.Good(l, Noted(t, g, p))
  {}

  lemma CountedInOrder(l: T.Layout, t: T.Tile, failed: nat)
    requires Counted(l, t, failed)
    ensures InOrder(l, t.calls)
  {
    OrderedInOrder(l, t);
  }

  lemma TakenGood(c: F.Config, z: Joint, p: F.Packet, b: Built)
    requires Good(c, z) && !F.Skips(FE.Found(c, z.fh, p), p)
    ensures var (y, done) := Taken(c, z, p, b);
            Good(c, y) && y.fh.flow.held != [] && (F.Intact(y.fh.flags) ==> Counted(y.l, y.tile, y.failed))
  {
    hide FR.Good, T.Good, Counted, InOrder, FE.Found, OpenTile, FeedTile, BuiltOk;
    FE.FoundGood(c, z.fh, p);
    var g := FE.Found(c, z.fh, p);
    if p.mh >= 1 {
      OpenGood(c, z, g, p.(createOk := p.createOk && BuiltOk(b)), b);
    } else {
      FoundTracked(c, z.fh, p);
      FeedGood(c, z, g, p);
    }
  }

  lemma EndedGood(c: F.Config, y: Joint, p: F.Packet)
    requires Good(c, y) && y.fh.flow.held != []
    ensures Good(c, Ended(y, p))
    ensures var st := FR.Seen(c, Ended(y, p).fh).seen;
            st.report == Some(F.Intact(y.fh.flags))
  {
    hide FR.Good, T.Good, Counted, T.Flush, TF.FlushFailures, FR.Seen, F.OnEoc, Rested;
    var q := FlushAnswer(y, p);
    FR.EocGood(c, y.fh, q);
    EocUntracks(y.fh, q);
    if F.Intact(y.fh.flags) { FlushInOrder(y.l, Flatten(y.fh.flow.chain), y.tile, y.failed); }
  }

  lemma EocUntracks(s: F.Fh, p: F.Packet)
    ensures !F.OnEoc(s, p).flags.passed
  {}

  lemma FlushInOrder(l: T.Layout, data: seq<byte>, t: T.Tile, failed: nat)
    requires T.Good(l, t) && Counted(l, t, failed)
    ensures InOrder(l, T.Flush(l, data, t).1.calls)
  {
    hide T.Good, T.Flush;
    TR.FlushOrdered(l, data, t);
    OrderedInOrder(l, T.Flush(l, data, t).1);
  }

  lemma SkippedGood(c: F.Config, z: Joint, p: F.Packet)
    requires Good(c, z) && F.Skips(FE.Found(c, z.fh, p), p)
    ensures Good(c, Settle(z.(fh := F.OnSkip(FE.Found(c, z.fh, p), p))))
  {
    hide FR.Good, T.Good, Counted, InOrder, FE.Found, Rested, F.OnSkip;
    FE.FoundGood(c, z.fh, p);
    var g := FE.Found(c, z.fh, p);
    FR.SkipGood(c, g, p);
    SkipUntracks(g, p);
  }

  lemma SkipUntracks(s: F.Fh, p: F.Packet)
    requires F.Skips(s, p)
    ensures !F.OnSkip(s, p).flags.passed || F.OnSkip(s, p).flags.failed
  {}

  lemma StepGood(c: F.Config, z: Joint, p: F.Packet, b: Built)
    requires Good(c, z)
    ensures Good(c, Step(c, z, p, b))
  {
    hide Good, FE.Found, Taken, Ended, Settle, F.OnSkip, F.Skips;
    TileIsGood(c, z);
    if F.Skips(FE.Found(c, z.fh, p), p) {
      SkippedGood(c, z, p);
    } else {
      TakenGood(c, z, p, b);
      EndedGood(c, Taken(c, z, p, b).0, p);
    }
  }

  lemma TileIsGood(c: F.Config, z: Joint)
    requires Good(c, z)
    ensures T.Good(z.l, z.tile) && InOrder(z.l, z.tile.calls)
  {}

  lemma {:induction false} RunGood(c: F.Config, ins: seq<(F.Packet, Built)>)
    ensures Good(c, Run(c, ins))
  {
    hide Good, Step, Init;
    if ins == [] {
      InitGood(c);
    } else {
      RunGood(c, ins[..|ins| - 1]);
      StepGood(c, Run(c, ins[..|ins| - 1]), ins[|ins| - 1].0, ins[|ins| - 1].1);
    }
  }

  lemma InitGood(c: F.Config)
    ensures Good(c, Init())
  {
    hide FR.Good;
    FR.InitGood(c);
    assert forall c :: 0 <= c < T.MAX_COMPONENTS ==> NO_LAYOUT.table[c] == T.IndicesOf([], c, 0);
  }

  /**
   On every stream, whatever is lost or damaged: the callbacks of a frame come in strictly
   increasing progression order.
   */
  lemma {:induction false} CallbacksInOrder(c: F.Config, ins: seq<(F.Packet, Built)>)
    ensures InOrder(Run(c, ins).l, Run(c, ins).tile.calls)
  {
    hide Good, Run;
    RunGood(c, ins);
    TileIsGood(c, Run(c, ins));
  }

  /** On every stream, the tile is told of a resync point at the bytes delivered before its packet plus its POS. */
  lemma {:induction false} TileTold(c: F.Config, ins: seq<(F.Packet, Built)>, p: F.Packet)
    requires p.ordb
    ensures var z := Run(c, ins);
            var g := FE.Found(c, z.fh, p);
            Noted(z.tile, g, p) == T.AddSignal(z.tile, |Flatten(g.flow.chain)| + p.pos, p.pid)
  {
    hide Run, FR.Seen, FE.Found, FR.Delivery, FR.SignatureOk;
    RunGood(c, ins);
    FE.FoundGood(c, Run(c, ins).fh, p);
  }

  // ------------------------------------------------------ what a report is worth

  /** Every precinct of the progression, in order. */
  predicate AllCalled(l: T.Layout, calls: seq<T.Callback>) {
    |calls| == |l.crp| && forall i :: 0 <= i < |calls| ==> calls[i].idx == i && calls[i].ct == l.crp[i]
  }

  lemma {:induction false} IndexAtLeast(l: T.Layout, calls: seq<T.Callback>, i: nat)
    requires InOrder(l, calls) && i < |calls|
    ensures calls[i].idx >= i
  {
    if i > 0 { IndexAtLeast(l, calls, i - 1); }
  }

  lemma {:induction false} IndexAtMost(l: T.Layout, calls: seq<T.Callback>, i: nat)
    requires InOrder(l, calls) && i < |calls|
    ensures calls[i].idx <= |l.crp| - |calls| + i
    decreases |calls| - i
  {
    if i < |calls| - 1 { IndexAtMost(l, calls, i + 1); }
  }

  lemma FullIsAll(l: T.Layout, calls: seq<T.Callback>)
    requires InOrder(l, calls) && |calls| == |l.crp|
    ensures AllCalled(l, calls)
  {
    forall i | 0 <= i < |calls| ensures calls[i].idx == i && calls[i].ct == l.crp[i] {
      IndexAtLeast(l, calls, i);
      IndexAtMost(l, calls, i);
    }
  }

  lemma {:induction false} WalkCallsBack(l: T.Layout, data: seq<byte>, t: T.Tile, k: nat)
    requires T.Good(l, t) && t.idx + k <= |l.crp|
    ensures |TR.Walk(l, data, t, k).calls| == |t.calls| + k
  {
    hide T.StoreOk, T.LayoutOk, PacketHeader.ReadPacket;
    if k > 0 { WalkCallsBack(l, data, t, k - 1); }
  }

  /** A flush in which nothing fails, after nothing has, calls back the rest. */
  lemma CleanFlush(l: T.Layout, data: seq<byte>, t: T.Tile, failed: nat)
    requires T.Good(l, t) && Counted(l, t, failed) && failed + TF.FlushFailures(l, data, t) == 0
    ensures AllCalled(l, T.Flush(l, data, t).1.calls)
  {
    hide T.Good, T.Flush, TR.Walk, TF.FlushFailures, TF.Sequential, TR.Ordered;
    TF.FlushFailsIff(l, data, t);
    WalkCallsBack(l, data, t, |l.crp| - t.idx);
    FlushInOrder(l, data, t, failed);
    FullIsAll(l, T.Flush(l, data, t).1.calls);
  }

  /**
   The promise that a frame reported intact has no failed precinct, on every stream and with the
   tile's own answers.  For every packet with which a frame is reported: it is reported intact
   although a precinct failed exactly when its header was taken, nothing was lost and every call
   succeeded, and yet some precinct behind the index was not called back, or the precincts from the
   index on do not parse in sequence.  If it is reported intact and none failed, every precinct of
   the progression was called back, in order.
   */
  lemma {:induction false} IntactYetPrecinctFailed(c: F.Config, ins: seq<(F.Packet, Built)>, p: F.Packet, b: Built)
    requires !F.Skips(FE.Found(c, Run(c, ins).fh, p), p) && p.marker && !Taken(c, Run(c, ins), p, b).1
    ensures var y, r := Taken(c, Run(c, ins), p, b).0, Step(c, Run(c, ins), p, b);
            var report := FR.Seen(c, r.fh).seen.report;
            && report == Some(F.Intact(y.fh.flags))
            && (report == Some(true) && r.failed > 0 <==>
                  F.Intact(y.fh.flags)
                  && (|y.tile.calls| < y.tile.idx || !TF.Sequential(y.l, Flatten(y.fh.flow.chain), y.tile)))
            && (report == Some(true) && r.failed == 0 ==> AllCalled(r.l, r.tile.calls))
  {
    hide Good, Run, FE.Found, Taken, F.Skips, FR.Seen, T.Good;
    var z := Run(c, ins);
    RunGood(c, ins);
    TileIsGood(c, z);
    TakenGood(c, z, p, b);
    var y := Taken(c, z, p, b).0;
    EndedGood(c, y, p);
    if F.Intact(y.fh.flags) { EndedCounts(y, p); }
  }

  lemma EndedCounts(y: Joint, p: F.Packet)
    requires T.Good(y.l, y.tile) && F.Intact(y.fh.flags) && Counted(y.l, y.tile, y.failed)
    ensures var r := Ended(y, p);
            && (r.failed > 0 <==> |y.tile.calls| < y.tile.idx || !TF.Sequential(y.l, Flatten(y.fh.flow.chain), y.tile))
            && (r.failed == 0 ==> AllCalled(r.l, r.tile.calls))
  {
    hide T.Good, T.Flush, TF.Sequential, TF.FlushFailures, TR.Ordered, F.OnEoc, Rested, AllCalled;
    var data := Flatten(y.fh.flow.chain);
    TF.FlushFailsIff(y.l, data, y.tile);
    if y.failed + TF.FlushFailures(y.l, data, y.tile) == 0 { CleanFlush(y.l, data, y.tile, y.failed); }
  }

  // ------------------------------------------------------- the handler by itself

  /** The packet with the answers it meets before the end of the frame. */
  function Met(c: F.Config, z: Joint, p: F.Packet, b: Built): F.Packet
    requires T.Good(z.l, z.tile)
  {
    if p.mh >= 1 then p.(createOk := p.createOk && BuiltOk(b)) else ParseAnswer(z, FE.Found(c, z.fh, p), p)
  }

  /** The packet with all of the tile's answers in it. */
  function Answered(c: F.Config, z: Joint, p: F.Packet, b: Built): F.Packet
    requires T.Good(z.l, z.tile)
  {
    if F.Skips(FE.Found(c, z.fh, p), p) then p
    else if p.marker && !Taken(c, z, p, b).1 then FlushAnswer(Taken(c, z, p, b).0, Met(c, z, p, b))
    else Met(c, z, p, b)
  }

  /** The packets differ only in answers. */
  predicate SameBut(p: F.Packet, q: F.Packet) {
    && q.mh == p.mh && q.ordb == p.ordb && q.pos == p.pos && q.pid == p.pid && q.body == p.body
    && q.marker == p.marker && q.slab == p.slab && q.headerEnd == p.headerEnd
    && q.gap == p.gap && q.gapAccepted == p.gapAccepted && q.pointAccepted == p.pointAccepted
  }

  lemma SameFound(c: F.Config, s: F.Fh, p: F.Packet, q: F.Packet)
    requires SameBut(p, q)
    ensures FE.Found(c, s, q) == FE.Found(c, s, p)
    ensures F.Skips(FE.Found(c, s, p), q) == F.Skips(FE.Found(c, s, p), p)
  {
    hide F.OnCap;
  }

  lemma SameTaken(c: F.Config, s: F.Fh, p: F.Packet, q: F.Packet)
    requires SameBut(p, q) && q.createOk == p.createOk && q.parseOk == p.parseOk
    ensures F.OnMain(c, s, q) == F.OnMain(c, s, p) && F.OnBody(c, s, q) == F.OnBody(c, s, p)
  {
    hide GS.Signature, F.CloseStale, F.StaleReason;
  }

  lemma SameEnd(s: F.Fh, p: F.Packet, q: F.Packet)
    requires q.flushOk == p.flushOk
    ensures F.OnEoc(s, q) == F.OnEoc(s, p)
  {}

  lemma TakenMeets(c: F.Config, z: Joint, p: F.Packet, b: Built)
    requires T.Good(z.l, z.tile)
    ensures var g, q, (y, done) := FE.Found(c, z.fh, p), Met(c, z, p, b), Taken(c, z, p, b);
            && SameBut(p, q) && q.flushOk == p.flushOk
            && (y.fh, done) == if p.mh >= 1 then F.OnMain(c, g, q) else (F.OnBody(c, g, q), false)
  {
    hide T.Good, F.OnMain, F.OnBody, FE.Found, BuiltOk, OpenTile, FeedTile, ParseAnswer;
    var g := FE.Found(c, z.fh, p);
    if p.mh >= 1 {
      OpenFh(c, z, g, p.(createOk := p.createOk && BuiltOk(b)), b);
    } else {
      FeedFh(c, z, g, p);
    }
  }

  lemma OpenFh(c: F.Config, z: Joint, g: F.Fh, p: F.Packet, b: Built)
    requires T.Good(z.l, z.tile)
    ensures var (y, done) := OpenTile(c, z, g, p, b);
            (y.fh, done) == F.OnMain(c, g, p)
  {
    hide T.Good, F.OnMain, Rested, Rebuilds, BuiltOk;
  }

  lemma FeedFh(c: F.Config, z: Joint, g: F.Fh, p: F.Packet)
    requires T.Good(z.l, z.tile)
    ensures var q := ParseAnswer(z, g, p);
            FeedTile(c, z, g, p).fh == F.OnBody(c, g, q) && SameBut(p, q) && q.flushOk == p.flushOk
  {
    hide T.Good, F.OnBody, T.Parse, TF.ParseFailures, Noted;
  }

  lemma EndedMeets(y: Joint, p: F.Packet)
    requires T.Good(y.l, y.tile)
    ensures Ended(y, p).fh == F.OnEoc(y.fh, FlushAnswer(y, p))
  {
    hide T.Good, F.OnEoc, T.Flush, TF.FlushFailures, Rested;
  }

  lemma AnswersGiven(c: F.Config, z: Joint, p: F.Packet, b: Built)
    requires T.Good(z.l, z.tile)
    ensures var q, m, (y, done) := Answered(c, z, p, b), Met(c, z, p, b), Taken(c, z, p, b);
            && SameBut(p, q) && (F.Skips(FE.Found(c, z.fh, p), p) ==> q == p)
            && (!F.Skips(FE.Found(c, z.fh, p), p) ==>
                  SameBut(m, q) && q.createOk == m.createOk && q.parseOk == m.parseOk)
            && (!F.Skips(FE.Found(c, z.fh, p), p) && p.marker && !done ==> q.flushOk == FlushAnswer(y, p).flushOk)
  {
    hide T.Good, F.Skips, FE.Found, Met, Taken, FlushAnswer, SameBut;
    TakenMeets(c, z, p, b);
    var m, y := Met(c, z, p, b), Taken(c, z, p, b).0;
    FlushGives(y, p, m);
    SameItself(p);
    SameItself(m);
    SameOn(p, m, FlushAnswer(y, m));
  }

  lemma FlushGives(y: Joint, p: F.Packet, m: F.Packet)
    requires T.Good(y.l, y.tile) && m.flushOk == p.flushOk
    ensures var q := FlushAnswer(y, m);
            && SameBut(m, q) && q.createOk == m.createOk && q.parseOk == m.parseOk
            && q.flushOk == FlushAnswer(y, p).flushOk
  {
    hide T.Good, FlushSays, F.Intact;
  }

  lemma SameItself(p: F.Packet)
    ensures SameBut(p, p)
  {}

  lemma SameOn(p: F.Packet, q: F.Packet, r: F.Packet)
    requires SameBut(p, q) && SameBut(q, r)
    ensures SameBut(p, r)
  {}

  lemma StepFh(c: F.Config, z: Joint, p: F.Packet, b: Built)
    requires T.Good(z.l, z.tile)
    ensures var g, (y, done) := FE.Found(c, z.fh, p), Taken(c, z, p, b);
            Step(c, z, p, b).fh == if F.Skips(g, p) then F.OnSkip(g, p)
                                   else if p.marker && !done then F.OnEoc(y.fh, FlushAnswer(y, p)) else y.fh
  {
    hide T.Good, F.OnEoc, F.OnSkip, F.Skips, FE.Found, FlushAnswer, Taken, Ended, Rested;
    EndedMeets(Taken(c, z, p, b).0, p);
  }

  /** A joint step is, for the handler, one of its own steps on the packet with the tile's answers. */
  lemma {:induction false} StepPulls(c: F.Config, z: Joint, p: F.Packet, b: Built)
    requires T.Good(z.l, z.tile)
    ensures Step(c, z, p, b).fh == F.Pull(c, z.fh, Answered(c, z, p, b))
  {
    hide T.Good, F.OnMain, F.OnBody, F.OnEoc, F.OnSkip, F.Skips, FE.Found, Met, Taken, F.Pull, Answered, FlushAnswer,
         Step;
    var g, q := FE.Found(c, z.fh, p), Answered(c, z, p, b);
    StepFh(c, z, p, b);
    FE.PullIs(c, z.fh, q);
    TakenMeets(c, z, p, b);
    AnswersGiven(c, z, p, b);
    SameFound(c, z.fh, p, q);
    if !F.Skips(g, p) {
      SameTaken(c, g, Met(c, z, p, b), q);
      var (y, done) := Taken(c, z, p, b);
      if p.marker && !done { SameEnd(y.fh, FlushAnswer(y, p), q); }
    }
  }

  /** So what holds of every run of the handler holds here. */
  lemma {:induction false} HandlerRun(c: F.Config, ins: seq<(F.Packet, Built)>) returns (ps: seq<F.Packet>)
    ensures |ps| == |ins| && Run(c, ins).fh == F.Run(c, ps)
  {
    hide Step, F.Pull, T.Good, Answered;
    if ins == [] {
      ps := [];
    } else {
      var before, last := ins[..|ins| - 1], ins[|ins| - 1];
      ps := HandlerRun(c, before);
      StepPulls(c, Run(c, before), last.0, last.1);
      var q := Answered(c, Run(c, before), last.0, last.1);
      assert (ps + [q])[..|ps + [q]| - 1] == ps;
      ps := ps + [q];
    }
  }
}
