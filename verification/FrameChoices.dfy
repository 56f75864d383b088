/**
 What the handler decides, in every run and exactly: what a loss does to a frame, what a body
 packet causes, and what becomes of the structure when a main packet comes.
 */
module FrameChoices {
  import opened Bytes
  import opened ChainReader
  import opened FrameHandler
  import FR = FrameRuns
  import FE = FrameEnds
  import FS = FrameSteps

  // ---------------------------------------------------------------------- losses

  /** A frame is open, and not given up. */
  predicate Live(s: Fh) {
    s.flow.held != [] && !s.flags.failed
  }

  /** What a loss makes the handler report. */
  function LossEvents(c: Config, s: Fh, p: Packet): seq<Event> {
    if !Live(s) then [GapSeen]
    else if c.resyncGap && s.flags.passed && p.gapAccepted then [GapSeen, GapTaken(|Flatten(s.flow.chain)|)]
    else [GapSeen, Abort(Gap)]
  }

  /**
   In every run, a packet that follows a loss: a frame in flight is given up exactly when the loss
   is not accepted by a consumer that can resync, or its header is not in yet; if it is accepted,
   it is at the bytes delivered so far, and the frame goes on with its parse parked.
   */
  lemma {:induction false} LossOutcome(c: Config, ps: seq<Packet>, p: Packet)
    requires p.gap
    ensures var s, t := Run(c, ps), OnGap(c, Run(c, ps), p);
            && t.rec.trace == s.rec.trace + LossEvents(c, s, p) <= Pull(c, s, p).rec.trace
            && (t.flags.failed <==> s.flags.failed || LossEvents(c, s, p) == [GapSeen, Abort(Gap)])
            && (t.flags.resyncSoft <==> Live(s) && !t.flags.failed && s.flags.passed)
  {
    hide Run, Pull, FR.Watching, Flatten;
    FR.RunGood(c, ps);
    var s := Run(c, ps);
    FS.PullStep(c, s, p);
    assert s.rec.trace + [GapSeen] + [Abort(Gap)] == s.rec.trace + [GapSeen, Abort(Gap)];
    assert s.rec.trace + [GapSeen] + [GapTaken(s.flow.total)] == s.rec.trace + [GapSeen, GapTaken(s.flow.total)];
  }

  // ----------------------------------------------------------------- body packets

  /** Where the resync point of a body packet lies: behind the bytes delivered before the packet. */
  function PointAt(g: Fh, p: Packet): nat {
    |Flatten(g.flow.chain)| + p.pos
  }

  /** What a body packet of the tracked frame makes the handler report before the frame's end is looked at. */
  function BodyEvents(c: Config, g: Fh, p: Packet): seq<Event> {
    var w := FR.Seen(c, g);
    [Chunk(|Flatten(g.flow.chain)|, p.body)]
    + (if p.ordb && w.armed && c.resyncPoint then [Offered(PointAt(g, p), p.pid, p.pointAccepted)] else [])
    + (if p.ordb && FR.Whole(w.seen) then [Parsed(p.parseOk)] else [])
    + (if p.ordb && FR.Whole(w.seen) && !p.parseOk then [Abort(ParseFailure)] else [])
  }

  /**
   In every run, a body packet of the tracked frame: its bytes are delivered behind those before;
   a resync point in it is told to the tile at the bytes before the packet plus its POS, and offered
   exactly while an accepted loss awaits one; the tile is parsed exactly when the packet has such a
   point and neither a loss nor a failed parse has been reported of the frame.
   */
  lemma {:induction false} BodyOutcome(c: Config, ps: seq<Packet>, p: Packet)
    requires p.mh == 0 && !Skips(FE.Found(c, Run(c, ps), p), p)
    ensures var g := FE.Found(c, Run(c, ps), p);
            var t := OnBody(c, g, p);
            && t.rec.trace == g.rec.trace + BodyEvents(c, g, p) <= Pull(c, Run(c, ps), p).rec.trace
            && t.flow.signals == g.flow.signals + (if p.ordb then [(PointAt(g, p), p.pid)] else [])
            && (!p.marker ==> Pull(c, Run(c, ps), p) == t)
  {
    hide Run, FR.Watching, Flatten, FE.Found, OnBody;
    FR.RunGood(c, ps);
    var s := Run(c, ps);
    FE.FoundGood(c, s, p);
    var g := FE.Found(c, s, p);
    BodyTrace(c, g, p);
    FE.PullIs(c, s, p);
    FS.EocStep(OnBody(c, g, p), p);
  }

  lemma BodyTrace(c: Config, g: Fh, p: Packet)
    requires FR.Good(c, g) && g.flags.passed && !g.flags.failed && |g.flow.held| < SLAB_CAP
    ensures var t := OnBody(c, g, p);
            && t.rec.trace == g.rec.trace + BodyEvents(c, g, p)
            && t.flow.signals == g.flow.signals + (if p.ordb then [(PointAt(g, p), p.pid)] else [])
  {
    hide FR.Watching, Flatten;
    var r, w := g.rec.trace, FR.Seen(c, g);
    var chunk := [Chunk(g.flow.total, p.body)];
    var offer := if p.ordb && w.armed && c.resyncPoint then [Offered(PointAt(g, p), p.pid, p.pointAccepted)] else [];
    var parse := if p.ordb && FR.Whole(w.seen) then [Parsed(p.parseOk)] else [];
    var abort := if p.ordb && FR.Whole(w.seen) && !p.parseOk then [Abort(ParseFailure)] else [];
    OneByOne(r, chunk, offer, parse, abort);
  }

  /** Events logged one after the other, some of them left out. */
  lemma OneByOne(r: seq<Event>, a: seq<Event>, b: seq<Event>, c: seq<Event>, d: seq<Event>)
    ensures r + (a + b + c + d) == r + a + b + c + d
    ensures a == [] ==> r + a == r
    ensures b == [] ==> r + a + b == r + a
    ensures c == [] ==> r + a + b + c == r + a + b
    ensures d == [] ==> r + a + b + c + d == r + a + b + c
  {}

  // ----------------------------------------------------------------- main packets

  /** The signature the structure goes by; one latched without any takes the header's. */
  function Known(s: Fh, sig: nat): nat {
    if s.stream.geomSig == 0 then sig else s.stream.geomSig
  }

  /**
   Why the latched structure goes, if it goes: a header that can be trusted, and enough
   failures or a new geometry.
   */
  function Drops(c: Config, s: Fh, streak: nat, p: Packet): Option<Why> {
    var sig := GS.Signature(p.body).0;
    if p.mh < 2 || !s.stream.ready || sig == 0 then None
    else if 0 < c.failK <= streak then Some(FailStreak)
    else if sig != Known(s, sig) then Some(NewGeometry)
    else None
  }

  /** A structure is built from the header: there is none, or the one there is goes. */
  predicate Builds(c: Config, s: Fh, streak: nat, p: Packet) {
    p.mh >= 2 && (!s.stream.ready || Drops(c, s, streak, p).Some?)
  }

  /** The frame is tracked: on a structure that could be built, or on the latched one if the header may be trusted. */
  predicate Tracks(c: Config, s: Fh, streak: nat, p: Packet) {
    if Builds(c, s, streak, p) then p.headerEnd != 0 && p.createOk
    else s.stream.ready && (p.mh >= 2 ==> GS.Signature(p.body).0 != 0)
  }

  /** What a main packet makes the handler report once the frame is open. */
  function HeaderEvents(c: Config, s: Fh, streak: nat, p: Packet): seq<Event> {
    var sig, why := GS.Signature(p.body).0, Drops(c, s, streak, p);
    (if why.Some? then [Dropped(why.value, sig, Known(s, sig))] else [])
    + (if Tracks(c, s, streak, p) then [Tracked] else if p.mh >= 2 then [Abort(ParseFailure)] else [])
    + (if Builds(c, s, streak, p) && Tracks(c, s, streak, p) then [Latched(sig)] else [])
    + (if why.Some? && Tracks(c, s, streak, p) then [Relatch(why.value)] else [])
  }

  /** Where the walk starts: behind the header as parsed, as scanned, or as last known. */
  function WalkStart(c: Config, s: Fh, streak: nat, p: Packet): nat {
    var sod := GS.Signature(p.body).1;
    if Builds(c, s, streak, p) then p.headerEnd
    else if p.mh >= 2 && sod != 0 then sod
    else s.stream.startSod
  }

  /** What is latched afterwards. */
  function StreamAfter(c: Config, s: Fh, streak: nat, p: Packet): Stream {
    var sig, st := GS.Signature(p.body).0, s.stream;
    if Builds(c, s, streak, p) && Tracks(c, s, streak, p) then
      Stream(true, sig, sig, p.headerEnd, 0, st.relatches + ToNat(st.ready))
    else if Builds(c, s, streak, p) then
      st.(ready := false, geomSig := if st.ready then Known(s, sig) else st.geomSig, startSod := p.headerEnd)
    else if Tracks(c, s, streak, p) then
      st.(geomSig := if p.mh >= 2 then Known(s, sig) else st.geomSig, startSod := WalkStart(c, s, streak, p))
    else if p.mh == 1 then st.(startSod := (st.startSod + |p.body|) % 0x1_0000_0000)
    else st
  }

  /**
   In every run, a main packet, the frame before it being closed and its bytes delivered: the
   latched structure goes exactly when a trusted header finds the streak of failed frames at the
   threshold or shows another geometry; a structure is built exactly when there is none or it goes;
   the frame is tracked exactly when it could be built, or the latched one may be used.  Parts of
   a header that comes in pieces before there is a structure add to its length, modulo 2^32.
   */
  lemma {:induction false} HeaderOutcome(c: Config, ps: seq<Packet>, p: Packet)
    requires p.mh >= 1
    ensures var g := FE.Found(c, Run(c, ps), p);
            var o := OpenFrame(g, p);
            var k := FR.Seen(c, o).streak;
            var t := OnMain(c, g, p).0;
            && o.rec.trace + HeaderEvents(c, o, k, p) == t.rec.trace <= Pull(c, Run(c, ps), p).rec.trace
            && (t.flags.passed <==> Tracks(c, o, k, p))
            && t.stream == StreamAfter(c, o, k, p)
            && (Tracks(c, o, k, p) ==> t.flow.cursor == WalkStart(c, o, k, p))
  {
    hide Run, FR.Watching, FE.Found, OpenFrame, OnHeader, GS.Signature, HeaderEvents, Tracks, Builds, WalkStart,
         StreamAfter;
    FR.RunGood(c, ps);
    var s := Run(c, ps);
    FE.FoundGood(c, s, p);
    var g := FE.Found(c, s, p);
    FR.OpenGood(c, g, p);
    HeaderChoice(c, OpenFrame(g, p), p);
    FE.PullIs(c, s, p);
    FS.EocStep(OnMain(c, g, p).0, p);
  }

  lemma HeaderChoice(c: Config, o: Fh, p: Packet)
    requires FR.Opened(c, o) && p.mh >= 1
    ensures var k := FR.Seen(c, o).streak;
            var t := OnHeader(c, o, p).0;
            && o.rec.trace + HeaderEvents(c, o, k, p) == t.rec.trace
            && (t.flags.passed <==> Tracks(c, o, k, p))
            && t.stream == StreamAfter(c, o, k, p)
            && (Tracks(c, o, k, p) ==> t.flow.cursor == WalkStart(c, o, k, p))
  {
    hide FR.Watching, FR.Chained, GS.Signature;
    assert o.flags.abortArmed && o.stream.streak == FR.Seen(c, o).streak;
    hide FR.Opened;
    var r, sig, k := o.rec.trace, GS.Signature(p.body).0, FR.Seen(c, o).streak;
    var why := Drops(c, o, k, p);
    OneByOne(r, if why.Some? then [Dropped(why.value, sig, Known(o, sig))] else [],
             if Tracks(c, o, k, p) then [Tracked] else if p.mh >= 2 then [Abort(ParseFailure)] else [],
             if Builds(c, o, k, p) && Tracks(c, o, k, p) then [Latched(sig)] else [],
             if why.Some? && Tracks(c, o, k, p) then [Relatch(why.value)] else []);
  }
}
