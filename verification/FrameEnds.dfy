/**
 How frames end: what the packet that ends a frame makes the handler report, in every run,
 and exactly when that is what the consumer is promised.
 */
module FrameEnds {
  import opened ChainReader
  import opened FrameHandler
  import opened FrameRuns
  import GS = GeometrySignature

  /** In a frame that holds slabs, an abort has fired exactly when the frame counts as failed. */
  lemma AbortedIffFailed(c: Config, s: Fh)
    requires Good(c, s) && s.flow.held != []
    ensures Seen(c, s).aborted <==> s.flags.failed
    ensures Seen(c, s).open
  {
    hide Watching, Chained, SignatureOk;
  }

  /** Which main packets end the call early, and which of those abort. */
  lemma MainOutcome(c: Config, s: Fh, p: Packet)
    requires p.mh >= 1
    ensures var (t, done) := OnMain(c, s, p);
            && (t.flags.failed <==> done && p.mh >= 2)
            && (p.mh == 1 ==> (done <==> !s.stream.ready && (s.stream.startSod + |p.body|) % 0x1_0000_0000 == 0))
  {
    hide GS.Signature;
  }

  /** The frame as the packet finds it, the loss before it and the slab cap dealt with. */
  function Found(c: Config, s: Fh, p: Packet): Fh {
    OnCap(OnGap(c, s, p))
  }

  lemma FoundGood(c: Config, s: Fh, p: Packet)
    requires Good(c, s)
    ensures Good(c, Found(c, s, p)) && |Found(c, s, p).flow.held| < SLAB_CAP
    ensures Found(c, s, p).stream.(streak := 0) == s.stream.(streak := 0)
    ensures s.flow.held != [] && Found(c, s, p).flow.held == [] ==>
              Seen(c, Found(c, s, p)).aborted && Seen(c, Found(c, s, p)).open
  {
    hide Watching, EndFrame;
    GapGood(c, s, p);
    var g := OnGap(c, s, p);
    CapGood(c, g);
    if |g.flow.held| >= SLAB_CAP {
      AbortedIffFailed(c, g);
      AbortSeen(c, g, SlabCap);
      var s1 := Count(Drain(FireAbort(g, SlabCap)), 0, 1);
      EndSeen(c, s1, false);
      EndFlags(s1, false);
    }
  }

  lemma MainEnds(c: Config, g: Fh, p: Packet)
    requires Good(c, g) && p.mh >= 1 && p.marker
    ensures var w := Seen(c, Handle(c, g, p));
            && !(w.aborted && !w.open)
            && (!w.aborted && w.open <==>
                  p.mh == 1 && !g.stream.ready && (g.stream.startSod + |p.body|) % 0x1_0000_0000 == 0)
  {
    hide Good, Seen, OnMain, OnEoc;
    MainGood(c, g, p);
    MainOutcome(c, g, p);
    var (t, done) := OnMain(c, g, p);
    AbortedIffFailed(c, t);
    if !done { EocGood(c, t, p); }
  }

  lemma SkipEnds(c: Config, g: Fh, p: Packet)
    requires Good(c, g) && Skips(g, p)
    ensures var w := Seen(c, OnSkip(g, p));
            if g.flow.held == [] then w == Seen(c, g) && !g.flags.failed else w.open && (w.aborted <==> g.flags.failed)
  {
    hide Watching, EndFrame;
    SkipGood(c, g, p);
  }

  /**
   The promise that a frame ends in either a ready report or an abort, never in both and never
   in neither, is not kept.  In every run, for every packet that ends a frame: it causes both
   exactly when it is a body packet of the tracked frame carrying a resync point whose own parse
   fails; and neither exactly when the main header of the frame it ends never completed, or it is
   itself an incomplete main header whose bytes bring the running header length round to zero.
   */
  lemma {:induction false} EitherOr(c: Config, ps: seq<Packet>, p: Packet)
    requires p.marker && (p.mh >= 1 || Run(c, ps).flow.held != [])
    ensures var s := Run(c, ps);
            var g := Found(c, s, p);
            var w := Seen(c, Pull(c, s, p));
            && (w.aborted && !w.open <==>
                  p.mh == 0 && g.flags.passed && !g.flags.failed && p.ordb && !g.flags.resyncSoft && !p.parseOk)
            && (!w.aborted && w.open <==>
                  if p.mh == 0 then g.flow.held != [] && !g.flags.passed && !g.flags.failed
                  else p.mh == 1 && !s.stream.ready && (s.stream.startSod + |p.body|) % 0x1_0000_0000 == 0)
  {
    hide Good, Seen, Found, OnBody, OnSkip, OnEoc, OnMain, Run;
    RunGood(c, ps);
    var s := Run(c, ps);
    FoundGood(c, s, p);
    var g := Found(c, s, p);
    assert Pull(c, s, p) == Handle(c, g, p) by { PullIs(c, s, p); }
    if p.mh >= 1 {
      MainEnds(c, g, p);
    } else if Skips(g, p) {
      SkipEnds(c, g, p);
    } else {
      BodyGood(c, g, p);
      EocGood(c, OnBody(c, g, p), p);
    }
  }

  lemma PullIs(c: Config, s: Fh, p: Packet)
    ensures Pull(c, s, p) == Handle(c, Found(c, s, p), p)
  {
    hide OnGap, OnCap, Handle;
  }

  /** In every run, a frame cut short by the next main packet or by the slab cap has its abort, and no report. */
  lemma {:induction false} CutShortAborts(c: Config, ps: seq<Packet>, p: Packet)
    requires var s := Run(c, ps); s.flow.held != [] && (p.mh >= 1 || |s.flow.held| >= SLAB_CAP)
    ensures var w := Seen(c, CloseStale(Found(c, Run(c, ps), p)));
            w.ok && w.aborted && w.open
  {
    hide Run, Watching, EndFrame, Found;
    RunGood(c, ps);
    var s := Run(c, ps);
    FoundGood(c, s, p);
    var g := Found(c, s, p);
    if g.flow.held == [] {
      assert CloseStale(g) == g;
    } else {
      AbortedIffFailed(c, g);
      AbortSeen(c, g, MissedEoc);
      var s1 := Count(Drain(FireAbort(g, MissedEoc)), 1, 1);
      EndSeen(c, s1, false);
      EndFlags(s1, false);
    }
  }

  // ------------------------------------------------------ what a report says

  /**
   Between positions `i` and `j` of the trace the main header is taken; a loss is flagged; a
   parse fails; the frame is flushed.
   */
  predicate HadHeader(t: seq<Event>, i: nat, j: nat) {
    exists k :: i < k < j <= |t| && t[k].Tracked?
  }

  predicate HadGap(t: seq<Event>, i: nat, j: nat) {
    exists k :: i < k < j <= |t| && t[k].GapSeen?
  }

  predicate HadBadParse(t: seq<Event>, i: nat, j: nat) {
    exists k :: i < k < j <= |t| && t[k] == Parsed(false)
  }

  predicate HadFlush(t: seq<Event>, i: nat, j: nat, ok: bool) {
    exists k :: i < k < j <= |t| && t[k] == Flushed(ok)
  }

  /** What the watch knows of a frame is what the trace shows since the frame opened. */
  lemma {:induction false} StoryIsTrace(c: Config, t: seq<Event>, i: nat, j: nat)
    requires i < j <= |t| && t[i].Begin? && (forall k :: i < k < j ==> !t[k].Begin?) && Watching(c, t[..j]).ok
    ensures var st := Watching(c, t[..j]).seen;
            && (st.tracked <==> HadHeader(t, i, j)) && (st.gap <==> HadGap(t, i, j))
            && (st.bad <==> HadBadParse(t, i, j))
            && (st.flush == Some(true) <==> HadFlush(t, i, j, true))
            && (st.flush == Some(false) <==> HadFlush(t, i, j, false))
    decreases j
  {
    hide Watching, Observe;
    SeenAt(c, t, j - 1);
    if i < j - 1 {
      ObserveKeeps(c, Watching(c, t[..j - 1]), t[j - 1]);
      StoryIsTrace(c, t, i, j - 1);
    } else {
      BeginTells(c, Watching(c, t[..i]));
    }
  }

  lemma BeginTells(c: Config, w: Watch)
    ensures Observe(c, w, Begin).seen == UNTOLD
  {}

  /**
   In every run, over the trace alone: the report of a frame says intact exactly when between
   the frame's opening and the report its header was taken, no loss was flagged and no parse
   call failed; and it says intact although one of the frame's parse calls, flush included,
   failed exactly when that one is the flush.
   */
  lemma {:induction false} IntactIff(c: Config, ps: seq<Packet>, i: nat, j: nat)
    requires var t := Run(c, ps).rec.trace;
             i < j < |t| && t[i].Begin? && t[j].Ready? && forall k :: i < k < j ==> !t[k].Begin?
    ensures var t := Run(c, ps).rec.trace;
            && (t[j].intact <==> HadHeader(t, i, j) && !HadGap(t, i, j) && !HadBadParse(t, i, j))
            && (t[j].intact <==> HadFlush(t, i, j, true) || HadFlush(t, i, j, false))
            && (t[j].intact && (HadBadParse(t, i, j) || HadFlush(t, i, j, false)) <==> HadFlush(t, i, j, false))
  {
    hide Run, Watching, HadHeader, HadGap, HadBadParse, HadFlush;
    var t := Run(c, ps).rec.trace;
    DeliveryContract(c, ps);
    assert t[..|t|] == t;
    OkBefore(c, t, j + 1, |t|);
    OkBefore(c, t, j, |t|);
    SeenAt(c, t, j);
    StoryIsTrace(c, t, i, j);
    var flush := Watching(c, t[..j]).seen.flush;
    if flush.Some? && flush.value { assert flush == Some(true); }
    if flush.Some? && !flush.value { assert flush == Some(false); }
  }

  /** The frame when its last packet is in and its end comes, if this packet is one that gets there. */
  function AtEnd(c: Config, s: Fh, p: Packet): Option<Fh> {
    var g := Found(c, s, p);
    if Skips(g, p) || !p.marker then None
    else
      var (t, done) := if p.mh >= 1 then OnMain(c, g, p) else (OnBody(c, g, p), false);
      if done then None else Some(t)
  }

  /**
   Which calls of the parser `intact` speaks of: the flag is settled before the flush.  In
   every run, for every packet with which a frame is reported, the report says intact exactly
   when the header was taken, nothing was lost and no parse call before the flush failed; and
   it says intact although a call of the parser failed exactly when that holds and the flush
   fails.  Precincts that fail inside a call that succeeds are the business of `TiledFrames`.
   */
  lemma {:induction false} IntactYetFailed(c: Config, ps: seq<Packet>, p: Packet)
    requires AtEnd(c, Run(c, ps), p).Some?
    ensures var before := AtEnd(c, Run(c, ps), p).value;
            var story := Seen(c, Pull(c, Run(c, ps), p)).seen;
            && story.report == Some(Intact(before.flags))
            && (story.report == Some(true) <==> Whole(story))
            && (story.report == Some(true) && (story.bad || story.flush == Some(false)) <==>
                  Intact(before.flags) && !p.flushOk)
  {
    hide Good, Seen, Found, OnBody, OnEoc, OnMain, OnSkip, Run;
    RunGood(c, ps);
    var s := Run(c, ps);
    FoundGood(c, s, p);
    PullIs(c, s, p);
    var g := Found(c, s, p);
    if p.mh >= 1 { MainGood(c, g, p); } else { BodyGood(c, g, p); }
    var t := AtEnd(c, s, p).value;
    EocGood(c, t, p);
    IntactIffWhole(c, t);
  }

  lemma IntactIffWhole(c: Config, s: Fh)
    requires Good(c, s) && s.flow.held != []
    ensures Intact(s.flags) <==> Whole(Seen(c, s).seen)
  {
    hide Watching, Chained;
  }
}
