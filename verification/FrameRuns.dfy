/** What the frame handler keeps over every sequence of packets. */
module FrameRuns {
  import opened Bytes
  import opened ChainReader
  import opened FrameHandler
  import GS = GeometrySignature

  // ------------------------------------------------------ the consumer's contract

  /**
   A consumer watching the trace.  `bytes` is what the current frame has delivered,
   `seen` is what happened to it, `streak` counts failed frames since the last clean one or
   latch, `reason` is why the structure was last dropped, and `armed` says that an accepted
   loss still awaits its resync point.
   */
  datatype Watch = Watch(ok: bool, open: bool, bytes: seq<byte>, aborted: bool, seen: Story,
                         streak: nat, reason: Option<Why>, armed: bool)

  /**
   A frame's main header was taken, a loss was flagged in it, a mid-frame parse failed, what
   the flush said, what was reported.
   */
  datatype Story = Story(tracked: bool, gap: bool, bad: bool, flush: Option<bool>, report: Option<bool>)

  const UNTOLD := Story(false, false, false, None, None)

  /** As the consumer is promised: the header was taken, nothing was lost, no parse so far failed. */
  predicate Whole(st: Story) {
    st.tracked && !st.gap && !st.bad
  }

  /** The contract, event by event: `ok` turns false at the first breach. */
  function Observe(c: Config, w: Watch, e: Event): Watch {
    match e
    case GapSeen => w.(seen := w.seen.(gap := true))
    case GapTaken(seam) =>
      // a loss is accepted in a live frame, at the bytes delivered so far
      w.(ok := w.ok && w.open && !w.aborted && seam == |w.bytes|, armed := true)
    case Offered(_, _, taken) =>
      // points are offered only after an accepted loss, until one is taken
      w.(ok := w.ok && w.armed, armed := !taken)
    case Begin => w.(open := true, bytes := [], aborted := false, seen := UNTOLD, reason := None, armed := false)
    case Tracked => w.(ok := w.ok && w.open && !w.aborted, seen := w.seen.(tracked := true))
    case Chunk(off, b) =>
      // contiguous from offset 0, and never after an abort
      w.(ok := w.ok && w.open && !w.aborted && off == |w.bytes|, bytes := w.bytes + b)
    case Abort(r) =>
      // once per frame; the end-of-frame abort is never needed
      w.(ok := w.ok && w.open && !w.aborted && !r.DamagedEoc?, aborted := true, armed := false)
    case Ready(intact, chain) =>
      // all bytes were delivered; intact exactly when the frame is whole so far, and then it was flushed
      w.(ok := w.ok && w.open && chain == w.bytes && (intact <==> Whole(w.seen)) && (intact <==> w.seen.flush.Some?)
               && (intact ==> !w.aborted),
         open := false, armed := false, seen := w.seen.(report := Some(intact)))
    case Judged(v) =>
      w.(streak := match v case Clean => 0 case Failed => w.streak + 1 case Neutral => w.streak)
    case Dropped(why, sig, was) =>
      // the structure goes only for a different geometry or after enough failed frames
      w.(ok := w.ok && sig != 0 && (why.NewGeometry? ==> sig != was) && (why.FailStreak? ==> 0 < c.failK <= w.streak),
         reason := Some(why))
    case Latched(_) => w.(streak := 0)
    case Relatch(why) => w.(ok := w.ok && w.reason == Some(why))
    case Parsed(ok) => w.(ok := w.ok && w.open && !w.aborted, seen := w.seen.(bad := w.seen.bad || !ok))
    case Flushed(ok) =>
      // once per frame
      w.(ok := w.ok && w.open && !w.aborted && w.seen.flush.None?, seen := w.seen.(flush := Some(ok)))
  }

  function Watching(c: Config, trace: seq<Event>): Watch {
    if trace == [] then Watch(true, false, [], false, UNTOLD, 0, None, false)
    else Observe(c, Watching(c, trace[..|trace| - 1]), trace[|trace| - 1])
  }

  /** What the watch has seen of a handler's trace. */
  function Seen(c: Config, s: Fh): Watch {
    Watching(c, s.rec.trace)
  }

  lemma SeenLog(c: Config, r: Record, e: Event)
    ensures Watching(c, Log(r, e).trace) == Observe(c, Watching(c, r.trace), e)
  {
    assert (r.trace + [e])[..|r.trace|] == r.trace;
  }

  // ------------------------------------------------------------------- invariant

  /** Delivery: the watch is content, and the handler's flags say where the frame stands. */
  predicate Delivery(held: seq<nat>, chain: seq<seq<byte>>, f: Flags, streak: nat, w: Watch) {
    && w.ok && w.streak == streak
    && (held != [] ==> w.open && w.bytes == Flatten(chain))
    && (f.abortArmed ==> w.open && !w.aborted)
    && (f.failed ==> w.aborted && !f.abortArmed)
    && (f.failed || f.passed ==> held != [])
    && (held != [] && !f.failed ==> f.abortArmed)
    && (held != [] ==> (Intact(f) <==> Whole(w.seen)) && w.seen.flush.None?)
    && (f.resyncSoft ==> f.passed && !f.failed)
    && (f.resyncArmed <==> w.armed) && (f.resyncArmed ==> f.resyncSoft)
  }

  /** The chain and the held slabs go together. */
  predicate Chained(flow: Flow) {
    |flow.signals| <= |flow.held| == |flow.chain| <= SLAB_CAP && flow.total == |Flatten(flow.chain)|
  }

  /** The latched signature is that of the structure, unless the structure came from a header without one. */
  predicate SignatureOk(st: Stream) {
    st.ready ==> st.builtSig == st.geomSig || st.builtSig == 0
  }

  predicate Good(c: Config, s: Fh) {
    && Delivery(s.flow.held, s.flow.chain, s.flags, s.stream.streak, Seen(c, s))
    && Chained(s.flow) && SignatureOk(s.stream)
  }

  // ---------------------------------------------------------------- small steps

  lemma AbortSeen(c: Config, s: Fh, r: Reason)
    requires Good(c, s) && !r.DamagedEoc?
    ensures var w := Seen(c, FireAbort(s, r));
            w == Seen(c, s).(aborted := w.aborted, armed := false) && w.ok && (s.flags.abortArmed ==> w.aborted)
  {
    hide Watching, Chained;
    SeenLog(c, s.rec, Abort(r));
  }

  lemma EndSeen(c: Config, s: Fh, clean: bool)
    ensures Seen(c, EndFrame(s, clean)) == Observe(c, Seen(c, s), Judged(Judge(s, clean)))
  {
    hide Watching;
    SeenLog(c, s.rec, Judged(Judge(s, clean)));
  }

  lemma GapGood(c: Config, s: Fh, p: Packet)
    requires Good(c, s)
    ensures Good(c, OnGap(c, s, p))
  {
    hide Watching;
    SeenLog(c, s.rec, GapSeen);
    SeenLog(c, Log(s.rec, GapSeen), GapTaken(s.flow.total));
    SeenLog(c, Log(s.rec, GapSeen), Abort(Gap));
  }

  lemma CapGood(c: Config, s: Fh)
    requires Good(c, s)
    ensures Good(c, OnCap(s)) && |OnCap(s).flow.held| < SLAB_CAP
  {
    hide Watching, EndFrame;
    if |s.flow.held| >= SLAB_CAP {
      AbortSeen(c, s, SlabCap);
      var s1 := Count(Drain(FireAbort(s, SlabCap)), 0, 1);
      EndSeen(c, s1, false);
      EndFlags(s1, false);
    }
  }

  /** The end-of-frame accounting touches the streak, the failure note and the trace only. */
  lemma EndFlags(s: Fh, clean: bool)
    ensures var t := EndFrame(s, clean);
            && t.flow == s.flow && t.flags == s.flags.(parseFailed := false)
            && t.stream == s.stream.(streak := t.stream.streak) && t.rec == s.rec.(trace := t.rec.trace)
            && t.stream.streak == (match Judge(s, clean)
                                   case Clean => 0
                                   case Failed => s.stream.streak + 1
                                   case Neutral => s.stream.streak)
  {}

  lemma SkipGood(c: Config, s: Fh, p: Packet)
    requires Good(c, s) && Skips(s, p)
    ensures Good(c, OnSkip(s, p))
    ensures s.flow.held != [] ==> Seen(c, OnSkip(s, p)).open && (Seen(c, OnSkip(s, p)).aborted <==> s.flags.failed)
  {
    hide Watching, EndFrame;
    var s1 := s.(rec := s.rec.(released := s.rec.released + [p.slab]));
    var s2 := Count(FireAbort(s1, DamagedEoc), 1, 1);
    EndSeen(c, s2, false);
    EndFlags(s2, false);
  }

  /** Delivering a chunk of an open, unaborted frame. */
  lemma DeliverSeen(c: Config, s: Fh, p: Packet)
    requires Chained(s.flow) && |s.flow.held| < SLAB_CAP
    requires var w := Seen(c, s); w.ok && w.open && !w.aborted && w.bytes == Flatten(s.flow.chain)
    ensures var t := Deliver(s, p);
            Chained(t.flow) && Seen(c, t) == Seen(c, s).(bytes := Flatten(t.flow.chain))
  {
    hide Watching;
    SeenLog(c, s.rec, Chunk(s.flow.total, p.body));
    assert (s.flow.chain + [p.body])[..|s.flow.chain|] == s.flow.chain;
  }

  /** The frame cut short is closed before the next one opens. */
  lemma CloseGood(c: Config, s: Fh)
    requires Good(c, s)
    ensures var t := CloseStale(s);
            && t.flow.(cursor := 0) == Flow([], [], 0, 0, []) && !t.flags.passed && !t.flags.resyncSoft
            && Seen(c, t).ok && Seen(c, t).streak == t.stream.streak && !t.flags.resyncArmed
            && t.stream == s.stream.(streak := t.stream.streak)
  {
    hide Watching, EndFrame;
    if s.flow.held != [] {
      AbortSeen(c, s, MissedEoc);
      var s1 := Count(Drain(FireAbort(s, MissedEoc)), 1, 1);
      EndSeen(c, s1, false);
      EndFlags(s1, false);
    }
  }

  /** The state right after a main packet's bytes were delivered. */
  predicate Opened(c: Config, s: Fh) {
    && Good(c, s) && s.flow.held != [] && !s.flags.failed && !s.flags.passed
    && Seen(c, s).seen == UNTOLD
  }

  lemma OpenGood(c: Config, s: Fh, p: Packet)
    requires Good(c, s)
    ensures var t := OpenFrame(s, p);
            Opened(c, t) && Seen(c, t).reason == None && t.stream == s.stream.(streak := t.stream.streak)
  {
    hide Watching, CloseStale;
    CloseGood(c, s);
    var a := CloseStale(s);
    SeenLog(c, a.rec, Begin);
    DeliverSeen(c, a.(flags := a.flags.(failed := false, parseFailed := false), rec := Log(a.rec, Begin)), p);
  }

  lemma FailHeaderGood(c: Config, s: Fh)
    requires Opened(c, s)
    ensures Good(c, FailHeader(s)) && Seen(c, FailHeader(s)).open
  {
    hide Watching, Chained;
    AbortSeen(c, s, ParseFailure);
  }

  lemma AdoptGood(c: Config, s: Fh, sig: nat, why: Option<Why>)
    requires Opened(c, s) && Seen(c, s).reason == why
    ensures Good(c, Adopt(s, sig, why)) && Seen(c, Adopt(s, sig, why)).open
  {
    hide Watching, Chained;
    SeenLog(c, s.rec, Tracked);
    SeenLog(c, Log(s.rec, Tracked), Latched(sig));
    if why.Some? { SeenLog(c, Log(Log(s.rec, Tracked), Latched(sig)), Relatch(why.value)); }
  }

  /** The structure in use for a tracked frame is latched under signature `sig`. */
  predicate LatchedAs(st: Stream, sig: nat) {
    st.ready && st.geomSig == sig && (st.builtSig == sig || st.builtSig == 0)
  }

  lemma LatchGood(c: Config, s: Fh, p: Packet, sig: nat, why: Option<Why>)
    requires Opened(c, s) && Seen(c, s).reason == why
    ensures var (t, done) := Latch(s, p, sig, why);
            && Good(c, t) && Seen(c, t).open && t.flow.held != [] && (done ==> !t.flags.passed)
            && (t.flags.passed ==> LatchedAs(t.stream, sig))
  {
    hide Watching, Delivery;
    var s1 := Seek(s, p.headerEnd);
    if p.headerEnd == 0 || !p.createOk { FailHeaderGood(c, s1); } else { AdoptGood(c, s1, sig, why); }
  }

  lemma ReuseGood(c: Config, s: Fh, sod: nat)
    requires Opened(c, s)
    ensures var t := Reuse(s, sod);
            Good(c, t) && Seen(c, t).open && t.flow.held != []
  {
    hide Watching;
    SeenLog(c, s.rec, Tracked);
  }

  lemma RecheckGood(c: Config, s: Fh, p: Packet, sig: nat, sod: nat)
    requires Opened(c, s) && Seen(c, s).reason == None && s.stream.ready && sig != 0
    ensures var (t, done) := Recheck(c, s, p, sig, sod);
            && Good(c, t) && Seen(c, t).open && t.flow.held != [] && (done ==> !t.flags.passed)
            && (t.flags.passed ==> LatchedAs(t.stream, sig))
  {
    hide Watching, Latch;
    var s1 := s.(stream := s.stream.(geomSig := if s.stream.geomSig == 0 then sig else s.stream.geomSig));
    var stale := StaleReason(c, s1.stream, sig);
    if stale.Some? {
      SeenLog(c, s1.rec, Dropped(stale.value, sig, s1.stream.geomSig));
      LatchGood(c, Invalidate(s1, stale.value, sig), p, sig, stale);
    } else {
      ReuseGood(c, s1, sod);
    }
  }

  lemma HeaderGood(c: Config, s: Fh, p: Packet)
    requires Opened(c, s) && Seen(c, s).reason == None
    ensures var (t, done) := OnHeader(c, s, p);
            && Good(c, t) && Seen(c, t).open && t.flow.held != [] && (done ==> !t.flags.passed)
            && (p.mh >= 2 && t.flags.passed ==> LatchedAs(t.stream, GS.Signature(p.body).0))
  {
    hide Watching, Latch, Recheck, GS.Signature;
    var (sig, sod) := GS.Signature(p.body);
    LatchGood(c, s, p, sig, None);
    if s.stream.ready && sig != 0 { RecheckGood(c, s, p, sig, sod); }
    ReuseGood(c, s, 0);
    FailHeaderGood(c, s);
  }

  lemma MainGood(c: Config, s: Fh, p: Packet)
    requires Good(c, s)
    ensures var (t, done) := OnMain(c, s, p);
            && Good(c, t) && Seen(c, t).open && t.flow.held != []
            && (p.mh >= 2 && t.flags.passed ==> LatchedAs(t.stream, GS.Signature(p.body).0))
  {
    hide Good, Seen, OpenFrame, OnHeader, GS.Signature;
    OpenGood(c, s, p);
    HeaderGood(c, OpenFrame(s, p), p);
  }

  lemma SignalGood(c: Config, s: Fh, p: Packet, at: nat)
    requires Good(c, s) && |s.flow.signals| < |s.flow.held|
    ensures var t := Signal(c, s, p, at);
            && Good(c, t) && t.flow.held == s.flow.held && t.flags == s.flags.(resyncArmed := t.flags.resyncArmed)
            && Seen(c, t) == Seen(c, s).(armed := t.flags.resyncArmed)
  {
    hide Watching;
    SeenLog(c, s.rec, Offered(at, p.pid, p.pointAccepted));
  }

  lemma ParseTileGood(c: Config, s: Fh, p: Packet)
    requires Good(c, s) && s.flow.held != []
    ensures var t := ParseTile(s, p);
            && Good(c, t) && Seen(c, t).open && t.flow == s.flow
            && (!s.flags.failed ==> (Seen(c, t).aborted <==> !s.flags.resyncSoft && !p.parseOk))
  {
    hide Watching, Chained;
    SeenLog(c, s.rec, Parsed(p.parseOk));
    SeenLog(c, Log(s.rec, Parsed(p.parseOk)), Abort(ParseFailure));
  }

  lemma BodyGood(c: Config, s: Fh, p: Packet)
    requires Good(c, s) && |s.flow.held| < SLAB_CAP && s.flags.passed && !s.flags.failed
    ensures var t := OnBody(c, s, p);
            && Good(c, t) && Seen(c, t).open && t.flow.held != []
            && (Seen(c, t).aborted <==> p.ordb && !s.flags.resyncSoft && !p.parseOk)
  {
    hide Watching, ParseTile, Signal;
    DeliverSeen(c, s, p);
    var s1 := Deliver(s, p);
    if p.ordb {
      SignalGood(c, s1, p, s.flow.total + p.pos);
      ParseTileGood(c, Signal(c, s1, p, s.flow.total + p.pos), p);
    }
  }

  lemma FlushSeen(c: Config, s: Fh, p: Packet)
    requires Good(c, s) && s.flow.held != []
    ensures var w := Seen(c, s);
            Seen(c, FlushTile(s, p)) == if Intact(s.flags) then w.(seen := w.seen.(flush := Some(p.flushOk))) else w
    ensures Intact(s.flags) ==> !Seen(c, s).aborted
  {
    hide Watching, Chained;
    SeenLog(c, s.rec, Flushed(p.flushOk));
  }

  lemma EocGood(c: Config, s: Fh, p: Packet)
    requires Good(c, s) && s.flow.held != []
    ensures var t := OnEoc(s, p);
            && Good(c, t) && !Seen(c, t).open && Seen(c, t).aborted == Seen(c, s).aborted
            && Seen(c, t).seen == Seen(c, s).seen.(flush := if Intact(s.flags) then Some(p.flushOk) else None,
                                                   report := Some(Intact(s.flags)))
  {
    hide Watching, EndFrame;
    FlushSeen(c, s, p);
    var s1 := FlushTile(s, p);
    var clean := Intact(s.flags) && !s1.flags.failed;
    EndSeen(c, s1, clean);
    EndFlags(s1, clean);
    SeenLog(c, EndFrame(s1, clean).rec, Ready(Intact(s.flags), Flatten(s.flow.chain)));
  }

  // -------------------------------------------------------------------- all runs

  lemma HandleGood(c: Config, s: Fh, p: Packet)
    requires Good(c, s) && |s.flow.held| < SLAB_CAP
    ensures Good(c, Handle(c, s, p))
  {
    hide Good, Seen, OnSkip, OnMain, OnBody, OnEoc;
    if Skips(s, p) {
      SkipGood(c, s, p);
    } else {
      if p.mh >= 1 { MainGood(c, s, p); } else { BodyGood(c, s, p); }
      var (s1, done) := if p.mh >= 1 then OnMain(c, s, p) else (OnBody(c, s, p), false);
      EocGood(c, s1, p);
    }
  }

  lemma PullGood(c: Config, s: Fh, p: Packet)
    requires Good(c, s)
    ensures Good(c, Pull(c, s, p))
  {
    hide Good, OnGap, OnCap, Handle;
    GapGood(c, s, p);
    CapGood(c, OnGap(c, s, p));
    HandleGood(c, OnCap(OnGap(c, s, p)), p);
  }

  lemma InitGood(c: Config)
    ensures Good(c, Init())
  {}

  lemma {:induction false} RunGood(c: Config, ps: seq<Packet>)
    ensures Good(c, Run(c, ps))
  {
    hide Good, Pull, Init;
    if ps == [] {
      InitGood(c);
    } else {
      RunGood(c, ps[..|ps| - 1]);
      PullGood(c, Run(c, ps[..|ps| - 1]), ps[|ps| - 1]);
    }
  }

  /**
   The delivery contract over every packet sequence, as the watch states it, and the
   state it leaves: the bytes delivered since the frame began are the chain, held slabs
   and chunks correspond, and neither the slab cap nor the signal cap is ever exceeded.
   */
  lemma {:induction false} DeliveryContract(c: Config, ps: seq<Packet>)
    ensures var s := Run(c, ps);
            var w := Seen(c, s);
            && w.ok && s.stream.streak == w.streak
            && (s.flow.held != [] ==> w.bytes == Flatten(s.flow.chain))
            && |s.flow.held| == |s.flow.chain| <= SLAB_CAP && s.flow.total == |Flatten(s.flow.chain)|
            && |s.flow.signals| <= SLAB_CAP < MAX_SIGNALS
  {
    hide Run, Watching;
    RunGood(c, ps);
  }

  // ------------------------------------------ the contract, read off the trace

  lemma SeenAt(c: Config, t: seq<Event>, j: nat)
    requires j < |t|
    ensures Watching(c, t[..j + 1]) == Observe(c, Watching(c, t[..j]), t[j])
  {
    assert t[..j + 1][..j] == t[..j];
  }

  /** The watch was content all along. */
  lemma {:induction false} OkBefore(c: Config, trace: seq<Event>, n: nat, m: nat)
    requires n <= m <= |trace| && Watching(c, trace[..m]).ok
    ensures Watching(c, trace[..n]).ok
    decreases m
  {
    hide Watching;
    if n < m {
      SeenAt(c, trace, m - 1);
      OkBefore(c, trace, n, m - 1);
    }
  }

  /** A frame opens between positions `i` and `j` of the trace. */
  predicate Reopened(trace: seq<Event>, i: nat, j: nat) {
    exists k :: i < k < j < |trace| && trace[k].Begin?
  }

  /** What an event adds to the story of a frame that stays open or ends. */
  lemma ObserveKeeps(c: Config, w: Watch, e: Event)
    requires !e.Begin?
    ensures var v := Observe(c, w, e);
            && (v.aborted <==> w.aborted || e.Abort?)
            && (v.seen.tracked <==> w.seen.tracked || e.Tracked?)
            && (v.seen.gap <==> w.seen.gap || e.GapSeen?)
            && (v.seen.bad <==> w.seen.bad || e == Parsed(false))
            && (v.seen.flush == if e.Flushed? then Some(e.ok) else w.seen.flush)
            && (v.ok && e.Flushed? ==> w.seen.flush.None?)
            && (v.ok ==> w.ok)
  {}

  /** Until a frame opens, an abort, a loss or a failed parse is remembered. */
  lemma {:induction false} Remembered(c: Config, trace: seq<Event>, i: nat, j: nat)
    requires i < j <= |trace| && forall k :: i < k < j ==> !trace[k].Begin?
    ensures var w := Watching(c, trace[..j]);
            && (trace[i].Abort? ==> w.aborted)
            && (trace[i].GapSeen? ==> w.seen.gap)
            && (trace[i] == Parsed(false) ==> w.seen.bad)
    decreases j
  {
    hide Watching, Observe;
    SeenAt(c, trace, j - 1);
    if !trace[j - 1].Begin? { ObserveKeeps(c, Watching(c, trace[..j - 1]), trace[j - 1]); }
    if i < j - 1 { Remembered(c, trace, i, j - 1); }
  }

  /** A trace the watch is content with: nothing is delivered or aborted after an abort, and intact means clean. */
  lemma ContentTrace(c: Config, t: seq<Event>, i: nat, j: nat)
    requires Watching(c, t).ok && i < j < |t|
    ensures t[i].Abort? && (t[j].Chunk? || t[j].Abort?) ==> Reopened(t, i, j)
    ensures (t[i].Abort? || t[i].GapSeen? || t[i] == Parsed(false)) && t[j].Ready? && t[j].intact ==> Reopened(t, i, j)
  {
    hide Watching;
    assert t[..|t|] == t;
    OkBefore(c, t, j + 1, |t|);
    SeenAt(c, t, j);
    if !Reopened(t, i, j) { Remembered(c, t, i, j); }
  }

  /** In every run: after an abort neither a chunk nor another abort comes before the next frame opens. */
  lemma {:induction false} NothingAfterAbort(c: Config, ps: seq<Packet>, i: nat, j: nat)
    requires var t := Run(c, ps).rec.trace; i < j < |t| && t[i].Abort? && (t[j].Chunk? || t[j].Abort?)
    ensures Reopened(Run(c, ps).rec.trace, i, j)
  {
    hide Run, Watching, Reopened;
    DeliveryContract(c, ps);
    ContentTrace(c, Run(c, ps).rec.trace, i, j);
  }

  /** In every run: a frame is reported intact only if no abort, flagged loss or failed parse came since it opened. */
  lemma {:induction false} IntactIsClean(c: Config, ps: seq<Packet>, i: nat, j: nat)
    requires var t := Run(c, ps).rec.trace;
             && i < j < |t| && t[j].Ready? && t[j].intact
             && (t[i].Abort? || t[i].GapSeen? || t[i] == Parsed(false))
    ensures Reopened(Run(c, ps).rec.trace, i, j)
  {
    hide Run, Watching, Reopened;
    DeliveryContract(c, ps);
    ContentTrace(c, Run(c, ps).rec.trace, i, j);
  }

  // ------------------------------------------------------------------ re-latching

  /**
   Re-latch soundness in every run: when a packet with a complete main header leaves the
   frame tracked, the latched signature is that header's, and the structure in use was
   built from a header with this signature or from one that had none.
   */
  lemma {:induction false} TrackedMeansLatched(c: Config, ps: seq<Packet>, p: Packet)
    requires p.mh >= 2 && !p.marker
    ensures var s := Pull(c, Run(c, ps), p);
            s.flags.passed ==> LatchedAs(s.stream, GS.Signature(p.body).0)
  {
    hide Good, OnGap, OnCap, OnMain, OnSkip, OnBody, OnEoc, Seen, GS.Signature, Run, LatchedAs;
    RunGood(c, ps);
    var s := Run(c, ps);
    GapGood(c, s, p);
    CapGood(c, OnGap(c, s, p));
    MainGood(c, OnCap(OnGap(c, s, p)), p);
  }

  // ------------------------------------------------------------ slab conservation

  function SlabsOf(ps: seq<Packet>): multiset<nat> {
    if ps == [] then multiset{} else SlabsOf(ps[..|ps| - 1]) + multiset{ps[|ps| - 1].slab}
  }

  function Kept(s: Fh): multiset<nat> {
    multiset(s.rec.released) + multiset(s.flow.held)
  }

  predicate SameSlabs(s: Fh, t: Fh) {
    s.rec.released == t.rec.released && s.flow.held == t.flow.held
  }

  lemma SameKept(s: Fh, t: Fh)
    requires SameSlabs(s, t)
    ensures Kept(s) == Kept(t)
  {}

  lemma DrainKeeps(s: Fh)
    ensures Kept(Drain(s)) == Kept(s)
  {
    assert multiset(s.rec.released + s.flow.held) == multiset(s.rec.released) + multiset(s.flow.held);
  }

  lemma GapKeeps(c: Config, s: Fh, p: Packet)
    ensures SameSlabs(OnGap(c, s, p), s)
  {}

  lemma CapKeeps(s: Fh)
    ensures Kept(OnCap(s)) == Kept(s)
  {
    hide Kept;
    var s1 := FireAbort(s, SlabCap);
    SameKept(s1, s);
    DrainKeeps(s1);
    SameKept(OnCap(s), if |s.flow.held| < SLAB_CAP then s else Drain(s1));
  }

  lemma CloseKeeps(s: Fh)
    ensures Kept(CloseStale(s)) == Kept(s)
  {
    hide Kept;
    var s1 := FireAbort(s, MissedEoc);
    SameKept(s1, s);
    DrainKeeps(s1);
    SameKept(CloseStale(s), if s.flow.held == [] then s else Drain(s1));
  }

  lemma OpenKeeps(s: Fh, p: Packet)
    ensures Kept(OpenFrame(s, p)) == Kept(s) + multiset{p.slab}
  {
    hide CloseStale;
    CloseKeeps(s);
    assert OpenFrame(s, p).flow.held == CloseStale(s).flow.held + [p.slab];
  }

  lemma HeaderKeeps(c: Config, s: Fh, p: Packet)
    ensures SameSlabs(OnHeader(c, s, p).0, s)
  {
    hide GS.Signature, StaleReason;
  }

  lemma MainKeeps(c: Config, s: Fh, p: Packet)
    ensures Kept(OnMain(c, s, p).0) == Kept(s) + multiset{p.slab}
  {
    hide OpenFrame, OnHeader, Kept, SameSlabs;
    OpenKeeps(s, p);
    HeaderKeeps(c, OpenFrame(s, p), p);
    SameKept(OnMain(c, s, p).0, OpenFrame(s, p));
  }

  lemma SkipKeeps(s: Fh, p: Packet)
    ensures Kept(OnSkip(s, p)) == Kept(s) + multiset{p.slab}
  {
    var s1 := s.(rec := s.rec.(released := s.rec.released + [p.slab]));
    assert Kept(s1) == Kept(s) + multiset{p.slab};
    hide Kept;
    var s2 := Untrack(EndUntracked(s1));
    SameKept(s2, s1);
    DrainKeeps(s2);
  }

  lemma BodyKeeps(c: Config, s: Fh, p: Packet)
    ensures Kept(OnBody(c, s, p)) == Kept(s) + multiset{p.slab}
  {
    var s1 := Deliver(s, p);
    assert s1.flow.held == s.flow.held + [p.slab];
    assert Kept(s1) == Kept(s) + multiset{p.slab};
    hide Kept;
    SameKept(OnBody(c, s, p), s1);
  }

  lemma EocKeeps(s: Fh, p: Packet)
    ensures Kept(OnEoc(s, p)) == Kept(s)
  {
    hide Kept;
    var s1 := FlushTile(s, p);
    var s2 := EndFrame(s1, Intact(s.flags) && !s1.flags.failed);
    var s3 := Untrack(Count(Emit(s2, Ready(Intact(s.flags), Flatten(s1.flow.chain))), 1, ToNat(s2.flags.failed)));
    SameKept(s3, s);
    DrainKeeps(s3);
  }

  lemma PullKeeps(c: Config, s: Fh, p: Packet)
    ensures Kept(Pull(c, s, p)) == Kept(s) + multiset{p.slab}
  {
    hide OnGap, OnCap, OnMain, OnBody, OnSkip, OnEoc, Kept, SameSlabs;
    GapKeeps(c, s, p);
    SameKept(OnGap(c, s, p), s);
    CapKeeps(OnGap(c, s, p));
    var s1 := OnCap(OnGap(c, s, p));
    if Skips(s1, p) {
      SkipKeeps(s1, p);
    } else {
      if p.mh >= 1 { MainKeeps(c, s1, p); } else { BodyKeeps(c, s1, p); }
      var (s2, done) := if p.mh >= 1 then OnMain(c, s1, p) else (OnBody(c, s1, p), false);
      EocKeeps(s2, p);
    }
  }

  /** Conservation in every run: each slab ever pulled was given back once or is held once. */
  lemma {:induction false} SlabsConserved(c: Config, ps: seq<Packet>)
    ensures var s := Run(c, ps);
            multiset(s.rec.released) + multiset(s.flow.held) == SlabsOf(ps)
  {
    hide Pull;
    if ps != [] {
      SlabsConserved(c, ps[..|ps| - 1]);
      PullKeeps(c, Run(c, ps[..|ps| - 1]), ps[|ps| - 1]);
    }
  }
}
