/**
 How frames are judged and counted, in every run: which verdict a frame gets, when a frame counts
 as truncated, and what the counters of frames and re-latches are counts of.
 */
module FrameVerdicts {
  import opened Bytes
  import opened ChainReader
  import opened FrameHandler
  import FR = FrameRuns
  import FE = FrameEnds

  /**
   What is read off a trace.  Of the frame last opened: whether a parse of it or of its header
   failed, what its flush said, whether it was aborted, whether it counts, its header having been
   taken or it having been aborted for a loss or a refusal, whether it was judged.  Of all: verdicts
   given, verdicts on frames that were aborted or whose flush failed, re-latches.  `ok` turns false
   at the first verdict that is not the frame's, at a second verdict, at a report without one, at
   an abort after the flush, and when a frame opens while one that counts has no verdict.
   */
  datatype Books = Books(ok: bool, refused: bool, flush: Option<bool>, aborted: bool, counts: bool, judged: bool,
                         verdicts: nat, truncated: nat, relatches: nat)

  function Fair(b: Books, v: Verdict): bool {
    && !b.judged
    && (v.Clean? <==> b.flush == Some(true))
    && (v.Failed? <==> b.refused || b.flush == Some(false))
  }

  function Enter(b: Books, e: Event): Books {
    match e
    case Begin =>
      b.(ok := b.ok && (b.counts ==> b.judged), refused := false, flush := None, aborted := false, counts := false,
         judged := false)
    case Tracked => b.(counts := true)
    case Parsed(ok) => b.(refused := b.refused || !ok)
    case Flushed(ok) => b.(flush := Some(ok))
    case Abort(r) => b.(ok := b.ok && b.flush.None?, refused := b.refused || r.ParseFailure?, aborted := true,
                     counts := b.counts || r.Gap? || r.ParseFailure?)
    case Judged(v) =>
      b.(ok := b.ok && Fair(b, v), judged := true, verdicts := b.verdicts + 1,
         truncated := b.truncated + ToNat(b.aborted || b.flush == Some(false)))
    case Ready(_, _) => b.(ok := b.ok && b.judged)
    case Relatch(_) => b.(relatches := b.relatches + 1)
    case _ => b
  }

  function Entered(t: seq<Event>): Books {
    if t == [] then Books(true, false, None, false, false, false, 0, 0, 0) else Enter(Entered(t[..|t| - 1]), t[|t| - 1])
  }

  lemma EnteredLog(r: Record, e: Event)
    ensures Entered(Log(r, e).trace) == Enter(Entered(r.trace), e)
  {
    assert (r.trace + [e])[..|r.trace|] == r.trace;
  }

  /** The handler's notes and counters agree with the books; `caps` is how often the slab cap was hit. */
  predicate Balanced(s: Fh, caps: nat) {
    var b := Entered(s.rec.trace);
    && b.ok && b.verdicts == s.rec.totalFrames + caps && b.truncated == s.rec.truncFrames
    && b.relatches == s.stream.relatches
    && (s.flow.held != [] ==>
          && (s.flags.parseFailed <==> b.refused) && (b.refused ==> b.aborted) && (s.flags.failed <==> b.aborted)
          && b.flush.None? && !b.judged && (b.counts <==> s.flags.passed || s.flags.failed))
    && (s.flow.held == [] ==> (b.counts ==> b.judged))
  }

  lemma AbortEntered(s: Fh, r: Reason)
    ensures Entered(FireAbort(s, r).rec.trace)
         == if s.flags.abortArmed then Enter(Entered(s.rec.trace), Abort(r)) else Entered(s.rec.trace)
  {
    hide Entered;
    EnteredLog(s.rec, Abort(r));
  }

  lemma EndEntered(s: Fh, clean: bool)
    ensures Entered(EndFrame(s, clean).rec.trace) == Enter(Entered(s.rec.trace), Judged(Judge(s, clean)))
  {
    hide Entered;
    EnteredLog(s.rec, Judged(Judge(s, clean)));
  }

  /** A frame that ends without a flush: failed exactly if a parse of it was refused. */
  lemma JudgedFairly(s: Fh, b: Books)
    requires !b.judged && b.flush.None? && (s.flags.parseFailed <==> b.refused)
    ensures Fair(b, Judge(s, false))
  {}

  lemma GapBalanced(c: Config, s: Fh, p: Packet, caps: nat)
    requires FR.Good(c, s) && Balanced(s, caps)
    ensures Balanced(OnGap(c, s, p), caps)
  {
    hide Entered, FR.Watching, FR.Chained, FR.SignatureOk;
    EnteredLog(s.rec, GapSeen);
    var r := Log(s.rec, GapSeen);
    EnteredLog(r, GapTaken(s.flow.total));
    EnteredLog(r, Abort(Gap));
  }

  /** Every end of a frame but the report: an abort if there was none, the verdict, the count. */
  lemma CutBalanced(c: Config, s: Fh, r: Reason, frames: nat, caps: nat)
    requires FR.Good(c, s) && Balanced(s, caps) && s.flow.held != [] && !r.ParseFailure? && frames <= 1
    ensures var t := EndFrame(Count(Drain(FireAbort(s, r)), frames, 1), false);
            Balanced(t, caps + 1 - frames)
  {
    hide Entered, FR.Watching, FR.Chained, FR.SignatureOk, EndFrame;
    AbortEntered(s, r);
    var s1 := Count(Drain(FireAbort(s, r)), frames, 1);
    EndEntered(s1, false);
    FR.EndFlags(s1, false);
    JudgedFairly(s1, Entered(s1.rec.trace));
  }

  lemma CapBalanced(c: Config, s: Fh, caps: nat)
    requires FR.Good(c, s) && Balanced(s, caps)
    ensures Balanced(OnCap(s), caps + ToNat(|s.flow.held| >= SLAB_CAP))
  {
    hide Entered, FR.Good, EndFrame;
    if |s.flow.held| >= SLAB_CAP {
      CutBalanced(c, s, SlabCap, 0, caps);
      FR.EndFlags(Count(Drain(FireAbort(s, SlabCap)), 0, 1), false);
    }
  }

  lemma SkipBalanced(c: Config, s: Fh, p: Packet, caps: nat)
    requires FR.Good(c, s) && Balanced(s, caps) && Skips(s, p)
    ensures Balanced(OnSkip(s, p), caps)
  {
    hide Entered, FR.Watching, FR.Chained, FR.SignatureOk, EndFrame;
    var s1 := s.(rec := s.rec.(released := s.rec.released + [p.slab]));
    if p.marker && (s1.flags.failed || s1.flags.passed) {
      AbortEntered(s1, DamagedEoc);
      var s2 := Count(FireAbort(s1, DamagedEoc), 1, 1);
      EndEntered(s2, false);
      FR.EndFlags(s2, false);
      JudgedFairly(s2, Entered(s2.rec.trace));
    }
  }

  lemma CloseBalanced(c: Config, s: Fh, caps: nat)
    requires FR.Good(c, s) && Balanced(s, caps)
    ensures Balanced(CloseStale(s), caps)
  {
    hide Entered, FR.Watching, FR.Chained, FR.SignatureOk, EndFrame;
    if s.flow.held != [] {
      if s.flags.passed || s.flags.failed {
        CutBalanced(c, s, MissedEoc, 1, caps);
        FR.EndFlags(Count(Drain(FireAbort(s, MissedEoc)), 1, 1), false);
      } else {
        AbortEntered(s, MissedEoc);
      }
    }
  }

  lemma OpenBalanced(c: Config, s: Fh, p: Packet, caps: nat)
    requires FR.Good(c, s) && Balanced(s, caps)
    ensures var t := OpenFrame(s, p);
            Balanced(t, caps) && t.flow.held != [] && t.flags.abortArmed && !t.flags.failed
  {
    hide Entered, FR.Good, CloseStale;
    CloseBalanced(c, s, caps);
    FR.CloseGood(c, s);
    var a := CloseStale(s);
    EnteredLog(a.rec, Begin);
    EnteredLog(Log(a.rec, Begin), Chunk(a.flow.total, p.body));
  }

  lemma LatchBalanced(s: Fh, p: Packet, sig: nat, why: Option<Why>, caps: nat)
    requires Balanced(s, caps) && s.flow.held != [] && s.flags.abortArmed
    ensures Balanced(Latch(s, p, sig, why).0, caps)
  {
    hide Entered;
    var s1 := Seek(s, p.headerEnd);
    AbortEntered(s1, ParseFailure);
    EnteredLog(s1.rec, Tracked);
    EnteredLog(Log(s1.rec, Tracked), Latched(sig));
    if why.Some? { EnteredLog(Log(Log(s1.rec, Tracked), Latched(sig)), Relatch(why.value)); }
  }

  lemma HeaderBalanced(c: Config, s: Fh, p: Packet, caps: nat)
    requires Balanced(s, caps) && s.flow.held != [] && s.flags.abortArmed
    ensures Balanced(OnHeader(c, s, p).0, caps)
  {
    hide Entered, Latch, GS.Signature, StaleReason;
    var (sig, sod) := GS.Signature(p.body);
    LatchBalanced(s, p, sig, None, caps);
    AbortEntered(s, ParseFailure);
    EnteredLog(s.rec, Tracked);
    var s1 := s.(stream := s.stream.(geomSig := if s.stream.geomSig == 0 then sig else s.stream.geomSig));
    var stale := StaleReason(c, s1.stream, sig);
    if stale.Some? {
      EnteredLog(s1.rec, Dropped(stale.value, sig, s1.stream.geomSig));
      LatchBalanced(Invalidate(s1, stale.value, sig), p, sig, stale, caps);
    }
  }

  lemma SignalBalanced(c: Config, s: Fh, p: Packet, at: nat, caps: nat)
    requires Balanced(s, caps)
    ensures var t := Signal(c, s, p, at);
            Balanced(t, caps) && t.flow.held == s.flow.held && t.flags == s.flags.(resyncArmed := t.flags.resyncArmed)
  {
    hide Entered;
    EnteredLog(s.rec, Offered(at, p.pid, p.pointAccepted));
  }

  lemma ParseBalanced(s: Fh, p: Packet, caps: nat)
    requires Balanced(s, caps) && s.flow.held != [] && s.flags.abortArmed
    ensures Balanced(ParseTile(s, p), caps)
  {
    hide Entered;
    EnteredLog(s.rec, Parsed(p.parseOk));
    EnteredLog(Log(s.rec, Parsed(p.parseOk)), Abort(ParseFailure));
  }

  lemma BodyBalanced(c: Config, s: Fh, p: Packet, caps: nat)
    requires Balanced(s, caps) && s.flow.held != []
    ensures Balanced(OnBody(c, s, p), caps)
  {
    hide Entered, ParseTile, Signal;
    EnteredLog(s.rec, Chunk(s.flow.total, p.body));
    var s1 := Deliver(s, p);
    SignalBalanced(c, s1, p, s.flow.total + p.pos, caps);
    ParseBalanced(Signal(c, s1, p, s.flow.total + p.pos), p, caps);
  }

  lemma EocBalanced(c: Config, s: Fh, p: Packet, caps: nat)
    requires FR.Good(c, s) && Balanced(s, caps) && s.flow.held != []
    ensures Balanced(OnEoc(s, p), caps)
  {
    hide Entered, EndFrame;
    FlushBalanced(s, p, caps);
    var s1 := FlushTile(s, p);
    var clean := Intact(s.flags) && !s1.flags.failed;
    hide FlushTile;
    EndEntered(s1, clean);
    FR.EndFlags(s1, clean);
    EnteredLog(EndFrame(s1, clean).rec, Ready(Intact(s.flags), Flatten(s1.flow.chain)));
  }

  /** After the flush: what the verdict rests on, and that the frame counts as truncated exactly if it should. */
  lemma FlushBalanced(s: Fh, p: Packet, caps: nat)
    requires Balanced(s, caps) && s.flow.held != []
    ensures var t := FlushTile(s, p);
            var b, clean := Entered(t.rec.trace), Intact(s.flags) && !t.flags.failed;
            && b == Entered(s.rec.trace).(flush := b.flush) && Fair(b, Judge(t, clean))
            && (t.flags.failed <==> b.aborted || b.flush == Some(false))
            && t.flow == s.flow && t.stream == s.stream && t.rec == s.rec.(trace := t.rec.trace)
  {
    hide Entered;
    EnteredLog(s.rec, Flushed(p.flushOk));
  }

  // -------------------------------------------------------------------- all runs

  lemma HandleBalanced(c: Config, s: Fh, p: Packet, caps: nat)
    requires FR.Good(c, s) && Balanced(s, caps) && |s.flow.held| < SLAB_CAP
    ensures Balanced(Handle(c, s, p), caps)
  {
    hide FR.Good, Balanced, OnSkip, OnMain, OnBody, OnEoc;
    if Skips(s, p) {
      SkipBalanced(c, s, p, caps);
    } else if p.mh >= 1 {
      FR.MainGood(c, s, p);
      MainBalanced(c, s, p, caps);
      EocBalanced(c, OnMain(c, s, p).0, p, caps);
    } else {
      HoldsSlabs(c, s, p);
      FR.BodyGood(c, s, p);
      BodyBalanced(c, s, p, caps);
      EocBalanced(c, OnBody(c, s, p), p, caps);
    }
  }

  lemma HoldsSlabs(c: Config, s: Fh, p: Packet)
    requires FR.Good(c, s) && p.mh == 0 && !Skips(s, p)
    ensures s.flow.held != []
  {}

  lemma MainBalanced(c: Config, s: Fh, p: Packet, caps: nat)
    requires FR.Good(c, s) && Balanced(s, caps)
    ensures Balanced(OnMain(c, s, p).0, caps)
  {
    hide FR.Good, Balanced, OpenFrame, OnHeader;
    OpenBalanced(c, s, p, caps);
    HeaderBalanced(c, OpenFrame(s, p), p, caps);
  }

  /** How many packets of the stream found the slab cap reached. */
  function CapHits(c: Config, ps: seq<Packet>): nat {
    if ps == [] then 0
    else CapHits(c, ps[..|ps| - 1]) + ToNat(|Run(c, ps[..|ps| - 1]).flow.held| >= SLAB_CAP)
  }

  lemma {:induction false} RunBalanced(c: Config, ps: seq<Packet>)
    ensures Balanced(Run(c, ps), CapHits(c, ps))
  {
    hide Balanced, FR.Good, OnGap, OnCap, Handle;
    if ps == [] {
      assert Balanced(Init(), 0) by { InitBalanced(); }
    } else {
      var before, p := ps[..|ps| - 1], ps[|ps| - 1];
      var s := Run(c, before);
      RunBalanced(c, before);
      FR.RunGood(c, before);
      FR.GapGood(c, s, p);
      GapBalanced(c, s, p, CapHits(c, before));
      GapHolds(c, s, p);
      var g := OnGap(c, s, p);
      FR.CapGood(c, g);
      CapBalanced(c, g, CapHits(c, before));
      HandleBalanced(c, OnCap(g), p, CapHits(c, ps));
    }
  }

  lemma InitBalanced()
    ensures Balanced(Init(), 0)
  {}

  lemma GapHolds(c: Config, s: Fh, p: Packet)
    ensures OnGap(c, s, p).flow == s.flow
  {}

  /**
   In every run: the frames counted are the verdicts given, except those given at the slab cap;
   the frames counted as truncated are the verdicts on frames that were aborted or whose flush
   failed; the re-latches counted are those reported.  No frame is judged twice, none is reported
   before it is judged, and every frame that counts is judged by the time its slabs are given back.
   */
  lemma {:induction false} CountersCount(c: Config, ps: seq<Packet>)
    ensures var s := Run(c, ps);
            var b := Entered(s.rec.trace);
            && b.ok && s.rec.totalFrames + CapHits(c, ps) == b.verdicts && s.rec.truncFrames == b.truncated
            && s.stream.relatches == b.relatches && (s.flow.held == [] && b.counts ==> b.judged)
  {
    hide Run, Entered, CapHits;
    RunBalanced(c, ps);
  }

  // ------------------------------------------------ the verdict, read off the trace

  /** Between positions `i` and `j` of the trace a parse of the frame or of its header fails. */
  predicate HadRefusal(t: seq<Event>, i: nat, j: nat) {
    exists k :: i < k < j <= |t| && (t[k] == Parsed(false) || t[k] == Abort(ParseFailure))
  }

  lemma EnteredAt(t: seq<Event>, j: nat)
    requires j < |t|
    ensures Entered(t[..j + 1]) == Enter(Entered(t[..j]), t[j])
  {
    assert t[..j + 1][..j] == t[..j];
  }

  lemma {:induction false} FairBefore(t: seq<Event>, n: nat, m: nat)
    requires n <= m <= |t| && Entered(t[..m]).ok
    ensures Entered(t[..n]).ok
    decreases m
  {
    hide Entered;
    if n < m {
      EnteredAt(t, m - 1);
      FairBefore(t, n, m - 1);
    }
  }

  /** What an event adds to the books of a frame. */
  lemma EnterKeeps(b: Books, e: Event)
    requires !e.Begin?
    ensures var d := Enter(b, e);
            && (d.refused <==> b.refused || e == Parsed(false) || e == Abort(ParseFailure))
            && d.flush == (if e.Flushed? then Some(e.ok) else b.flush)
  {}

  lemma {:induction false} BooksAreTrace(c: Config, t: seq<Event>, i: nat, j: nat)
    requires i < j <= |t| && t[i].Begin? && forall k :: i < k < j ==> !t[k].Begin?
    requires FR.Watching(c, t[..j]).ok
    ensures var b := Entered(t[..j]);
            && (b.refused <==> HadRefusal(t, i, j))
            && b.flush == FR.Watching(c, t[..j]).seen.flush
    decreases j
  {
    hide Entered, FR.Watching, FR.Observe;
    EnteredAt(t, j - 1);
    FR.SeenAt(c, t, j - 1);
    if i < j - 1 {
      FR.OkBefore(c, t, j - 1, j);
      FR.ObserveKeeps(c, FR.Watching(c, t[..j - 1]), t[j - 1]);
      EnterKeeps(Entered(t[..j - 1]), t[j - 1]);
      BooksAreTrace(c, t, i, j - 1);
    } else {
      FE.BeginTells(c, FR.Watching(c, t[..i]));
    }
  }

  /**
   In every run, over the trace alone: between a frame's opening and its verdict, the verdict is
   clean exactly when a flush succeeded, failed exactly when a parse of the frame, of its header or
   in the flush failed, and neutral otherwise.
   */
  lemma {:induction false} VerdictIff(c: Config, ps: seq<Packet>, i: nat, j: nat)
    requires var t := Run(c, ps).rec.trace;
             i < j < |t| && t[i].Begin? && t[j].Judged? && forall k :: i < k < j ==> !t[k].Begin?
    ensures var t := Run(c, ps).rec.trace;
            && (t[j].verdict == Clean <==> FE.HadFlush(t, i, j, true))
            && (t[j].verdict == Failed <==> HadRefusal(t, i, j) || FE.HadFlush(t, i, j, false))
            && (t[j].verdict == Neutral <==>
                  !HadRefusal(t, i, j) && !FE.HadFlush(t, i, j, true) && !FE.HadFlush(t, i, j, false))
  {
    hide Run, Entered, FR.Watching, HadRefusal, FE.HadHeader, FE.HadGap, FE.HadBadParse, FE.HadFlush, CapHits;
    var t := Run(c, ps).rec.trace;
    assert t[..|t|] == t;
    CountersCount(c, ps);
    FR.DeliveryContract(c, ps);
    FairBefore(t, j + 1, |t|);
    EnteredAt(t, j);
    FR.OkBefore(c, t, j, |t|);
    FE.StoryIsTrace(c, t, i, j);
    BooksAreTrace(c, t, i, j);
  }

  /** A frame killed by a loss, with no failed parse before it, leaves the streak as it is. */
  lemma {:induction false} LossLeavesStreak(c: Config, ps: seq<Packet>, i: nat, k: nat, j: nat)
    requires var t := Run(c, ps).rec.trace;
             && i < k < j < |t| && t[i].Begin? && t[k] == Abort(Gap) && t[j].Judged?
             && (forall m :: i < m < j ==> !t[m].Begin?) && !HadRefusal(t, i, k)
    ensures var t := Run(c, ps).rec.trace;
            t[j].verdict == Neutral && FR.Watching(c, t[..j + 1]).streak == FR.Watching(c, t[..j]).streak
  {
    hide Run, FR.Watching;
    var t := Run(c, ps).rec.trace;
    VerdictIff(c, ps, i, j);
    FR.SeenAt(c, t, j);
    FR.DeliveryContract(c, ps);
    assert t[..|t|] == t;
    forall m | k < m < j ensures !t[m].Parsed? && !t[m].Flushed? && !t[m].Abort? {
      FR.OkBefore(c, t, m + 1, |t|);
      FR.SeenAt(c, t, m);
      FR.Remembered(c, t, k, m);
    }
    NoFlushBefore(c, ps, i, k);
  }

  /** No abort comes after the flush of a frame. */
  lemma {:induction false} NoFlushBefore(c: Config, ps: seq<Packet>, i: nat, k: nat)
    requires var t := Run(c, ps).rec.trace;
             i < k < |t| && t[i].Begin? && t[k].Abort? && forall m :: i < m < k ==> !t[m].Begin?
    ensures var t := Run(c, ps).rec.trace;
            forall m :: i < m < k ==> !t[m].Flushed?
  {
    hide Run, Entered, FR.Watching, FE.HadHeader, FE.HadGap, FE.HadBadParse, CapHits;
    var t := Run(c, ps).rec.trace;
    assert t[..|t|] == t;
    CountersCount(c, ps);
    FR.DeliveryContract(c, ps);
    FairBefore(t, k + 1, |t|);
    EnteredAt(t, k);
    FR.OkBefore(c, t, k, |t|);
    BooksAreTrace(c, t, i, k);
    FE.StoryIsTrace(c, t, i, k);
    assert !FE.HadFlush(t, i, k, true) && !FE.HadFlush(t, i, k, false);
  }
}
