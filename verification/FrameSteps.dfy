/** What one packet does to the history and to the chain, whatever the state. */
module FrameSteps {
  import opened FrameHandler
  import GS = GeometrySignature

  /** Nothing that was reported or given back is taken back. */
  predicate Grown(s: Record, t: Record) {
    s.trace <= t.trace && s.released <= t.released
  }

  lemma GrownOn(a: Record, b: Record, c: Record)
    requires Grown(a, b) && Grown(b, c)
    ensures Grown(a, c)
  {}

  /** The chain is as before, or has been let go. */
  predicate Left(s: Flow, t: Flow) {
    (t.held, t.chain) == (s.held, s.chain) || (t.held, t.chain) == ([], [])
  }

  /** The packet's chunk has been put on the chain as it was, or on an empty one. */
  predicate Taken(s: Flow, t: Flow, p: Packet) {
    (t.held, t.chain) == (s.held + [p.slab], s.chain + [p.body]) || (t.held, t.chain) == ([p.slab], [p.body])
  }

  lemma GapStep(c: Config, s: Fh, p: Packet)
    ensures Grown(s.rec, OnGap(c, s, p).rec) && OnGap(c, s, p).flow == s.flow
  {}

  lemma CapStep(s: Fh)
    ensures Grown(s.rec, OnCap(s).rec) && Left(s.flow, OnCap(s).flow)
  {}

  lemma SkipStep(s: Fh, p: Packet)
    ensures Grown(s.rec, OnSkip(s, p).rec) && Left(s.flow, OnSkip(s, p).flow)
  {}

  lemma CloseStep(s: Fh)
    requires |s.flow.held| == |s.flow.chain|
    ensures var t := CloseStale(s);
            Grown(s.rec, t.rec) && t.flow.held == [] && t.flow.chain == []
  {}

  lemma OpenStep(s: Fh, p: Packet)
    requires |s.flow.held| == |s.flow.chain|
    ensures var t := OpenFrame(s, p);
            Grown(s.rec, t.rec) && t.flow.held == [p.slab] && t.flow.chain == [p.body]
  {
    hide CloseStale;
    CloseStep(s);
  }

  lemma HeaderStep(c: Config, s: Fh, p: Packet)
    ensures var t := OnHeader(c, s, p).0;
            Grown(s.rec, t.rec) && t.flow == s.flow.(cursor := t.flow.cursor)
  {
    hide GS.Signature, StaleReason;
  }

  lemma BodyStep(c: Config, s: Fh, p: Packet)
    ensures var t := OnBody(c, s, p);
            Grown(s.rec, t.rec) && t.flow.held == s.flow.held + [p.slab] && t.flow.chain == s.flow.chain + [p.body]
  {}

  lemma EocStep(s: Fh, p: Packet)
    ensures var t := OnEoc(s, p);
            Grown(s.rec, t.rec) && t.flow.held == [] && t.flow.chain == []
  {}

  /**
   One packet: history only grows, and afterwards the chain is what it was, or what it was
   with the packet's chunk behind it, or that chunk alone, or empty.
   */
  lemma {:induction false} PullStep(c: Config, s: Fh, p: Packet)
    requires |s.flow.held| == |s.flow.chain|
    ensures var t := Pull(c, s, p);
            && Grown(s.rec, t.rec) && Grown(OnGap(c, s, p).rec, t.rec) && |t.flow.held| == |t.flow.chain|
            && (Left(s.flow, t.flow) || Taken(s.flow, t.flow, p))
  {
    hide OnGap, OnCap, OnMain, OnBody, OnSkip, OnEoc, Grown;
    GapStep(c, s, p);
    var g := OnGap(c, s, p);
    CapStep(g);
    var h := OnCap(g);
    GrownOn(s.rec, g.rec, h.rec);
    if Skips(h, p) {
      SkipStep(h, p);
      GrownOn(s.rec, h.rec, OnSkip(h, p).rec);
      GrownOn(g.rec, h.rec, OnSkip(h, p).rec);
    } else {
      var (t, done) := if p.mh >= 1 then OnMain(c, h, p) else (OnBody(c, h, p), false);
      if p.mh >= 1 { MainStep(c, h, p); } else { BodyStep(c, h, p); }
      assert [] + [p.slab] == [p.slab] && [] + [p.body] == [p.body];
      assert Taken(s.flow, t.flow, p);
      GrownOn(s.rec, h.rec, t.rec);
      EocStep(t, p);
      GrownOn(s.rec, t.rec, OnEoc(t, p).rec);
      GrownOn(g.rec, h.rec, t.rec);
      GrownOn(g.rec, t.rec, OnEoc(t, p).rec);
    }
  }

  lemma MainStep(c: Config, s: Fh, p: Packet)
    requires |s.flow.held| == |s.flow.chain|
    ensures var t := OnMain(c, s, p).0;
            Grown(s.rec, t.rec) && t.flow.held == [p.slab] && t.flow.chain == [p.body]
  {
    hide OpenFrame, OnHeader;
    OpenStep(s, p);
    HeaderStep(c, OpenFrame(s, p), p);
  }

  /** What a packet makes the handler give back: nothing, or the held slabs in order, before or after its own. */
  predicate GivenBack(s: Fh, t: Fh, p: Packet) {
    var held := s.flow.held;
    || t.rec.released == s.rec.released
    || t.rec.released == s.rec.released + held
    || t.rec.released == s.rec.released + [p.slab]
    || t.rec.released == s.rec.released + [p.slab] + held
    || t.rec.released == s.rec.released + held + [p.slab]
  }

  lemma GapReleases(c: Config, s: Fh, p: Packet)
    ensures OnGap(c, s, p).rec.released == s.rec.released && OnGap(c, s, p).flow == s.flow
  {}

  lemma CapReleases(s: Fh)
    ensures var t := OnCap(s);
            if |s.flow.held| < SLAB_CAP then t == s
            else t.rec.released == s.rec.released + s.flow.held && t.flow.held == []
  {}

  lemma SkipReleases(s: Fh, p: Packet)
    ensures OnSkip(s, p).rec.released
         == s.rec.released + [p.slab] + (if p.marker then s.flow.held else [])
  {}

  lemma MainReleases(c: Config, s: Fh, p: Packet)
    ensures var t := OnMain(c, s, p).0;
            t.rec.released == s.rec.released + s.flow.held && t.flow.held == [p.slab]
  {
    hide GS.Signature, StaleReason;
    assert s.flow.held == [] ==> s.rec.released + s.flow.held == s.rec.released;
    assert [] + [p.slab] == [p.slab];
  }

  lemma BodyReleases(c: Config, s: Fh, p: Packet)
    ensures var t := OnBody(c, s, p);
            t.rec.released == s.rec.released && t.flow.held == s.flow.held + [p.slab]
  {}

  lemma EocReleases(s: Fh, p: Packet)
    ensures OnEoc(s, p).rec.released == s.rec.released + s.flow.held && OnEoc(s, p).flow.held == []
  {}

  /** One packet gives slabs back in the order they were taken, all that are held or none. */
  lemma {:induction false} GivenBackInOrder(c: Config, s: Fh, p: Packet)
    ensures GivenBack(s, Pull(c, s, p), p)
  {
    hide OnMain, OnBody, OnEoc, OnGap, OnSkip, OnCap;
    var g := OnGap(c, s, p);
    GapReleases(c, s, p);
    CapReleases(g);
    var h := OnCap(g);
    if Skips(h, p) {
      SkipReleases(h, p);
    } else {
      var t := if p.mh >= 1 then OnMain(c, h, p).0 else OnBody(c, h, p);
      if p.mh >= 1 { MainReleases(c, h, p); } else { BodyReleases(c, h, p); }
      EocReleases(t, p);
      assert s.rec.released + s.flow.held + [] + [p.slab] == s.rec.released + s.flow.held + [p.slab];
      assert s.rec.released + (s.flow.held + [p.slab]) == s.rec.released + s.flow.held + [p.slab];
      assert s.rec.released + s.flow.held + ([] + [p.slab]) == s.rec.released + s.flow.held + [p.slab];
    }
    assert s.rec.released + s.flow.held + [p.slab] + [] == s.rec.released + s.flow.held + [p.slab];
    assert s.rec.released + [p.slab] + [] == s.rec.released + [p.slab];
  }
}
