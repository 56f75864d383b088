/**
 The frame handler as it is written: fields updated in place, one call per packet.
 The fields are grouped as in `FrameHandler`; the history parts of those groups
 (`trace`, `released`, `builtSig`) are kept up to date beside the real ones.
 */
module FramePuller {
  import opened Bytes
  import opened ChainReader
  import F = FrameHandler
  import FR = FrameRuns
  import FS = FrameSteps
  import GS = GeometrySignature

  class Handler {
    const config: F.Config
    var flow: F.Flow
    var flags: F.Flags
    var stream: F.Stream
    var rec: F.Record

    ghost function State(): F.Fh
      reads this
    {
      F.Fh(flow, flags, stream, rec)
    }

    /** The delivery contract has been kept so far, and the fields agree with what was reported. */
    ghost predicate Valid()
      reads this
    {
      FR.Good(config, State())
    }

    constructor (c: F.Config)
      ensures config == c && Valid() && State() == F.Init()
    {
      config := c;
      var init := F.Init();
      flow, flags, stream, rec := init.flow, init.flags, init.stream, init.rec;
      FR.InitGood(c);
    }

    method Note(e: F.Event)
      modifies this`rec
      ensures rec == F.Log(old(rec), e)
    {
      rec := rec.(trace := rec.trace + [e]);
    }

    /** Hand a chunk to the consumer, append it to the chain, hold its slab. */
    method Deliver(p: F.Packet)
      modifies this`flow, this`flags, this`rec
      ensures State() == F.Deliver(old(State()), p)
    {
      flags := flags.(abortArmed := true);
      Note(F.Chunk(flow.total, p.body));
      flow := flow.(chain := flow.chain + [p.body], held := flow.held + [p.slab], total := flow.total + |p.body|);
    }

    method FireAbort(r: F.Reason)
      modifies this`flags, this`rec
      ensures State() == F.FireAbort(old(State()), r)
    {
      if r.ParseFailure? {
        flags := flags.(parseFailed := true);
      }
      flags := flags.(resyncArmed := false, resyncSoft := false);
      if flags.abortArmed {
        flags := flags.(abortArmed := false);
        Note(F.Abort(r));
      }
    }

    method EndFrameStreak(clean: bool)
      modifies this`flags, this`stream, this`rec
      ensures State() == F.EndFrame(old(State()), clean)
    {
      Note(F.Judged(if clean then F.Clean else if flags.parseFailed then F.Failed else F.Neutral));
      if clean {
        stream := stream.(streak := 0);
      } else if flags.parseFailed {
        stream := stream.(streak := stream.streak + 1);
      }
      flags := flags.(parseFailed := false);
    }

    /** One release callback per held slab, in order; then an empty chain and a tile at its start. */
    method ReleaseHeldSlabs()
      modifies this`flow, this`rec
      ensures State() == F.Drain(old(State()))
    {
      for i := 0 to |flow.held|
        invariant flow == old(flow) && rec == old(rec).(released := old(rec).released + flow.held[..i])
      {
        rec := rec.(released := rec.released + [flow.held[i]]);
      }
      assert flow.held[..|flow.held|] == flow.held;
      flow := F.Flow([], [], 0, 0, []);
    }

    method CountFrame(frames: nat, truncated: nat)
      modifies this`rec
      ensures State() == F.Count(old(State()), frames, truncated)
    {
      rec := rec.(totalFrames := rec.totalFrames + frames, truncFrames := rec.truncFrames + truncated);
    }

    method OnGap(p: F.Packet)
      modifies this`flags, this`rec
      ensures State() == F.OnGap(config, old(State()), p)
    {
      if !p.gap {
        return;
      }
      Note(F.GapSeen);
      if (flags.passed || flow.held != []) && !flags.failed {
        if config.resyncGap && flags.passed && p.gapAccepted {
          flags := flags.(resyncArmed := true, resyncSoft := true);
          Note(F.GapTaken(flow.total));
        } else {
          FireAbort(F.Gap);
          flags := flags.(failed := true);
        }
      }
    }

    method OnCap()
      modifies this
      ensures State() == F.OnCap(old(State()))
    {
      if |flow.held| >= F.SLAB_CAP {
        FireAbort(F.SlabCap);
        ReleaseHeldSlabs();
        CountFrame(0, 1);
        EndFrameStreak(false);
        flags := flags.(failed := false, passed := false);
      }
    }

    method OnSkip(p: F.Packet)
      modifies this
      ensures State() == F.OnSkip(old(State()), p)
    {
      rec := rec.(released := rec.released + [p.slab]);
      if p.marker {
        if flags.failed || flags.passed {
          FireAbort(F.DamagedEoc);
          CountFrame(1, 1);
          EndFrameStreak(false);
        }
        flags := flags.(failed := false, passed := false);
        ReleaseHeldSlabs();
      }
    }

    method OpenFrame(p: F.Packet)
      modifies this
      ensures State() == F.OpenFrame(old(State()), p)
    {
      if flow.held != [] {
        FireAbort(F.MissedEoc);
        ReleaseHeldSlabs();
        if flags.passed || flags.failed {
          CountFrame(1, 1);
          EndFrameStreak(false);
        }
        flags := flags.(passed := false);
      }
      Note(F.Begin);
      flags := flags.(failed := false, parseFailed := false);
      Deliver(p);
    }

    /** Full header parse and structure build, the outcome being given. */
    method Latch(p: F.Packet, sig: nat, why: Option<F.Why>) returns (done: bool)
      modifies this
      ensures (State(), done) == F.Latch(old(State()), p, sig, why)
    {
      flow := flow.(cursor := p.headerEnd);
      stream := stream.(startSod := p.headerEnd);
      if stream.startSod == 0 || !p.createOk {
        FireAbort(F.ParseFailure);
        flags := flags.(failed := true);
        return true;
      }
      flags := flags.(passed := true);
      Note(F.Tracked);
      stream := stream.(ready := true, geomSig := sig, builtSig := sig, streak := 0);
      Note(F.Latched(sig));
      if why.Some? {
        stream := stream.(relatches := stream.relatches + 1);
        Note(F.Relatch(why.value));
      }
      done := false;
    }

    /** A frame on the latched structure starts at the end of its own header, or of the last one known. */
    method Reuse(sod: nat)
      modifies this
      ensures State() == F.Reuse(old(State()), sod)
    {
      if sod != 0 {
        stream := stream.(startSod := sod);
      }
      flow := flow.(cursor := stream.startSod);
      flags := flags.(passed := true);
      Note(F.Tracked);
    }

    method Recheck(p: F.Packet, sig: nat, sod: nat) returns (done: bool)
      modifies this
      ensures (State(), done) == F.Recheck(config, old(State()), p, sig, sod)
    {
      hide F.Latch, F.Reuse;
      if stream.geomSig == 0 {
        stream := stream.(geomSig := sig);
      }
      var why := None;
      if config.failK > 0 && stream.streak >= config.failK {
        why := Some(F.FailStreak);
      } else if sig != stream.geomSig {
        why := Some(F.NewGeometry);
      }
      if why.Some? {
        Note(F.Dropped(why.value, sig, stream.geomSig));
        stream := stream.(ready := false);
        done := Latch(p, sig, why);
      } else {
        Reuse(sod);
        done := false;
      }
    }

    method OnMain(p: F.Packet) returns (done: bool)
      modifies this
      ensures (State(), done) == F.OnMain(config, old(State()), p)
    {
      hide F.OpenFrame, F.Latch, F.Recheck, F.Reuse, F.FireAbort, GS.Signature;
      OpenFrame(p);
      if p.mh >= 2 {
        var sig, sod := GS.ComputeSignature(p.body);
        if !stream.ready {
          done := Latch(p, sig, None);
        } else if sig == 0 {
          FireAbort(F.ParseFailure);
          flags := flags.(failed := true);
          done := true;
        } else {
          done := Recheck(p, sig, sod);
        }
      } else if stream.ready {
        Reuse(0);
        done := false;
      } else {
        stream := stream.(startSod := (stream.startSod + |p.body|) % 0x1_0000_0000);
        done := stream.startSod == 0;
      }
    }

    method OnBody(p: F.Packet)
      modifies this
      ensures State() == F.OnBody(config, old(State()), p)
    {
      var resyncByte := flow.total + p.pos;
      Deliver(p);
      if p.ordb && flags.passed {
        if |flow.signals| >= F.MAX_SIGNALS {
          flow := flow.(signals := []);
        }
        flow := flow.(signals := flow.signals + [(resyncByte, p.pid)]);
        if flags.resyncArmed && config.resyncPoint {
          Note(F.Offered(resyncByte, p.pid, p.pointAccepted));
          if p.pointAccepted {
            flags := flags.(resyncArmed := false);
          }
        }
        if !flags.failed && !flags.resyncSoft {
          Note(F.Parsed(p.parseOk));
          if !p.parseOk {
            flags := flags.(failed := true, passed := false);
            FireAbort(F.ParseFailure);
          }
        }
      }
    }

    method OnEoc(p: F.Packet)
      modifies this
      ensures State() == F.OnEoc(old(State()), p)
    {
      var intact := F.Intact(flags);
      flags := flags.(abortArmed := false, resyncArmed := false, resyncSoft := false);
      if intact {
        Note(F.Flushed(p.flushOk));
        if !p.flushOk {
          flags := flags.(failed := true, passed := false, parseFailed := true);
        }
      }
      EndFrameStreak(intact && !flags.failed);
      Note(F.Ready(intact, Flatten(flow.chain)));
      CountFrame(1, ToNat(flags.failed));
      flags := flags.(failed := false, passed := false);
      ReleaseHeldSlabs();
    }

    /**
     One packet from the receiver.  What was reported stands, and everything reported since is
     within the contract; the packet's slab is given back or held, as is every slab before it,
     and never more than the cap are held; what was given back stays given back.
     */
    method PullData(p: F.Packet)
      requires Valid()
      modifies this
      ensures Valid() && State() == F.Pull(config, old(State()), p)
      ensures old(rec).trace <= rec.trace && FR.Seen(config, State()).ok
      ensures old(rec).released <= rec.released
      ensures multiset(rec.released) + multiset(flow.held) == old(multiset(rec.released) + multiset(flow.held))
              + multiset{p.slab}
      ensures |flow.held| == |flow.chain| <= F.SLAB_CAP
      ensures flow.held != [] ==> FR.Seen(config, State()).bytes == Flatten(flow.chain)
      ensures FS.Left(old(flow), flow) || FS.Taken(old(flow), flow, p)
    {
      PullLaws(config, State(), p);
      Handle(p);
    }

    /** The stages in their order. */
    method Handle(p: F.Packet)
      modifies this
      ensures State() == F.Pull(config, old(State()), p)
    {
      hide F.OnGap, F.OnCap, F.OnSkip, F.OnMain, F.OnBody, F.OnEoc;
      OnGap(p);
      OnCap();
      if p.mh == 0 && (!flags.passed || flags.failed) {
        OnSkip(p);
        return;
      }
      if p.mh >= 1 {
        var done := OnMain(p);
        if done {
          return;
        }
      } else {
        OnBody(p);
      }
      if p.marker {
        OnEoc(p);
      }
    }
  }

  lemma PullLaws(c: F.Config, s: F.Fh, p: F.Packet)
    requires FR.Good(c, s)
    ensures var t := F.Pull(c, s, p);
            && FR.Good(c, t) && s.rec.trace <= t.rec.trace && FR.Seen(c, t).ok && s.rec.released <= t.rec.released
            && multiset(t.rec.released) + multiset(t.flow.held) == multiset(s.rec.released) + multiset(s.flow.held)
               + multiset{p.slab}
            && |t.flow.held| == |t.flow.chain| <= F.SLAB_CAP
            && (t.flow.held != [] ==> FR.Seen(c, t).bytes == Flatten(t.flow.chain))
            && (FS.Left(s.flow, t.flow) || FS.Taken(s.flow, t.flow, p))
  {
    hide F.Pull, FR.Watching;
    FR.PullGood(c, s, p);
    FR.PullKeeps(c, s, p);
    FS.PullStep(c, s, p);
  }
}
