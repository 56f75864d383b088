/**
 The frame handler: each packet of a stream goes through `Pull`, which assembles the
 frame's byte chain, drives the tile parser, and reports to the consumer.  Calls to
 the consumer and to the parser are recorded in `trace`; the parser's and the
 consumer's answers are part of the packet's input.
 */
module FrameHandler {
  import opened Bytes
  import opened ChainReader
  import GS = GeometrySignature

  const SLAB_CAP := 3072
  const MAX_SIGNALS := 16384

  datatype Reason = Gap | ParseFailure | MissedEoc | SlabCap | DamagedEoc

  datatype Why = NewGeometry | FailStreak

  /** How a finished frame counts towards the parse-fail streak. */
  datatype Verdict = Clean | Failed | Neutral

  datatype Event =
    | GapSeen                                   // the packet follows a loss
    | GapTaken(seam: nat)                       // resync-gap callback, accepted
    | Offered(at: nat, pid: nat, taken: bool)   // resync-point callback
    | Begin                                     // a main packet opens a frame
    | Tracked                                   // its main header is taken: the frame is tracked
    | Chunk(off: nat, bytes: seq<byte>)         // chunk callback
    | Abort(reason: Reason)                     // abort callback
    | Ready(intact: bool, bytes: seq<byte>)     // frame-ready callback, with the chain it is shown
    | Judged(verdict: Verdict)                  // end-of-frame accounting
    | Dropped(why: Why, sig: nat, was: nat)     // latched structure invalidated
    | Latched(sig: nat)                         // structure built from a header
    | Relatch(why: Why)                         // re-latch callback
    | Parsed(ok: bool)                          // mid-frame parse
    | Flushed(ok: bool)                         // end-of-frame parse

  /** Which resync callbacks are set, and the escape-hatch threshold (0 turns the hatch off). */
  datatype Config = Config(resyncGap: bool, resyncPoint: bool, failK: nat)

  /** The sub-header fields, sections 5.3 and 5.4 of RFC 9828, the codestream bytes, and the answers met on the way. */
  datatype Packet = Packet(
    mh: nat, ordb: bool, pos: nat, pid: nat, body: seq<byte>, marker: bool, slab: nat, gap: bool,
    gapAccepted: bool, pointAccepted: bool, parseOk: bool, flushOk: bool, headerEnd: nat, createOk: bool)

  /** MH from the first byte, ORDB from the second, POS and PID from the last four of the eight. */
  function SubHeader(payload: seq<byte>): (r: (nat, bool, nat, nat))
    requires |payload| >= 8
    ensures r.0 < 4 && r.2 < 4096 && r.3 < 0x10_0000
  {
    var word := 0x100_0000 * (payload[4] as int) + 0x1_0000 * (payload[5] as int) + 0x100 * (payload[6] as int)
                + payload[7];
    (payload[0] / 64, payload[1] / 128 == 1, word / 0x10_0000, word % 0x10_0000)
  }

  /** A 32-bit word in network order. */
  function Word32(word: nat): (r: seq<byte>)
    requires word < 0x1_0000_0000
    ensures |r| == 4 && 0x100_0000 * (r[0] as int) + 0x1_0000 * (r[1] as int) + 0x100 * (r[2] as int) + r[3] == word
  {
    var high := word / 256;
    var higher := high / 256;
    [higher / 256, higher % 256, high % 256, word % 256]
  }

  /** Fields written where the payload format puts them are read back, whatever the other bits are. */
  lemma {:induction false} SubHeaderRoundTrip(mh: nat, ordb: bool, pos: nat, pid: nat, a: nat, b: nat, c: byte,
                                              d: byte, body: seq<byte>)
    requires mh < 4 && pos < 4096 && pid < 0x10_0000 && a < 64 && b < 128
    ensures SubHeader([64 * mh + a, 128 * ToNat(ordb) + b, c, d] + Word32(pos * 0x10_0000 + pid) + body)
         == (mh, ordb, pos, pid)
  {
    hide Word32;
    var word := pos * 0x10_0000 + pid;
    var w := Word32(word);
    var payload := [64 * mh + a, 128 * ToNat(ordb) + b, c, d] + w + body;
    assert payload[4] == w[0] && payload[5] == w[1] && payload[6] == w[2] && payload[7] == w[3];
  }

  /**
   The frame in flight: held slabs and their chunks, the bytes so far, where the chain
   reader was last put, and what the tile has been told since its restart.
   */
  datatype Flow = Flow(held: seq<nat>, chain: seq<seq<byte>>, total: nat, cursor: nat, signals: seq<(nat, nat)>)

  datatype Flags = Flags(failed: bool, passed: bool, parseFailed: bool, resyncArmed: bool, resyncSoft: bool,
                         abortArmed: bool)

  /**
   What is latched of the stream; `builtSig`, for reasoning only, is the signature of the
   header the structure came from.
   */
  datatype Stream = Stream(ready: bool, geomSig: nat, builtSig: nat, startSod: nat, streak: nat, relatches: nat)

  /** Frame counters, and for reasoning only the calls made and the slabs given back, in order. */
  datatype Record = Record(totalFrames: nat, truncFrames: nat, trace: seq<Event>, released: seq<nat>)

  datatype Fh = Fh(flow: Flow, flags: Flags, stream: Stream, rec: Record)

  function Init(): Fh {
    Fh(Flow([], [], 0, 0, []), Flags(false, false, false, false, false, false), Stream(false, 0, 0, 0, 0, 0),
       Record(0, 0, [], []))
  }

  function Log(r: Record, e: Event): Record {
    r.(trace := r.trace + [e])
  }

  function Emit(s: Fh, e: Event): Fh {
    s.(rec := Log(s.rec, e))
  }

  // -------------------------------------------------------------- small steps

  /** Hand a byte range to the consumer and append it to the chain. */
  function Deliver(s: Fh, p: Packet): Fh {
    Fh(s.flow.(held := s.flow.held + [p.slab], chain := s.flow.chain + [p.body], total := s.flow.total + |p.body|),
       s.flags.(abortArmed := true), s.stream, Log(s.rec, Chunk(s.flow.total, p.body)))
  }

  function FireAbort(s: Fh, r: Reason): Fh {
    s.(flags := s.flags.(parseFailed := s.flags.parseFailed || r.ParseFailure?, resyncArmed := false,
                         resyncSoft := false, abortArmed := false),
       rec := if s.flags.abortArmed then Log(s.rec, Abort(r)) else s.rec)
  }

  function Judge(s: Fh, clean: bool): Verdict {
    if clean then Clean else if s.flags.parseFailed then Failed else Neutral
  }

  function EndFrame(s: Fh, clean: bool): Fh {
    s.(flags := s.flags.(parseFailed := false),
       stream := s.stream.(streak := match Judge(s, clean)
                                     case Clean => 0
                                     case Failed => s.stream.streak + 1
                                     case Neutral => s.stream.streak),
       rec := Log(s.rec, Judged(Judge(s, clean))))
  }

  /** Give every held slab back, drop the chain, put the tile at its start. */
  function Drain(s: Fh): Fh {
    s.(flow := Flow([], [], 0, 0, []), rec := s.rec.(released := s.rec.released + s.flow.held))
  }

  function Untrack(s: Fh): Fh {
    s.(flags := s.flags.(failed := false, passed := false))
  }

  function Count(s: Fh, frames: nat, truncated: nat): Fh {
    s.(rec := s.rec.(totalFrames := s.rec.totalFrames + frames, truncFrames := s.rec.truncFrames + truncated))
  }

  // -------------------------------------------------------------------- stages

  /** A loss before this packet: the consumer may accept it, otherwise the frame in flight dies. */
  function OnGap(c: Config, s: Fh, p: Packet): Fh {
    if !p.gap then s
    else
      var s1 := Emit(s, GapSeen);
      if !((s.flags.passed || s.flow.held != []) && !s.flags.failed) then s1
      else if c.resyncGap && s.flags.passed && p.gapAccepted then
        s1.(flags := s1.flags.(resyncArmed := true, resyncSoft := true), rec := Log(s1.rec, GapTaken(s.flow.total)))
      else
        var s2 := FireAbort(s1, Gap);
        s2.(flags := s2.flags.(failed := true))
  }

  /** Too many slabs held: the end of the frame must have been missed. */
  function OnCap(s: Fh): Fh {
    if |s.flow.held| < SLAB_CAP then s
    else Untrack(EndFrame(Count(Drain(FireAbort(s, SlabCap)), 0, 1), false))
  }

  /** The end of a frame that was not tracked to its end. */
  function EndUntracked(s: Fh): Fh {
    if s.flags.failed || s.flags.passed then EndFrame(Count(FireAbort(s, DamagedEoc), 1, 1), false) else s
  }

  /** A body packet of a frame that is not tracked goes straight back. */
  function OnSkip(s: Fh, p: Packet): Fh {
    var s1 := s.(rec := s.rec.(released := s.rec.released + [p.slab]));
    if p.marker then Drain(Untrack(EndUntracked(s1))) else s1
  }

  /** A frame still open when the next main packet comes was cut short. */
  function CloseStale(s: Fh): Fh {
    if s.flow.held == [] then s
    else
      var s1 := Drain(FireAbort(s, MissedEoc));
      var s2 := if s.flags.passed || s.flags.failed then EndFrame(Count(s1, 1, 1), false) else s1;
      s2.(flags := s2.flags.(passed := false))
  }

  /** A main packet opens a frame. */
  function OpenFrame(s: Fh, p: Packet): Fh {
    var s1 := CloseStale(s);
    Deliver(s1.(flags := s1.flags.(failed := false, parseFailed := false), rec := Log(s1.rec, Begin)), p)
  }

  function FailHeader(s: Fh): Fh {
    var s1 := FireAbort(s, ParseFailure);
    s1.(flags := s1.flags.(failed := true))
  }

  /** Should the latched structure go, and why. */
  function StaleReason(c: Config, st: Stream, sig: nat): Option<Why> {
    if c.failK > 0 && st.streak >= c.failK then Some(FailStreak)
    else if sig != st.geomSig then Some(NewGeometry)
    else None
  }

  /** The structure built from a header is now the latched one. */
  function Adopt(s: Fh, sig: nat, why: Option<Why>): Fh {
    var st := s.stream.(ready := true, geomSig := sig, builtSig := sig, streak := 0,
                        relatches := s.stream.relatches + ToNat(why.Some?));
    var r := Log(Log(s.rec, Tracked), Latched(sig));
    s.(flags := s.flags.(passed := true), stream := st, rec := if why.Some? then Log(r, Relatch(why.value)) else r)
  }

  /** Put the chain reader at `at`, the start of the walk. */
  function Seek(s: Fh, at: nat): Fh {
    s.(flow := s.flow.(cursor := at), stream := s.stream.(startSod := at))
  }

  /** Parse the main header and build the structure from it; the answers come with the packet. */
  function Latch(s: Fh, p: Packet, sig: nat, why: Option<Why>): (Fh, bool) {
    var s1 := Seek(s, p.headerEnd);
    if p.headerEnd == 0 || !p.createOk then (FailHeader(s1), true) else (Adopt(s1, sig, why), false)
  }

  /** Reuse the latched structure for a new frame. */
  function Reuse(s: Fh, sod: nat): Fh {
    var s1 := Seek(s, if sod != 0 then sod else s.stream.startSod);
    s1.(flags := s1.flags.(passed := true), rec := Log(s1.rec, Tracked))
  }

  /** Drop the latched structure. */
  function Invalidate(s: Fh, why: Why, sig: nat): Fh {
    s.(stream := s.stream.(ready := false), rec := Log(s.rec, Dropped(why, sig, s.stream.geomSig)))
  }

  /** A complete header on a latched stream. */
  function Recheck(c: Config, s: Fh, p: Packet, sig: nat, sod: nat): (Fh, bool) {
    var s1 := s.(stream := s.stream.(geomSig := if s.stream.geomSig == 0 then sig else s.stream.geomSig));
    match StaleReason(c, s1.stream, sig)
    case Some(why) => Latch(Invalidate(s1, why, sig), p, sig, Some(why))
    case None => (Reuse(s1, sod), false)
  }

  /** The header of a frame just opened: verify, re-latch or reuse; the flag says that the call returns here. */
  function OnHeader(c: Config, s: Fh, p: Packet): (Fh, bool) {
    if p.mh >= 2 then
      var (sig, sod) := GS.Signature(p.body);
      if !s.stream.ready then Latch(s, p, sig, None)
      else if sig == 0 then (FailHeader(s), true)
      else Recheck(c, s, p, sig, sod)
    else if s.stream.ready then (Reuse(s, 0), false)
    else
      var sod := (s.stream.startSod + |p.body|) % 0x1_0000_0000;
      (s.(stream := s.stream.(startSod := sod)), sod == 0)
  }

  function OnMain(c: Config, s: Fh, p: Packet): (Fh, bool) {
    OnHeader(c, OpenFrame(s, p), p)
  }

  /** The tile is told of a resync point; after an accepted loss the consumer is offered it until it takes one. */
  function Signal(c: Config, s: Fh, p: Packet, at: nat): Fh {
    var s1 := s.(flow := s.flow.(signals := (if |s.flow.signals| >= MAX_SIGNALS then [] else s.flow.signals)
                                 + [(at, p.pid)]));
    if s.flags.resyncArmed && c.resyncPoint then
      s1.(flags := s1.flags.(resyncArmed := !p.pointAccepted), rec := Log(s1.rec, Offered(at, p.pid, p.pointAccepted)))
    else s1
  }

  /** What the signals cover is parsed. */
  function ParseTile(s: Fh, p: Packet): Fh {
    if s.flags.failed || s.flags.resyncSoft then s
    else
      var s1 := Emit(s, Parsed(p.parseOk));
      if p.parseOk then s1 else FireAbort(s1.(flags := s1.flags.(failed := true, passed := false)), ParseFailure)
  }

  /** A body packet of the tracked frame. */
  function OnBody(c: Config, s: Fh, p: Packet): Fh {
    var s1 := Deliver(s, p);
    if p.ordb && s1.flags.passed then ParseTile(Signal(c, s1, p, s.flow.total + p.pos), p) else s1
  }

  predicate Intact(f: Flags) {
    !f.failed && f.passed && !f.resyncSoft
  }

  /** All bytes are there: no abort any more, and the rest of an intact frame is parsed. */
  function FlushTile(s: Fh, p: Packet): Fh {
    var f := s.flags.(abortArmed := false, resyncArmed := false, resyncSoft := false);
    if !Intact(s.flags) then s.(flags := f)
    else
      s.(flags := if p.flushOk then f else f.(failed := true, passed := false, parseFailed := true),
         rec := Log(s.rec, Flushed(p.flushOk)))
  }

  /** Judge the frame, report it, let it go. */
  function ReportFrame(s: Fh, intact: bool): Fh {
    var s1 := Emit(EndFrame(s, intact && !s.flags.failed), Ready(intact, Flatten(s.flow.chain)));
    Drain(Untrack(Count(s1, 1, ToNat(s1.flags.failed))))
  }

  /** The frame's last packet. */
  function OnEoc(s: Fh, p: Packet): Fh {
    ReportFrame(FlushTile(s, p), Intact(s.flags))
  }

  /** Body packets are skipped while no frame is tracked. */
  predicate Skips(s: Fh, p: Packet) {
    p.mh == 0 && (!s.flags.passed || s.flags.failed)
  }

  /** The packet itself, losses and the slab cap being dealt with. */
  function Handle(c: Config, s: Fh, p: Packet): Fh {
    if Skips(s, p) then OnSkip(s, p)
    else
      var (s1, done) := if p.mh >= 1 then OnMain(c, s, p) else (OnBody(c, s, p), false);
      if p.marker && !done then OnEoc(s1, p) else s1
  }

  /** One packet. */
  function Pull(c: Config, s: Fh, p: Packet): Fh {
    Handle(c, OnCap(OnGap(c, s, p)), p)
  }

  /** A stream of packets from a new handler. */
  function Run(c: Config, ps: seq<Packet>): Fh {
    if ps == [] then Init() else Pull(c, Run(c, ps[..|ps| - 1]), ps[|ps| - 1])
  }
}
