/**
 The receiver and the frame handler together.  The hook that the worker calls for a job is
 the frame handler's `Pull` on the packet in the job's slab; the slabs it gives back go to
 the receiver one at a time, in the worker's thread, while the receive thread runs on.
 */
module Pipeline {
  import opened Bytes
  import opened ChainReader
  import R = JitterRing
  import RR = JitterRuns
  import F = FrameHandler
  import FR = FrameRuns
  import FS = FrameSteps

  /** What the outside answers when a packet is handled. */
  datatype Answers = Answers(gap: bool, gapAccepted: bool, pointAccepted: bool, parseOk: bool, flushOk: bool,
                             headerEnd: nat, createOk: bool)

  /**
   The packet in a slab: sub-header and codestream bytes behind the RTP header, marker from the
   RTP header's second byte.
   */
  function PacketIn(bytes: seq<byte>, hdr: nat, slab: nat, a: Answers): F.Packet
    requires 12 <= hdr && hdr + 8 <= |bytes|
  {
    var (mh, ordb, pos, pid) := F.SubHeader(bytes[hdr..]);
    F.Packet(mh, ordb, pos, pid, bytes[hdr + 8..], bytes[1] / 128 == 1, slab, a.gap, a.gapAccepted, a.pointAccepted,
             a.parseOk, a.flushOk, a.headerEnd, a.createOk)
  }

  /**
   From the wire: a datagram written with an RTP header, a sub-header and bytes of the codestream is
   accepted, and is handed over with the fields written, those bytes, and the marker bit as marker.
   */
  lemma {:induction false} WireRoundTrip(b1: byte, seqno: nat, rest: seq<byte>, csrc: seq<byte>,
                                         ext: Option<(nat, seq<byte>)>, mh: nat, ordb: bool, pos: nat, pid: nat,
                                         sub: seq<byte>, body: seq<byte>, slab: nat, a: Answers)
    requires seqno < R.SEQ && |rest| == 8 && |csrc| < 64 && |csrc| % 4 == 0
    requires ext.Some? ==> ext.value.0 < R.SEQ && |ext.value.1| % 4 == 0 && |ext.value.1| / 4 < R.SEQ
    requires mh < 4 && pos < 4096 && pid < 0x10_0000
    requires |sub| == 4 && sub[0] / 64 == mh && (sub[1] / 128 == 1) == ordb
    requires var header := R.RtpHeader(false, b1, seqno, rest, csrc, ext);
             |header + (sub + F.Word32(pos * 0x10_0000 + pid) + body)| <= R.SLOT_BYTES
    ensures var header := R.RtpHeader(false, b1, seqno, rest, csrc, ext);
            var bytes := header + (sub + F.Word32(pos * 0x10_0000 + pid) + body);
            && R.ParseRtp(bytes) == Some(R.Dgram(seqno, |header|, bytes))
            && var p := PacketIn(bytes, |header|, slab, a);
               p.mh == mh && p.ordb == ordb && p.pos == pos && p.pid == pid && p.body == body
               && p.marker == (b1 >= 128) && p.slab == slab
  {
    hide R.RtpHeader, R.ParseRtp, F.SubHeader, F.Word32;
    var header := R.RtpHeader(false, b1, seqno, rest, csrc, ext);
    var payload := sub + F.Word32(pos * 0x10_0000 + pid) + body;
    var none: seq<byte> := [];
    assert header + payload + none == header + payload;
    R.RtpRoundTrip(b1, seqno, rest, csrc, ext, payload, none);
    SecondByte(b1, seqno, rest, csrc, ext);
    FieldsRead(mh, ordb, pos, pid, sub, body);
    assert (header + payload)[|header|..] == payload;
    assert (header + payload)[|header| + 8..] == body;
  }

  lemma SecondByte(b1: byte, seqno: nat, rest: seq<byte>, csrc: seq<byte>, ext: Option<(nat, seq<byte>)>)
    requires seqno < R.SEQ && |rest| == 8 && |csrc| < 64 && |csrc| % 4 == 0
    requires ext.Some? ==> ext.value.0 < R.SEQ && |ext.value.1| % 4 == 0 && |ext.value.1| / 4 < R.SEQ
    ensures R.RtpHeader(false, b1, seqno, rest, csrc, ext)[1] == b1
  {
    hide R.FirstByte, R.Extension;
  }

  lemma FieldsRead(mh: nat, ordb: bool, pos: nat, pid: nat, sub: seq<byte>, body: seq<byte>)
    requires mh < 4 && pos < 4096 && pid < 0x10_0000
    requires |sub| == 4 && sub[0] / 64 == mh && (sub[1] / 128 == 1) == ordb
    ensures F.SubHeader(sub + F.Word32(pos * 0x10_0000 + pid) + body) == (mh, ordb, pos, pid)
  {
    hide F.SubHeader, F.Word32;
    F.SubHeaderRoundTrip(mh, ordb, pos, pid, sub[0] % 64, sub[1] % 128, sub[2], sub[3], body);
    assert [64 * mh + sub[0] % 64, 128 * ToNat(ordb) + sub[1] % 128, sub[2], sub[3]] == sub;
  }

  /** Both, and the slabs the handler has given back whose flags are still to be cleared. */
  datatype Pipe = Pipe(ring: R.State, fh: F.Fh, todo: seq<nat>)

  function Init(): Pipe {
    Pipe(R.Init(), F.Init(), [])
  }

  datatype Move = Arrive(d: R.Dgram) | Recv | Work(a: Answers)

  /** A datagram with room for the sub-header. */
  predicate Roomy(d: R.Dgram) {
    d.hdr + 8 <= |d.bytes|
  }

  /** The job in the worker's hands goes to the handler. */
  function Hook(c: F.Config, x: Pipe, a: Answers): (y: Pipe)
    requires R.Shape(x.ring) && x.ring.worker.Process?
    ensures R.Shape(y.ring)
  {
    var j := x.ring.worker.job;
    var bytes := x.ring.slab[j.slab];
    var ring := R.WorkerStep(x.ring);
    if 12 <= j.hdr && j.hdr + 8 <= |bytes| then
      var fh := F.Pull(c, x.fh, PacketIn(bytes, j.hdr, j.slab, a));
      Pipe(ring, fh, if x.fh.rec.released <= fh.rec.released then fh.rec.released[|x.fh.rec.released|..] else [])
    else Pipe(ring, x.fh, x.todo)
  }

  function Step(c: F.Config, depth: nat, x: Pipe, m: Move): (y: Pipe)
    requires R.Shape(x.ring)
    ensures R.Shape(y.ring)
  {
    match m
    case Arrive(d) => if Roomy(d) then x.(ring := R.Step(x.ring, depth, R.LArrive(d))) else x
    case Recv => x.(ring := R.RecvStep(x.ring, depth))
    case Work(a) =>
      if x.todo != [] then x.(ring := R.Step(x.ring, depth, R.LRelease(x.todo[0])), todo := x.todo[1..])
      else if x.ring.worker.Process? then Hook(c, x, a)
      else x.(ring := R.WorkerStep(x.ring))
  }

  function Run(c: F.Config, depth: nat, ms: seq<Move>): (x: Pipe)
    ensures R.Shape(x.ring)
  {
    if ms == [] then Init() else Step(c, depth, Run(c, depth, ms[..|ms| - 1]), ms[|ms| - 1])
  }

  // ------------------------------------------------------------------- invariant

  /** The hook holds exactly the slabs in the chain and those on their way back, each once. */
  ghost predicate Holds(held: seq<nat>, todo: seq<nat>, owner: seq<R.Owner>) {
    forall i: nat :: (multiset(held) + multiset(todo))[i] == ToNat(i < |owner| && owner[i].Held?)
  }

  /** Chunk `k` is what follows the sub-header in its slab, as the slab is now. */
  predicate ChunkOk(i: nat, chunk: seq<byte>, owner: seq<R.Owner>, slab: seq<seq<byte>>, log: seq<R.Job>) {
    && i < |owner| == |slab| && owner[i].Held? && owner[i].k < |log|
    && log[owner[i].k].hdr + 8 <= |slab[i]| && chunk == slab[i][log[owner[i].k].hdr + 8..]
  }

  predicate Chunks(held: seq<nat>, chain: seq<seq<byte>>, owner: seq<R.Owner>, slab: seq<seq<byte>>, log: seq<R.Job>) {
    && |held| == |chain|
    && (forall k :: 0 <= k < |held| ==> ChunkOk(held[k], chain[k], owner, slab, log))
    && (forall k, m :: 0 <= k < m < |held| ==> owner[held[k]].k < owner[held[m]].k)
  }

  predicate AllRoomy(stored: map<nat, R.Dgram>) {
    forall u <- stored.Keys :: Roomy(stored[u])
  }

  /** The datagram in the receive thread's hands. */
  predicate InHand(r: R.Recv) {
    && (r.Advance? || r.Store? || r.Write? ==> Roomy(r.d))
    && ((r.Own? || RR.InDispatch(r)) && r.back.ToAdvance? ==> Roomy(r.back.d))
  }

  ghost predicate Good(c: F.Config, depth: nat, x: Pipe) {
    && RR.Inv(x.ring, depth) && FR.Good(c, x.fh)
    && Holds(x.fh.flow.held, x.todo, x.ring.owner)
    && Chunks(x.fh.flow.held, x.fh.flow.chain, x.ring.owner, x.ring.slab, x.ring.log)
    && AllRoomy(x.ring.stored) && InHand(x.ring.recv)
  }

  // ----------------------------------------------------- what the ring's steps leave

  /** No slab comes into or leaves the hook's hands, and what it holds stays as it is. */
  predicate HeldStay(s: R.State, t: R.State) {
    && |s.owner| == |t.owner| == |s.slab| == |t.slab| && s.log <= t.log
    && forall i :: 0 <= i < |s.owner| ==>
         && (s.owner[i].Held? <==> t.owner[i].Held?)
         && (s.owner[i].Held? ==> t.owner[i] == s.owner[i] && t.slab[i] == s.slab[i])
  }

  lemma RecvLeaves(s: R.State, depth: nat)
    requires RR.Inv(s, depth)
    ensures HeldStay(s, R.RecvStep(s, depth))
  {
    hide RR.QueueOk, RR.SeenOk, RR.LogOk, RR.FilledSet, RR.WorkerOk, RR.PutOk, RR.Owners, RR.JobOk, R.DgramOk;
    RR.HeadIs(s);
    var i := R.Head(s);
    assert RR.SlotOk(i, s.ring[i], s.owner[i], s.slab[i], s.stored, s.nextU, depth);
    if s.recv.Write? { RR.SlotOfSeq(s.recv.u); }
  }

  lemma ArriveLeaves(s: R.State, depth: nat, d: R.Dgram)
    requires RR.Inv(s, depth)
    ensures HeldStay(s, R.Step(s, depth, R.LArrive(d)))
  {
    hide RR.Inv;
    RR.InvShape(s, depth);
  }

  /** The worker's steps up to the hook. */
  lemma WorkLeaves(s: R.State, depth: nat)
    requires RR.Inv(s, depth) && !s.worker.Process?
    ensures HeldStay(s, R.WorkerStep(s))
  {
    hide RR.SeenOk, RR.LogOk, RR.FilledSet, RR.PutOk, RR.Slots, RR.Dispatches, RR.RecvOk, RR.QueueOk, RR.Accounts;
    if s.worker.Pop? { assert s.owner[s.log[s.popped].slab] == R.Queued(s.popped); }
  }

  lemma StayHolds(held: seq<nat>, todo: seq<nat>, chain: seq<seq<byte>>, s: R.State, t: R.State)
    requires HeldStay(s, t) && Holds(held, todo, s.owner) && Chunks(held, chain, s.owner, s.slab, s.log)
    ensures Holds(held, todo, t.owner) && Chunks(held, chain, t.owner, t.slab, t.log)
  {
    forall k | 0 <= k < |held| ensures ChunkOk(held[k], chain[k], t.owner, t.slab, t.log) {
      assert ChunkOk(held[k], chain[k], s.owner, s.slab, s.log);
    }
    forall i: nat ensures (multiset(held) + multiset(todo))[i] == ToNat(i < |t.owner| && t.owner[i].Held?) {
      assert (multiset(held) + multiset(todo))[i] == ToNat(i < |s.owner| && s.owner[i].Held?);
    }
  }

  /** Only datagrams with room for the sub-header are about. */
  lemma RecvRoomy(s: R.State, depth: nat)
    requires R.Shape(s) && AllRoomy(s.stored) && InHand(s.recv)
    ensures var t := R.RecvStep(s, depth);
            AllRoomy(t.stored) && InHand(t.recv)
  {
    hide Roomy, R.HeadReady, R.Diff16, R.Head;
    if s.recv.Write? { assert InHand(R.Release); }
  }

  lemma ArriveRoomy(s: R.State, depth: nat, d: R.Dgram)
    requires R.Shape(s) && AllRoomy(s.stored) && InHand(s.recv) && Roomy(d)
    ensures var t := R.Step(s, depth, R.LArrive(d));
            AllRoomy(t.stored) && InHand(t.recv)
  {}

  // ------------------------------------------------------------------ giving back

  lemma TakeOne(held: seq<nat>, todo: seq<nat>, owner: seq<R.Owner>)
    requires Holds(held, todo, owner) && todo != []
    ensures todo[0] < |owner| && owner[todo[0]].Held? && todo[0] !in held
    ensures Holds(held, todo[1..], owner[todo[0] := R.Free])
  {
    var i := todo[0];
    assert todo == [i] + todo[1..];
    assert multiset(todo) == multiset{i} + multiset(todo[1..]);
    assert (multiset(held) + multiset(todo))[i] == ToNat(i < |owner| && owner[i].Held?);
    var after := owner[i := R.Free];
    forall n: nat ensures (multiset(held) + multiset(todo[1..]))[n] == ToNat(n < |after| && after[n].Held?) {
      assert (multiset(held) + multiset(todo))[n] == ToNat(n < |owner| && owner[n].Held?);
    }
  }

  lemma FreeLeaves(held: seq<nat>, chain: seq<seq<byte>>, owner: seq<R.Owner>, slab: seq<seq<byte>>, log: seq<R.Job>,
                   i: nat)
    requires Chunks(held, chain, owner, slab, log) && i < |owner| && i !in held
    ensures Chunks(held, chain, owner[i := R.Free], slab, log)
  {
    forall k | 0 <= k < |held| ensures ChunkOk(held[k], chain[k], owner[i := R.Free], slab, log) {
      assert ChunkOk(held[k], chain[k], owner, slab, log);
    }
  }

  lemma ReleaseGood(c: F.Config, depth: nat, x: Pipe, a: Answers)
    requires Good(c, depth, x) && x.todo != []
    ensures Good(c, depth, Step(c, depth, x, Work(a)))
    ensures x.todo[0] < R.RING && x.ring.owner[x.todo[0]].Held?
  {
    hide RR.Inv, FR.Good, Holds, Chunks, AllRoomy, InHand;
    RR.InvShape(x.ring, depth);
    var i := x.todo[0];
    TakeOne(x.fh.flow.held, x.todo, x.ring.owner);
    FreeLeaves(x.fh.flow.held, x.fh.flow.chain, x.ring.owner, x.ring.slab, x.ring.log, i);
    RR.StepInv(x.ring, depth, R.LRelease(i));
  }

  // --------------------------------------------------------------------- the hook

  /** The job in the worker's hands: its slab, its bytes, and that nobody else has it. */
  lemma JobInHand(s: R.State, depth: nat)
    requires RR.Inv(s, depth) && s.worker.Process? && AllRoomy(s.stored)
    ensures var j := s.worker.job;
            && 0 < s.popped <= |s.log| && j == s.log[s.popped - 1] && j.slab < R.RING
            && s.owner[j.slab] == R.Running(s.popped - 1)
            && 12 <= j.hdr && j.hdr + 8 <= |s.slab[j.slab]| && j.hdr <= j.len
            && j.u in s.stored && s.slab[j.slab] == s.stored[j.u].bytes && s.stored[j.u].hdr == j.hdr
  {
    hide RR.SeenOk, RR.FilledSet, RR.PutOk, RR.Slots, RR.Dispatches, RR.RecvOk, RR.QueueOk, RR.Accounts;
    var j := s.worker.job;
    assert RR.OwnerOk(j.slab, s.owner[j.slab], s.slab[j.slab], s.log, s.popped, s.stored);
    assert RR.JobOk(s.log[s.popped - 1], s.stored, s.nextU);
  }

  /** What the hook holds was popped before the job now in hand. */
  lemma HeldBefore(s: R.State, depth: nat, i: nat)
    requires RR.Inv(s, depth) && s.worker.Process? && i < R.RING && s.owner[i].Held?
    ensures s.owner[i].k < s.popped - 1
  {
    hide RR.SeenOk, RR.FilledSet, RR.PutOk, RR.Slots, RR.Dispatches, RR.RecvOk, RR.QueueOk, RR.Accounts, RR.LogOk;
    assert RR.OwnerOk(i, s.owner[i], s.slab[i], s.log, s.popped, s.stored);
  }

  /** The multiset arithmetic of a handler call: chain and way back together grow by the packet's slab. */
  lemma HeldGrow(held: seq<nat>, held': seq<nat>, released: seq<nat>, todo': seq<nat>, slab: nat)
    requires multiset(released + todo') + multiset(held') == multiset(released) + multiset(held) + multiset{slab}
    ensures multiset(held') + multiset(todo') == multiset(held) + multiset{slab}
  {
    assert multiset(released + todo') == multiset(released) + multiset(todo');
    forall n: nat ensures (multiset(held') + multiset(todo'))[n] == (multiset(held) + multiset{slab})[n] {
      assert (multiset(released) + multiset(todo') + multiset(held'))[n]
          == (multiset(released) + multiset(held) + multiset{slab})[n];
    }
  }

  lemma HoldsGrow(held: seq<nat>, held': seq<nat>, todo': seq<nat>, owner: seq<R.Owner>, slab: nat, k: nat)
    requires Holds(held, [], owner) && slab < |owner| && !owner[slab].Held?
    requires multiset(held') + multiset(todo') == multiset(held) + multiset{slab}
    ensures Holds(held', todo', owner[slab := R.Held(k)])
  {
    var after := owner[slab := R.Held(k)];
    forall n: nat ensures (multiset(held') + multiset(todo'))[n] == ToNat(n < |after| && after[n].Held?) {
      assert (multiset(held) + multiset([]))[n] == ToNat(n < |owner| && owner[n].Held?);
      assert (multiset(held) + multiset{slab})[n] == multiset(held)[n] + ToNat(n == slab);
    }
  }

  /** Held slabs keep their chunks when another slab joins them. */
  lemma ChunksStay(held: seq<nat>, chain: seq<seq<byte>>, owner: seq<R.Owner>, slab: seq<seq<byte>>, log: seq<R.Job>,
                   i: nat, k: nat)
    requires Chunks(held, chain, owner, slab, log) && i < |owner| && !owner[i].Held?
    ensures Chunks(held, chain, owner[i := R.Held(k)], slab, log)
    ensures forall m :: 0 <= m < |held| ==> owner[i := R.Held(k)][held[m]] == owner[held[m]] && held[m] != i
  {
    forall m | 0 <= m < |held| ensures ChunkOk(held[m], chain[m], owner[i := R.Held(k)], slab, log) {
      assert ChunkOk(held[m], chain[m], owner, slab, log);
    }
  }

  /** The new chunk goes behind the others. */
  lemma ChunksGrow(held: seq<nat>, chain: seq<seq<byte>>, owner: seq<R.Owner>, slab: seq<seq<byte>>, log: seq<R.Job>,
                   i: nat, chunk: seq<byte>)
    requires Chunks(held, chain, owner, slab, log) && ChunkOk(i, chunk, owner, slab, log)
    requires forall m :: 0 <= m < |held| ==> owner[held[m]].k < owner[i].k
    ensures Chunks(held + [i], chain + [chunk], owner, slab, log) && Chunks([i], [chunk], owner, slab, log)
            && Chunks([], [], owner, slab, log)
  {
    forall m | 0 <= m < |held + [i]| ensures ChunkOk((held + [i])[m], (chain + [chunk])[m], owner, slab, log) {
      if m < |held| { assert ChunkOk(held[m], chain[m], owner, slab, log); }
    }
  }

  /** What the handler's call leaves of chain and history, seen from the ring. */
  lemma CallLeaves(c: F.Config, fh: F.Fh, p: F.Packet)
    requires FR.Good(c, fh)
    ensures var t := F.Pull(c, fh, p);
            && FR.Good(c, t) && fh.rec.released <= t.rec.released
            && (FS.Left(fh.flow, t.flow) || FS.Taken(fh.flow, t.flow, p))
            && multiset(t.flow.held) + multiset(t.rec.released[|fh.rec.released|..]) == multiset(fh.flow.held)
               + multiset{p.slab}
  {
    hide F.Pull, FR.Watching;
    FR.PullGood(c, fh, p);
    FR.PullKeeps(c, fh, p);
    FS.PullStep(c, fh, p);
    var t := F.Pull(c, fh, p);
    var todo := t.rec.released[|fh.rec.released|..];
    assert t.rec.released == fh.rec.released + todo;
    HeldGrow(fh.flow.held, t.flow.held, fh.rec.released, todo, p.slab);
  }

  lemma HookGood(c: F.Config, depth: nat, x: Pipe, a: Answers)
    requires Good(c, depth, x) && x.todo == [] && x.ring.worker.Process?
    ensures Good(c, depth, Hook(c, x, a))
  {
    hide RR.Inv, FR.Good, Holds, Chunks, AllRoomy, InHand, F.Pull, PacketIn;
    var s := x.ring;
    RR.InvShape(s, depth);
    JobInHand(s, depth);
    RR.StepInv(s, depth, R.LWork);
    var j := s.worker.job;
    var p := PacketIn(s.slab[j.slab], j.hdr, j.slab, a);
    PacketFields(s.slab[j.slab], j.hdr, j.slab, a);
    CallLeaves(c, x.fh, p);
    var y := Hook(c, x, a);
    var owner := s.owner[j.slab := R.Held(s.popped - 1)];
    assert y.ring.owner == owner && y.ring.slab == s.slab && y.ring.log == s.log && y.ring.stored == s.stored
           && y.ring.recv == s.recv;
    HoldsGrow(x.fh.flow.held, y.fh.flow.held, y.todo, s.owner, j.slab, s.popped - 1);
    HookChunks(depth, x, p, y.fh.flow);
  }

  lemma PacketFields(bytes: seq<byte>, hdr: nat, slab: nat, a: Answers)
    requires 12 <= hdr && hdr + 8 <= |bytes|
    ensures PacketIn(bytes, hdr, slab, a).slab == slab && PacketIn(bytes, hdr, slab, a).body == bytes[hdr + 8..]
  {}

  lemma HookChunks(depth: nat, x: Pipe, p: F.Packet, flow: F.Flow)
    requires RR.Inv(x.ring, depth) && x.ring.worker.Process? && AllRoomy(x.ring.stored)
    requires Chunks(x.fh.flow.held, x.fh.flow.chain, x.ring.owner, x.ring.slab, x.ring.log)
    requires var j := x.ring.worker.job;
             && j.slab < |x.ring.slab| && j.hdr + 8 <= |x.ring.slab[j.slab]| && p.slab == j.slab
             && p.body == x.ring.slab[j.slab][j.hdr + 8..]
    requires FS.Left(x.fh.flow, flow) || FS.Taken(x.fh.flow, flow, p)
    ensures x.ring.popped > 0 && x.ring.worker.job.slab < |x.ring.owner|
    ensures Chunks(flow.held, flow.chain, x.ring.owner[x.ring.worker.job.slab := R.Held(x.ring.popped - 1)],
                   x.ring.slab, x.ring.log)
  {
    hide RR.Inv, AllRoomy;
    var s := x.ring;
    RR.InvShape(s, depth);
    JobInHand(s, depth);
    var i, k := s.worker.job.slab, s.popped - 1;
    var owner := s.owner[i := R.Held(k)];
    ChunksStay(x.fh.flow.held, x.fh.flow.chain, s.owner, s.slab, s.log, i, k);
    forall m | 0 <= m < |x.fh.flow.held| ensures owner[x.fh.flow.held[m]].k < owner[i].k {
      assert ChunkOk(x.fh.flow.held[m], x.fh.flow.chain[m], s.owner, s.slab, s.log);
      HeldBefore(s, depth, x.fh.flow.held[m]);
    }
    ChunksGrow(x.fh.flow.held, x.fh.flow.chain, owner, s.slab, s.log, i, p.body);
  }

  // -------------------------------------------------------------------- all runs

  lemma StepGood(c: F.Config, depth: nat, x: Pipe, m: Move)
    requires Good(c, depth, x)
    ensures Good(c, depth, Step(c, depth, x, m))
  {
    hide RR.Inv, FR.Good, Holds, Chunks, AllRoomy, InHand, Hook, R.RecvStep, R.WorkerStep, R.Arrive, HeldStay;
    RR.InvShape(x.ring, depth);
    match m
    case Arrive(d) =>
      if Roomy(d) {
        RR.StepInv(x.ring, depth, R.LArrive(d));
        ArriveLeaves(x.ring, depth, d);
        ArriveRoomy(x.ring, depth, d);
        StayHolds(x.fh.flow.held, x.todo, x.fh.flow.chain, x.ring, R.Step(x.ring, depth, R.LArrive(d)));
      }
    case Recv =>
      RR.StepInv(x.ring, depth, R.LRecv);
      RecvLeaves(x.ring, depth);
      RecvRoomy(x.ring, depth);
      StayHolds(x.fh.flow.held, x.todo, x.fh.flow.chain, x.ring, R.RecvStep(x.ring, depth));
    case Work(a) =>
      if x.todo != [] {
        ReleaseGood(c, depth, x, a);
      } else if x.ring.worker.Process? {
        HookGood(c, depth, x, a);
      } else {
        RR.StepInv(x.ring, depth, R.LWork);
        WorkLeaves(x.ring, depth);
        WorkRoomy(x.ring);
        StayHolds(x.fh.flow.held, x.todo, x.fh.flow.chain, x.ring, R.WorkerStep(x.ring));
      }
  }

  lemma WorkRoomy(s: R.State)
    requires R.Shape(s)
    ensures R.WorkerStep(s).stored == s.stored && R.WorkerStep(s).recv == s.recv
  {}

  lemma InitGood(c: F.Config, depth: nat)
    requires 1 <= depth <= R.RING
    ensures Good(c, depth, Init())
  {
    hide RR.Inv, FR.Good, R.Blank;
    RR.InitInv(depth);
    FR.InitGood(c);
  }

  lemma {:induction false} RunGood(c: F.Config, depth: nat, ms: seq<Move>)
    requires 1 <= depth <= R.RING
    ensures Good(c, depth, Run(c, depth, ms))
  {
    hide Good, Init, Step;
    if ms == [] {
      InitGood(c, depth);
    } else {
      RunGood(c, depth, ms[..|ms| - 1]);
      StepGood(c, depth, Run(c, depth, ms[..|ms| - 1]), ms[|ms| - 1]);
    }
  }

  /** The job whose datagram is chunk `k` of the chain. */
  function JobOf(x: Pipe, k: nat): R.Job
    requires k < |x.fh.flow.held| && x.fh.flow.held[k] < |x.ring.owner|
    requires x.ring.owner[x.fh.flow.held[k]].Held? && x.ring.owner[x.fh.flow.held[k]].k < |x.ring.log|
  {
    x.ring.log[x.ring.owner[x.fh.flow.held[k]].k]
  }

  /**
   From the wire to the chain, in every run of both threads and the handler: every chunk of the
   chain is, byte for byte, the datagram that arrived under its sequence number, from behind the
   sub-header on; it still lies in its slab, which the receive thread will not touch; and the
   chunks come in strictly increasing sequence order.
   */
  lemma {:induction false} ChainIsDatagrams(c: F.Config, depth: nat, ms: seq<Move>)
    requires 1 <= depth <= R.RING
    ensures var x := Run(c, depth, ms);
            && (forall k :: 0 <= k < |x.fh.flow.held| ==> ChunkIsDatagram(x, k))
            && (forall k, m :: 0 <= k < m < |x.fh.flow.held| && ChunkIsDatagram(x, k) && ChunkIsDatagram(x, m) ==>
                  JobOf(x, k).u < JobOf(x, m).u)
  {
    hide Good, Run, JobOf;
    RunGood(c, depth, ms);
    var x := Run(c, depth, ms);
    forall k | 0 <= k < |x.fh.flow.held| ensures ChunkIsDatagram(x, k) { ChunkDatagram(c, depth, x, k); }
    forall k, m | 0 <= k < m < |x.fh.flow.held| && ChunkIsDatagram(x, k) && ChunkIsDatagram(x, m)
      ensures JobOf(x, k).u < JobOf(x, m).u {
      ChunkOrder(c, depth, x, k, m);
    }
  }

  predicate ChunkIsDatagram(x: Pipe, k: nat) {
    && k < |x.fh.flow.held| == |x.fh.flow.chain| && x.fh.flow.held[k] < R.RING
    && |x.ring.owner| == |x.ring.slab| == |x.ring.ring| == R.RING
    && x.ring.owner[x.fh.flow.held[k]].Held? && x.ring.owner[x.fh.flow.held[k]].k < |x.ring.log|
    && var i, j := x.fh.flow.held[k], JobOf(x, k);
       && j.slab == i && j.u in x.ring.stored && R.DgramOk(x.ring.stored[j.u])
       && x.ring.stored[j.u].seqno == j.u % R.SEQ
       && x.ring.slab[i] == x.ring.stored[j.u].bytes
       && x.ring.stored[j.u].hdr + 8 <= |x.ring.slab[i]|
       && x.fh.flow.chain[k] == x.ring.slab[i][x.ring.stored[j.u].hdr + 8..]
       && x.ring.ring[i].busy && (x.ring.recv.Write? ==> x.ring.recv.d.seqno % R.RING != i)
  }

  lemma ChunkDatagram(c: F.Config, depth: nat, x: Pipe, k: nat)
    requires Good(c, depth, x) && k < |x.fh.flow.held|
    ensures ChunkIsDatagram(x, k)
  {
    hide FR.Good, AllRoomy, InHand, Holds, RR.SeenOk, RR.FilledSet, RR.PutOk, RR.QueueOk, RR.Accounts, RR.WorkerOk,
         R.DgramOk;
    var s, i := x.ring, x.fh.flow.held[k];
    assert ChunkOk(i, x.fh.flow.chain[k], s.owner, s.slab, s.log);
    assert RR.OwnerOk(i, s.owner[i], s.slab[i], s.log, s.popped, s.stored);
    assert RR.JobOk(s.log[s.owner[i].k], s.stored, s.nextU);
    assert RR.SlotOk(i, s.ring[i], s.owner[i], s.slab[i], s.stored, s.nextU, depth);
    if s.recv.Write? { WriteElsewhere(s, depth, i); }
  }

  lemma WriteElsewhere(s: R.State, depth: nat, i: nat)
    requires RR.Inv(s, depth) && s.recv.Write? && i < R.RING && s.owner[i].Held?
    ensures s.recv.d.seqno % R.RING != i
  {
    hide RR.SeenOk, RR.FilledSet, RR.PutOk, RR.QueueOk, RR.Accounts, RR.WorkerOk, RR.Slots, RR.Owners, RR.LogOk;
    RR.SlotOfSeq(s.recv.u);
  }

  lemma ChunkOrder(c: F.Config, depth: nat, x: Pipe, k: nat, m: nat)
    requires Good(c, depth, x) && k < m < |x.fh.flow.held| && ChunkIsDatagram(x, k) && ChunkIsDatagram(x, m)
    ensures JobOf(x, k).u < JobOf(x, m).u
  {
    hide FR.Good, AllRoomy, InHand, Holds, RR.SeenOk, RR.FilledSet, RR.PutOk, RR.QueueOk, RR.Accounts, RR.WorkerOk,
         RR.Slots, RR.Owners;
  }

  /**
   The receiver may rely on the handler: in every run each slab the handler gives back is one the
   hook was given and had not given back, and the slabs in the hook's hands are exactly those in
   the chain and on the way back, each once; so none is lost and none is released twice.
   */
  lemma {:induction false} ReleasedOnce(c: F.Config, depth: nat, ms: seq<Move>, i: nat)
    requires 1 <= depth <= R.RING
    ensures var x := Run(c, depth, ms);
            && (x.todo != [] ==> x.todo[0] < R.RING && x.ring.owner[x.todo[0]].Held?)
            && (multiset(x.fh.flow.held) + multiset(x.todo))[i] == ToNat(i < R.RING && x.ring.owner[i].Held?)
            && |x.fh.flow.held| <= F.SLAB_CAP
  {
    hide Good, Run;
    RunGood(c, depth, ms);
    HandsFull(c, depth, Run(c, depth, ms), i);
  }

  lemma HandsFull(c: F.Config, depth: nat, x: Pipe, i: nat)
    requires Good(c, depth, x)
    ensures R.Shape(x.ring)
    ensures x.todo != [] ==> x.todo[0] < R.RING && x.ring.owner[x.todo[0]].Held?
    ensures (multiset(x.fh.flow.held) + multiset(x.todo))[i] == ToNat(i < R.RING && x.ring.owner[i].Held?)
    ensures |x.fh.flow.held| <= F.SLAB_CAP
  {
    hide RR.Inv, Chunks, AllRoomy, InHand, FR.Watching;
    RR.InvShape(x.ring, depth);
    if x.todo != [] { TakeOne(x.fh.flow.held, x.todo, x.ring.owner); }
  }

  /** Each part by itself goes through one of its own runs, so what holds of those holds here. */
  lemma {:induction false} PartsRun(c: F.Config, depth: nat, ms: seq<Move>)
    returns (ls: seq<R.Label>, ps: seq<F.Packet>)
    requires 1 <= depth <= R.RING
    ensures Run(c, depth, ms).ring == R.Run(depth, ls) && Run(c, depth, ms).fh == F.Run(c, ps)
  {
    hide R.Step, R.WorkerStep, R.RecvStep, F.Pull, PacketIn, R.Init, F.Init;
    if ms == [] {
      ls, ps := [], [];
    } else {
      ls, ps := PartsRun(c, depth, ms[..|ms| - 1]);
      var x, m := Run(c, depth, ms[..|ms| - 1]), ms[|ms| - 1];
      var l, p := Moved(c, depth, x, m);
      if l.Some? { RingOn(depth, ls, l.value); ls := ls + [l.value]; }
      if p.Some? { HandlerOn(c, ps, p.value); ps := ps + [p.value]; }
    }
  }

  lemma Moved(c: F.Config, depth: nat, x: Pipe, m: Move) returns (l: Option<R.Label>, p: Option<F.Packet>)
    requires R.Shape(x.ring)
    ensures var y := Step(c, depth, x, m);
            && y.ring == (if l.Some? then R.Step(x.ring, depth, l.value) else x.ring)
            && y.fh == (if p.Some? then F.Pull(c, x.fh, p.value) else x.fh)
  {
    hide R.WorkerStep, R.RecvStep, F.Pull, PacketIn;
    p := None;
    match m
    case Arrive(d) => l := if Roomy(d) then Some(R.LArrive(d)) else None;
    case Recv => l := Some(R.LRecv);
    case Work(a) =>
      if x.todo != [] {
        l := Some(R.LRelease(x.todo[0]));
      } else {
        l := Some(R.LWork);
        if x.ring.worker.Process? {
          var j := x.ring.worker.job;
          if 12 <= j.hdr && j.hdr + 8 <= |x.ring.slab[j.slab]| {
            p := Some(PacketIn(x.ring.slab[j.slab], j.hdr, j.slab, a));
          }
        }
      }
  }

  lemma RingOn(depth: nat, ls: seq<R.Label>, l: R.Label)
    ensures R.Run(depth, ls + [l]) == R.Step(R.Run(depth, ls), depth, l)
  {
    hide R.Step, R.Init;
    assert (ls + [l])[..|ls + [l]| - 1] == ls;
  }

  lemma HandlerOn(c: F.Config, ps: seq<F.Packet>, p: F.Packet)
    ensures F.Run(c, ps + [p]) == F.Pull(c, F.Run(c, ps), p)
  {
    hide F.Pull, F.Init;
    assert (ps + [p])[..|ps + [p]| - 1] == ps;
  }
}
