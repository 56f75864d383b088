/**
 The receiver: a jitter ring of slabs, a one-slot-empty job queue, and two threads.
 A state holds both threads' program positions; a step is one access to shared
 memory (an ownership flag, a queue index, a queue cell or a slab), together with
 the thread-private work around it.  Accesses are sequentially consistent.

 Sequence numbers are kept twice: as the sixteen bits on the wire and, for
 reasoning only, unwrapped (`u`, `nextU`).  `owner` likewise records for reasoning
 who has a slab; the code itself only has the `busy` flag.
 */
module JitterRing {
  import opened Bytes
  import opened ChainReader

  const RING := 16384
  const QUEUE := RING
  const SEQ := 65536
  const SLOT_BYTES := 9216

  /** A datagram that passed the header checks: sequence number, RTP header length, bytes without padding. */
  datatype Dgram = Dgram(seqno: nat, hdr: nat, bytes: seq<byte>)

  predicate DgramOk(d: Dgram) {
    12 <= d.hdr <= |d.bytes| <= SLOT_BYTES && d.seqno == 256 * (d.bytes[2] as int) + d.bytes[3]
  }

  /** Header checks, section 5.1 of RFC 3550: version, CSRC list, extension, padding. */
  function ParseRtp(data: seq<byte>): (r: Option<Dgram>)
    requires 12 <= |data| <= SLOT_BYTES
    ensures r.Some? ==> DgramOk(r.value) && r.value.bytes <= data
  {
    var b0 := data[0];
    if b0 / 64 != 2 then None
    else
      var base := 12 + 4 * (b0 as int % 16);
      if |data| < base then None
      else if (b0 / 16) % 2 == 1 && |data| < base + 4 then None
      else
        var hdr := if (b0 / 16) % 2 == 1 then base + 4 + 4 * (256 * (data[base + 2] as int) + data[base + 3]) else base;
        if |data| < hdr then None
        else
          var pad: nat := if (b0 / 32) % 2 == 1 then data[|data| - 1] else 0;
          if pad > |data| - hdr then None
          else Some(Dgram(256 * (data[2] as int) + data[3], hdr, data[..|data| - pad]))
  }

  /** The first byte: version 2, padding, extension, CSRC count. */
  function FirstByte(padded: bool, extended: bool, cc: nat): byte
    requires cc < 16
  {
    128 + 32 * ToNat(padded) + 16 * ToNat(extended) + cc
  }

  /** The extension header: a profile word, the length in words, the words. */
  function Extension(profile: nat, words: nat, ext: seq<byte>): (r: seq<byte>)
    requires profile < SEQ && words < SEQ && |ext| == 4 * words
    ensures |r| == 4 + 4 * words && 256 * (r[2] as int) + r[3] == words
  {
    [profile / 256, profile % 256, words / 256, words % 256] + ext
  }

  /** An RTP header: `b1` holds the marker and the payload type, `rest` the timestamp and the SSRC. */
  function RtpHeader(padded: bool, b1: byte, seqno: nat, rest: seq<byte>, csrc: seq<byte>,
                     ext: Option<(nat, seq<byte>)>): (r: seq<byte>)
    requires seqno < SEQ && |rest| == 8 && |csrc| < 64 && |csrc| % 4 == 0
    requires ext.Some? ==> ext.value.0 < SEQ && |ext.value.1| % 4 == 0 && |ext.value.1| / 4 < SEQ
    ensures |r| == 12 + |csrc| + (if ext.Some? then 4 + |ext.value.1| else 0)
    ensures r[0] == FirstByte(padded, ext.Some?, |csrc| / 4) && 256 * (r[2] as int) + r[3] == seqno
    ensures ext.Some? ==> 256 * (r[14 + |csrc|] as int) + r[15 + |csrc|] == |ext.value.1| / 4
  {
    [FirstByte(padded, ext.Some?, |csrc| / 4), b1, seqno / 256, seqno % 256] + (rest + csrc)
      + (if ext.Some? then Extension(ext.value.0, |ext.value.1| / 4, ext.value.1) else [])
  }

  /**
   Written datagrams are accepted, and what is accepted is the sequence number, the header's
   extent, and the bytes without padding.
   */
  lemma {:induction false} RtpRoundTrip(b1: byte, seqno: nat, rest: seq<byte>, csrc: seq<byte>,
                                        ext: Option<(nat, seq<byte>)>, payload: seq<byte>, padding: seq<byte>)
    requires seqno < SEQ && |rest| == 8 && |csrc| < 64 && |csrc| % 4 == 0
    requires ext.Some? ==> ext.value.0 < SEQ && |ext.value.1| % 4 == 0 && |ext.value.1| / 4 < SEQ
    requires padding != [] ==> |padding| == padding[|padding| - 1]
    requires |RtpHeader(padding != [], b1, seqno, rest, csrc, ext) + payload + padding| <= SLOT_BYTES
    ensures var header := RtpHeader(padding != [], b1, seqno, rest, csrc, ext);
            ParseRtp(header + payload + padding) == Some(Dgram(seqno, |header|, header + payload))
  {
    hide RtpHeader, FirstByte;
    var header := RtpHeader(padding != [], b1, seqno, rest, csrc, ext);
    var data := header + payload + padding;
    FirstByteReads(padding != [], ext.Some?, |csrc| / 4);
    assert data[..|data| - |padding|] == header + payload;
  }

  /** The header of a datagram: version 2, a list of sources, an extension or none, and room for all of it. */
  ghost predicate Framed(data: seq<byte>, padded: bool, b1: byte, seqno: nat, rest: seq<byte>, csrc: seq<byte>,
                         ext: Option<(nat, seq<byte>)>) {
    && seqno < SEQ && |rest| == 8 && |csrc| < 64 && |csrc| % 4 == 0
    && (ext.Some? ==> ext.value.0 < SEQ && |ext.value.1| % 4 == 0 && |ext.value.1| / 4 < SEQ)
    && RtpHeader(padded, b1, seqno, rest, csrc, ext) <= data
    && (padded ==> data[|data| - 1] <= |data| - |RtpHeader(padded, b1, seqno, rest, csrc, ext)|)
  }

  /**
   A datagram is accepted exactly when it starts with a header written by the format and, if it
   says it is padded, has the padding its last byte counts behind the header.
   */
  lemma {:induction false} AcceptedIffFramed(data: seq<byte>)
    requires 12 <= |data| <= SLOT_BYTES
    ensures ParseRtp(data).Some? <==>
              exists padded, b1, seqno, rest, csrc, ext :: Framed(data, padded, b1, seqno, rest, csrc, ext)
  {
    if ParseRtp(data).Some? {
      FramedIfAccepted(data);
    }
    if padded, b1, seqno, rest, csrc, ext :| Framed(data, padded, b1, seqno, rest, csrc, ext) {
      AcceptedIfFramed(data, padded, b1, seqno, rest, csrc, ext);
    }
  }

  lemma AcceptedIfFramed(data: seq<byte>, padded: bool, b1: byte, seqno: nat, rest: seq<byte>, csrc: seq<byte>,
                         ext: Option<(nat, seq<byte>)>)
    requires 12 <= |data| <= SLOT_BYTES && Framed(data, padded, b1, seqno, rest, csrc, ext)
    ensures var header := RtpHeader(padded, b1, seqno, rest, csrc, ext);
            var pad: nat := if padded then data[|data| - 1] else 0;
            ParseRtp(data) == Some(Dgram(seqno, |header|, data[..|data| - pad]))
  {
    hide RtpHeader, FirstByte;
    FirstByteReads(padded, ext.Some?, |csrc| / 4);
    var header := RtpHeader(padded, b1, seqno, rest, csrc, ext);
    assert forall k :: 0 <= k < |header| ==> data[k] == header[k];
  }

  lemma FirstByteIs(b0: byte)
    requires b0 / 64 == 2
    ensures b0 % 16 < 16 && FirstByte((b0 / 32) % 2 == 1, (b0 / 16) % 2 == 1, b0 % 16) == b0
  {}

  /** The extension a header that says it has one holds, none otherwise. */
  function ExtensionOf(data: seq<byte>, base: nat, hdr: nat, extended: bool): Option<(nat, seq<byte>)>
    requires extended ==> base + 4 <= hdr <= |data|
  {
    if extended then Some((256 * (data[base] as int) + data[base + 1], data[base + 4..hdr])) else None
  }

  /** The bytes in front are a header with the parts read off them. */
  lemma HeaderFound(data: seq<byte>, cc: nat, hdr: nat, padded: bool, extended: bool)
    requires cc < 16 && 12 + 4 * cc <= hdr <= |data| && data[0] == FirstByte(padded, extended, cc)
    requires var base := 12 + 4 * cc;
             if extended then base + 4 <= hdr && hdr == base + 4 + 4 * (256 * (data[base + 2] as int) + data[base + 3])
             else hdr == base
    ensures var base := 12 + 4 * cc;
            var ext := ExtensionOf(data, base, hdr, extended);
            && |data[12..base]| % 4 == 0 && |data[12..base]| < 64
            && (ext.Some? ==> |ext.value.1| % 4 == 0 && |ext.value.1| / 4 < SEQ)
            && RtpHeader(padded, data[1], 256 * (data[2] as int) + data[3], data[4..12], data[12..base], ext)
               == data[..hdr]
  {
    hide RtpHeader, FirstByte, Extension;
    var base := 12 + 4 * cc;
    HeadRead(data, base);
    FourTimes(cc);
    assert |data[12..base]| == 4 * cc;
    if extended {
      HasExtension(data, base, hdr);
    } else {
      assert data[..base] + [] == data[..base];
    }
    var ext := ExtensionOf(data, base, hdr, extended);
    HeaderParts(padded, data[1], 256 * (data[2] as int) + data[3], data[4..12], data[12..base], ext, cc, data[..base]);
  }

  lemma HasExtension(data: seq<byte>, base: nat, hdr: nat)
    requires base + 4 <= hdr <= |data|
    requires hdr == base + 4 + 4 * (256 * (data[base + 2] as int) + data[base + 3])
    ensures var ext := ExtensionOf(data, base, hdr, true).value;
            && |ext.1| % 4 == 0 && |ext.1| / 4 < SEQ && ext.0 < SEQ
            && data[..base] + Extension(ext.0, |ext.1| / 4, ext.1) == data[..hdr]
  {
    var e := data[base..hdr];
    ExtensionRead(e);
    assert e[4..] == data[base + 4..hdr];
    hide Extension;
    assert data[..base] + e == data[..hdr];
  }

  /** A header put together from its parts. */
  lemma HeaderParts(padded: bool, b1: byte, seqno: nat, rest: seq<byte>, csrc: seq<byte>,
                    ext: Option<(nat, seq<byte>)>, cc: nat, head: seq<byte>)
    requires seqno < SEQ && |rest| == 8 && |csrc| == 4 * cc && cc < 16 && |csrc| / 4 == cc && |csrc| % 4 == 0
    requires ext.Some? ==> ext.value.0 < SEQ && |ext.value.1| % 4 == 0 && |ext.value.1| / 4 < SEQ
    requires [FirstByte(padded, ext.Some?, cc), b1, seqno / 256, seqno % 256] + (rest + csrc) == head
    ensures RtpHeader(padded, b1, seqno, rest, csrc, ext)
         == head + if ext.Some? then Extension(ext.value.0, |ext.value.1| / 4, ext.value.1) else []
  {
    hide FirstByte, Extension;
  }

  lemma FourTimes(n: nat)
    ensures (4 * n) % 4 == 0 && (4 * n) / 4 == n
  {}

  lemma HeadRead(data: seq<byte>, base: nat)
    requires 12 <= base <= |data|
    ensures var seqno := 256 * (data[2] as int) + data[3];
            && seqno / 256 == data[2] && seqno % 256 == data[3]
            && [data[0], data[1], data[2], data[3]] + (data[4..12] + data[12..base]) == data[..base]
  {}

  /** What was checked of an accepted datagram. */
  lemma Checked(data: seq<byte>)
    requires 12 <= |data| <= SLOT_BYTES && ParseRtp(data).Some?
    ensures var b0, hdr := data[0], ParseRtp(data).value.hdr;
            var base, extended := 12 + 4 * (b0 as int % 16), (b0 / 16) % 2 == 1;
            && b0 / 64 == 2 && base <= hdr <= |data|
            && (if extended then base + 4 <= hdr
                && hdr == base + 4 + 4 * (256 * (data[base + 2] as int) + data[base + 3])
                else hdr == base)
            && ((b0 / 32) % 2 == 1 ==> data[|data| - 1] <= |data| - hdr)
  {}

  lemma FramedIfAccepted(data: seq<byte>)
    requires 12 <= |data| <= SLOT_BYTES && ParseRtp(data).Some?
    ensures exists padded, b1, seqno, rest, csrc, ext :: Framed(data, padded, b1, seqno, rest, csrc, ext)
  {
    var cc, hdr, padded, extended := AcceptedParts(data);
    hide FirstByte, ParseRtp, Framed, RtpHeader;
    FramedParts(data, cc, hdr, padded, extended);
  }

  lemma AcceptedParts(data: seq<byte>) returns (cc: nat, hdr: nat, padded: bool, extended: bool)
    requires 12 <= |data| <= SLOT_BYTES && ParseRtp(data).Some?
    ensures cc < 16 && 12 + 4 * cc <= hdr <= |data| && data[0] == FirstByte(padded, extended, cc)
    ensures var base := 12 + 4 * cc;
            if extended then base + 4 <= hdr && hdr == base + 4 + 4 * (256 * (data[base + 2] as int) + data[base + 3])
            else hdr == base
    ensures padded ==> data[|data| - 1] <= |data| - hdr
  {
    Checked(data);
    FirstByteIs(data[0]);
    hide FirstByte, ParseRtp;
    var b0 := data[0];
    cc, hdr, padded, extended := b0 as int % 16, ParseRtp(data).value.hdr, (b0 / 32) % 2 == 1, (b0 / 16) % 2 == 1;
  }

  lemma FramedParts(data: seq<byte>, cc: nat, hdr: nat, padded: bool, extended: bool)
    requires cc < 16 && 12 + 4 * cc <= hdr <= |data| && data[0] == FirstByte(padded, extended, cc)
    requires var base := 12 + 4 * cc;
             if extended then base + 4 <= hdr && hdr == base + 4 + 4 * (256 * (data[base + 2] as int) + data[base + 3])
             else hdr == base
    requires padded ==> data[|data| - 1] <= |data| - hdr
    ensures var base := 12 + 4 * cc;
            Framed(data, padded, data[1], 256 * (data[2] as int) + data[3], data[4..12], data[12..base],
                   ExtensionOf(data, base, hdr, extended))
  {
    hide RtpHeader, FirstByte;
    HeaderFound(data, cc, hdr, padded, extended);
    assert |data[..hdr]| == hdr;
  }

  lemma ExtensionRead(e: seq<byte>)
    requires |e| >= 4 && |e| == 4 + 4 * (256 * (e[2] as int) + e[3])
    ensures |e[4..]| % 4 == 0 && |e[4..]| / 4 == 256 * (e[2] as int) + e[3]
    ensures Extension(256 * (e[0] as int) + e[1], |e[4..]| / 4, e[4..]) == e
  {}

  lemma BareAccepted(seqno: nat)
    requires seqno < SEQ
    ensures var bytes := RtpHeader(false, 0, seqno, Zeros(8), [], None);
            ParseRtp(bytes) == Some(Dgram(seqno, 12, bytes))
  {
    hide RtpHeader, ParseRtp;
    var none: seq<byte> := [];
    var bytes := RtpHeader(none != [], 0, seqno, Zeros(8), [], None);
    assert bytes + none + none == bytes && bytes + none == bytes;
    RtpRoundTrip(0, seqno, Zeros(8), [], None, none, none);
  }

  /** A datagram that is nothing but its header. */
  function Bare(seqno: nat): (d: Dgram)
    requires seqno < SEQ
    ensures DgramOk(d) && d.seqno == seqno && ParseRtp(d.bytes) == Some(d)
  {
    BareAccepted(seqno);
    Dgram(seqno, 12, RtpHeader(false, 0, seqno, Zeros(8), [], None))
  }

  lemma FirstByteReads(padded: bool, extended: bool, cc: nat)
    requires cc < 16
    ensures var b := FirstByte(padded, extended, cc);
            b / 64 == 2 && (b / 32) % 2 == ToNat(padded) && (b / 16) % 2 == ToNat(extended) && b % 16 == cc
  {}

  datatype Slot = Slot(filled: bool, seqno: nat, hdr: nat, len: nat, busy: bool, u: nat)

  datatype Job = Job(slab: nat, len: nat, seqno: nat, hdr: nat, u: nat)

  /** Who has a slab; `k` is the job's place in the log of everything enqueued. */
  datatype Owner = Free | Filled | Dispatching | Queued(k: nat) | Running(k: nat) | Held(k: nat)

  /** Where a dispatch returns to: the force-advance loop or the release loop. */
  datatype Return = ToAdvance(d: Dgram, u: nat) | ToRelease

  datatype Recv =
    | Idle
    | Advance(d: Dgram, u: nat)
    | Store(d: Dgram, u: nat)
    | Write(d: Dgram, u: nat)
    | Release
    | Own(back: Return)
    | Load(back: Return)
    | Put(back: Return)
    | Publish(back: Return)
    | Drop(back: Return)

  datatype Worker = Wait | Take | Pop(job: Job) | Process(job: Job)

  datatype State = State(
    ring: seq<Slot>, slab: seq<seq<byte>>, owner: seq<Owner>,
    started: bool, nextSeq: nat, nextU: nat, startU: nat, pending: nat,
    lost: nat, busyDrops: nat, fullDrops: nat,
    queue: seq<Job>, head: nat, tail: nat, log: seq<Job>, popped: nat,
    stored: map<nat, Dgram>, seen: seq<(Job, seq<byte>)>,
    recv: Recv, worker: Worker)

  predicate Shape(s: State) {
    && |s.ring| == |s.slab| == |s.owner| == RING && |s.queue| == QUEUE
    && s.head < QUEUE && s.tail < QUEUE && s.nextSeq < SEQ
    && ((s.worker.Pop? || s.worker.Process?) ==> s.worker.job.slab < RING)
  }

  function Blank<T>(n: nat, v: T): (r: seq<T>)
    ensures |r| == n && forall i :: 0 <= i < n ==> r[i] == v
  {
    seq(n, _ => v)
  }

  function Init(): (s: State)
    ensures Shape(s)
  {
    State(Blank(RING, Slot(false, 0, 0, 0, false, 0)), Blank(RING, []), Blank(RING, Free),
          false, 0, 0, 0, 0, 0, 0, 0, Blank(QUEUE, Job(0, 0, 0, 0, 0)), 0, 0, [], 0, map[], [], Idle, Wait)
  }

  /** `static_cast<int16_t>(a - b)`. */
  function Diff16(a: nat, b: nat): int {
    var m := (a - b) % SEQ;
    if m < 32768 then m else m - SEQ
  }

  function Head(s: State): (i: nat)
    ensures i < RING
  {
    s.nextSeq % RING
  }

  /** The head slot holds the next datagram. */
  predicate HeadReady(s: State)
    requires Shape(s)
  {
    s.ring[Head(s)].filled && s.ring[Head(s)].seqno == s.nextSeq
  }

  function Bump(s: State): State {
    s.(nextSeq := (s.nextSeq + 1) % SEQ, nextU := s.nextU + 1)
  }

  /** After a dispatch: the head slot is emptied and the head moves on. */
  function Finish(s: State, back: Return): State
    requires Shape(s) && s.pending > 0
  {
    var i := Head(s);
    Bump(s.(ring := s.ring[i := s.ring[i].(filled := false, len := 0)], pending := s.pending - 1,
            recv := match back case ToAdvance(d, u) => Advance(d, u) case ToRelease => Release))
  }

  // --------------------------------------------------------------- receive thread

  /** A datagram arrives at the idle receive thread. */
  function Arrive(s: State, d: Dgram): State {
    var s1 := if s.started then s else s.(started := true, nextSeq := d.seqno, nextU := d.seqno, startU := d.seqno);
    var diff := Diff16(d.seqno, s1.nextSeq);
    if diff < 0 then s1 else s1.(recv := Advance(d, s1.nextU + diff))
  }

  function HeadJob(s: State): Job
    requires Shape(s)
  {
    var i := Head(s);
    Job(i, s.ring[i].len, s.ring[i].seqno, s.ring[i].hdr, s.ring[i].u)
  }

  /** The guards on `pending` only make the step total: a dispatch always has a pending slot. */
  function RecvStep(s: State, depth: nat): (r: State)
    requires Shape(s)
    ensures Shape(r)
  {
    match s.recv
    case Idle => s
    case Advance(d, u) =>
      if Diff16(d.seqno, s.nextSeq) >= depth then
        if HeadReady(s) then s.(recv := Own(ToAdvance(d, u)))
        else Bump(s.(lost := s.lost + 1))
      else s.(recv := Store(d, u))
    case Store(d, u) =>
      var i := d.seqno % RING;
      if s.ring[i].filled then
        if s.ring[i].seqno == d.seqno then s.(recv := Idle)
        else s.(lost := s.lost + 1, recv := Idle)
      else if s.ring[i].busy then s.(busyDrops := s.busyDrops + 1, recv := Idle)
      else s.(recv := Write(d, u))
    case Write(d, u) =>
      var i := d.seqno % RING;
      s.(slab := s.slab[i := d.bytes],
         ring := s.ring[i := Slot(true, d.seqno, d.hdr, |d.bytes|, s.ring[i].busy, u)],
         owner := s.owner[i := Filled], stored := s.stored[u := d],
         pending := s.pending + 1, recv := Release)
    case Release =>
      if s.pending > 0 && HeadReady(s) then s.(recv := Own(ToRelease)) else s.(recv := Idle)
    case Own(back) =>
      var i := Head(s);
      s.(ring := s.ring[i := s.ring[i].(busy := true)], owner := s.owner[i := Dispatching], recv := Load(back))
    case Load(back) =>
      if (s.tail + 1) % QUEUE == s.head then s.(recv := Drop(back)) else s.(recv := Put(back))
    case Put(back) =>
      s.(queue := s.queue[s.tail := HeadJob(s)], recv := Publish(back))
    case Publish(back) =>
      if s.pending == 0 then s
      else Finish(s.(tail := (s.tail + 1) % QUEUE, log := s.log + [HeadJob(s)],
                     owner := s.owner[Head(s) := Queued(|s.log|)]), back)
    case Drop(back) =>
      if s.pending == 0 then s
      else
        var i := Head(s);
        Finish(s.(ring := s.ring[i := s.ring[i].(busy := false)], owner := s.owner[i := Free],
                  fullDrops := s.fullDrops + 1), back)
  }

  // ---------------------------------------------------------------- worker thread

  /** The guards on the slab index and on `popped` only make the step total. */
  function WorkerStep(s: State): (r: State)
    requires Shape(s)
    ensures Shape(r)
  {
    match s.worker
    case Wait => if s.head == s.tail then s else s.(worker := Take)
    case Take => if s.queue[s.head].slab < RING then s.(worker := Pop(s.queue[s.head])) else s
    case Pop(j) =>
      s.(head := (s.head + 1) % QUEUE, popped := s.popped + 1, owner := s.owner[j.slab := Running(s.popped)],
         worker := Process(j))
    case Process(j) =>
      if s.popped == 0 then s
      else if j.hdr <= j.len then
        s.(owner := s.owner[j.slab := Held(s.popped - 1)], seen := s.seen + [(j, s.slab[j.slab])], worker := Wait)
      else
        s.(ring := s.ring[j.slab := s.ring[j.slab].(busy := false)], owner := s.owner[j.slab := Free], worker := Wait)
  }

  /** The hook gives a slab back. */
  function ReleaseSlab(s: State, i: nat): State
    requires Shape(s) && i < RING
  {
    s.(ring := s.ring[i := s.ring[i].(busy := false)], owner := s.owner[i := Free])
  }

  // ------------------------------------------------------------------------ runs

  datatype Label = LArrive(d: Dgram) | LRecv | LWork | LRelease(slab: nat)

  /** One step of either thread or of the hook; a step that is not enabled changes nothing. */
  function Step(s: State, depth: nat, l: Label): (r: State)
    requires Shape(s)
    ensures Shape(r)
  {
    match l
    case LArrive(d) => if s.recv.Idle? && DgramOk(d) then Arrive(s, d) else s
    case LRecv => RecvStep(s, depth)
    case LWork => WorkerStep(s)
    case LRelease(i) => if i < RING && s.owner[i].Held? then ReleaseSlab(s, i) else s
  }

  function Run(depth: nat, ls: seq<Label>): (s: State)
    ensures Shape(s)
  {
    if ls == [] then Init() else Step(Run(depth, ls[..|ls| - 1]), depth, ls[|ls| - 1])
  }
}
