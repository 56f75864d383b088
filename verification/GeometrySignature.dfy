/**
 The geometry signature of a main header: FNV-1a over just those marker segments
 that decide the stream's geometry.
 */
module GeometrySignature {
  import opened Bytes
  import opened ChainReader

  const SOC := 0xFF4F
  const SOD := 0xFF93
  const EOC := 0xFFD9

  /** SIZ, COD, COC, QCD, QCC, DFS, ATK. */
  predicate IsGeometry(marker: nat) {
    marker == 0xFF51 || marker == 0xFF52 || marker == 0xFF53 || marker == 0xFF5C || marker == 0xFF5D
    || marker == 0xFF72 || marker == 0xFF79
  }

  /** Every marker a main header may hold before SOD. */
  predicate IsMarker(marker: nat) {
    0xFF00 <= marker <= 0xFFFF && marker != EOC && marker != SOD
  }

  // ---------------------------------------------------------------- FNV-1a

  const FNV_BASIS: nat := 1469598103934665603
  const FNV_PRIME: nat := 1099511628211
  const WORD: nat := 0x1_0000_0000_0000_0000

  function XorBits(a: nat, b: nat, n: nat): nat {
    if n == 0 then 0 else 2 * XorBits(a / 2, b / 2, n - 1) + (a + b) % 2
  }

  /** `h ^ b` changes the low byte of `h` only. */
  function XorByte(h: nat, b: byte): nat {
    (h / 256) * 256 + XorBits(h % 256, b, 8)
  }

  function MixByte(h: nat, b: byte): nat {
    (XorByte(h, b) * FNV_PRIME) % WORD
  }

  function Fnv(h: nat, bytes: seq<byte>): nat {
    if bytes == [] then h else MixByte(Fnv(h, bytes[..|bytes| - 1]), bytes[|bytes| - 1])
  }

  lemma {:induction false} FnvAppend(h: nat, a: seq<byte>, b: seq<byte>)
    ensures Fnv(h, a + b) == Fnv(Fnv(h, a), b)
  {
    hide MixByte;
    if b == [] {
      assert a + b == a;
    } else {
      FnvAppend(h, a, b[..|b| - 1]);
      assert (a + b)[..|a + b| - 1] == a + b[..|b| - 1];
    }
  }

  // ------------------------------------------------------- headers as segments

  /** A marker segment: its code and what follows its length field. */
  datatype Segment = Segment(marker: nat, payload: seq<byte>)

  predicate SegmentOk(s: Segment) {
    IsMarker(s.marker) && |s.payload| + 2 < 65536
  }

  function Word(v: nat): seq<byte>
    requires v < 65536
  {
    [v / 256, v % 256]
  }

  function SegmentBytes(s: Segment): seq<byte>
    requires SegmentOk(s)
  {
    Word(s.marker) + Word(|s.payload| + 2) + s.payload
  }

  predicate AllOk(segs: seq<Segment>) {
    forall i :: 0 <= i < |segs| ==> SegmentOk(segs[i])
  }

  function SegmentsBytes(segs: seq<Segment>): seq<byte>
    requires AllOk(segs)
  {
    if segs == [] then [] else SegmentBytes(segs[0]) + SegmentsBytes(segs[1..])
  }

  /** The bytes of the geometry segments alone, in order. */
  function GeometryBytes(segs: seq<Segment>): seq<byte>
    requires AllOk(segs)
  {
    if segs == [] then []
    else (if IsGeometry(segs[0].marker) then SegmentBytes(segs[0]) else []) + GeometryBytes(segs[1..])
  }

  /** A header that is framed: SOC, segments, SOD; the rest is not looked at. */
  function HeaderBytes(segs: seq<Segment>, rest: seq<byte>): seq<byte>
    requires AllOk(segs)
  {
    Word(SOC) + SegmentsBytes(segs) + Word(SOD) + rest
  }

  function NonZero(h: nat): nat {
    if h == 0 then 1 else h
  }

  // ------------------------------------------------------------------- the scan

  function Rd16(mh: seq<byte>, off: nat): nat
    requires off + 2 <= |mh|
  {
    256 * (mh[off] as int) + mh[off + 1]
  }

  /** What the scan from `off` with running hash `h` returns: signature and SOD offset, or nothing. */
  function Scan(mh: seq<byte>, off: nat, h: nat): Option<(nat, nat)>
    decreases |mh| - off
  {
    if off + 2 > |mh| then None
    else
      var marker := Rd16(mh, off);
      if marker == SOD then Some((NonZero(h), off + 2))
      else if marker < 0xFF00 || marker == EOC then None
      else if off + 4 > |mh| then None
      else
        var seg := Rd16(mh, off + 2);
        if seg < 2 || off + 2 + seg > |mh| then None
        else Scan(mh, off + 2 + seg, if IsGeometry(marker) then Fnv(h, mh[off..off + 2 + seg]) else h)
  }

  /** Signature 0 means the header is not to be trusted. */
  function Signature(mh: seq<byte>): (nat, nat) {
    if |mh| < 4 || Rd16(mh, 0) != SOC then (0, 0)
    else match Scan(mh, 2, FNV_BASIS)
         case None => (0, 0)
         case Some(r) => r
  }

  method ComputeSignature(mh: seq<byte>) returns (sig: nat, sod: nat)
    ensures (sig, sod) == Signature(mh)
  {
    hide Fnv, MixByte;
    sig, sod := 0, 0;
    if |mh| < 4 || Rd16(mh, 0) != SOC {
      return;
    }
    var h, off: nat := FNV_BASIS, 2;
    while off + 2 <= |mh|
      invariant Scan(mh, 2, FNV_BASIS) == Scan(mh, off, h)
      decreases |mh| - off
    {
      var marker := Rd16(mh, off);
      if marker == SOD {
        return NonZero(h), off + 2;
      }
      if marker < 0xFF00 || marker == EOC {
        return;
      }
      if off + 4 > |mh| {
        return;
      }
      var seg := Rd16(mh, off + 2);
      if seg < 2 || off + 2 + seg > |mh| {
        return;
      }
      if IsGeometry(marker) {
        h := Mix(mh, off, 2 + seg, h);
      }
      off := off + 2 + seg;
    }
  }

  method Mix(mh: seq<byte>, off: nat, n: nat, h0: nat) returns (h: nat)
    requires off + n <= |mh|
    ensures h == Fnv(h0, mh[off..off + n])
  {
    hide MixByte;
    h := h0;
    for i := 0 to n
      invariant h == Fnv(h0, mh[off..off + i])
    {
      h := MixByte(h, mh[off + i]);
      assert mh[off..off + i + 1][..i] == mh[off..off + i];
    }
  }

  // ------------------------------------------------------------------ properties

  predicate HoldsFrom(mh: seq<byte>, off: nat, w: seq<byte>) {
    off + |w| <= |mh| && mh[off..off + |w|] == w
  }

  lemma HoldsSplit(mh: seq<byte>, off: nat, a: seq<byte>, b: seq<byte>)
    requires HoldsFrom(mh, off, a + b)
    ensures HoldsFrom(mh, off, a) && HoldsFrom(mh, off + |a|, b)
  {
    var w := a + b;
    assert mh[off..off + |a|] == mh[off..off + |w|][..|a|] == a;
    assert mh[off + |a|..off + |w|] == mh[off..off + |w|][|a|..] == b;
  }

  lemma ReadWord16(mh: seq<byte>, off: nat, v: nat)
    requires v < 65536 && HoldsFrom(mh, off, Word(v))
    ensures Rd16(mh, off) == v
  {
    assert mh[off..off + 2][0] == v / 256 && mh[off..off + 2][1] == v % 256;
  }

  /** The scan steps over a written segment, mixing it in when it is geometry. */
  lemma ScanSegment(mh: seq<byte>, off: nat, h: nat, s: Segment)
    requires SegmentOk(s) && HoldsFrom(mh, off, SegmentBytes(s))
    ensures Scan(mh, off, h)
         == Scan(mh, off + |SegmentBytes(s)|, if IsGeometry(s.marker) then Fnv(h, SegmentBytes(s)) else h)
  {
    hide Fnv;
    HoldsSplit(mh, off, Word(s.marker) + Word(|s.payload| + 2), s.payload);
    HoldsSplit(mh, off, Word(s.marker), Word(|s.payload| + 2));
    ReadWord16(mh, off, s.marker);
    ReadWord16(mh, off + 2, |s.payload| + 2);
  }

  lemma ScanEnd(mh: seq<byte>, off: nat, h: nat)
    requires HoldsFrom(mh, off, Word(SOD))
    ensures Scan(mh, off, h) == Some((NonZero(h), off + 2)) && |Word(SOD)| == 2
  {
    ReadWord16(mh, off, SOD);
  }

  lemma {:induction false} ScanSegments(mh: seq<byte>, off: nat, h: nat, segs: seq<Segment>)
    requires AllOk(segs) && HoldsFrom(mh, off, SegmentsBytes(segs) + Word(SOD))
    ensures Scan(mh, off, h) == Some((NonZero(Fnv(h, GeometryBytes(segs))), off + |SegmentsBytes(segs)| + 2))
    decreases |segs|
  {
    hide Fnv, SegmentBytes, Scan, Word;
    HoldsSplit(mh, off, SegmentsBytes(segs), Word(SOD));
    if segs == [] {
      ScanEnd(mh, off, h);
      assert Fnv(h, []) == h by { FnvEmpty(h); }
    } else {
      var s, rest := segs[0], segs[1..];
      assert SegmentsBytes(segs) + Word(SOD) == SegmentBytes(s) + (SegmentsBytes(rest) + Word(SOD));
      HoldsSplit(mh, off, SegmentBytes(s), SegmentsBytes(rest) + Word(SOD));
      ScanSegment(mh, off, h, s);
      var h' := if IsGeometry(s.marker) then Fnv(h, SegmentBytes(s)) else h;
      ScanSegments(mh, off + |SegmentBytes(s)|, h', rest);
      if IsGeometry(s.marker) {
        FnvAppend(h, SegmentBytes(s), GeometryBytes(rest));
      } else {
        assert [] + GeometryBytes(rest) == GeometryBytes(rest);
      }
    }
  }

  lemma FnvEmpty(h: nat)
    ensures Fnv(h, []) == h
  {}

  /**
   The signature of a framed header is FNV-1a over its geometry segments in order (0 read
   as 1), and the SOD offset is just past the SOD marker.
   */
  lemma {:induction false} SignatureOfHeader(segs: seq<Segment>, rest: seq<byte>)
    requires AllOk(segs)
    ensures Signature(HeaderBytes(segs, rest))
         == (NonZero(Fnv(FNV_BASIS, GeometryBytes(segs))), |HeaderBytes(segs, [])|)
  {
    hide Fnv, SegmentsBytes, GeometryBytes;
    var mh := HeaderBytes(segs, rest);
    var body := SegmentsBytes(segs) + Word(SOD);
    assert mh == Word(SOC) + body + rest;
    assert mh[2..2 + |body|] == body && mh[0..2] == Word(SOC);
    ReadWord16(mh, 0, SOC);
    ScanSegments(mh, 2, FNV_BASIS, segs);
  }

  /** Headers that differ only in segments that are not geometry have equal signatures. */
  lemma {:induction false} SameGeometrySameSignature(a: seq<Segment>, restA: seq<byte>, b: seq<Segment>,
                                                     restB: seq<byte>)
    requires AllOk(a) && AllOk(b) && GeometryBytes(a) == GeometryBytes(b)
    ensures Signature(HeaderBytes(a, restA)).0 == Signature(HeaderBytes(b, restB)).0 != 0
  {
    SignatureOfHeader(a, restA);
    SignatureOfHeader(b, restB);
  }

  /** A scan that succeeds has stepped over well-formed segments to an SOD. */
  lemma {:induction false} ScanFindsSegments(mh: seq<byte>, off: nat, h: nat) returns (segs: seq<Segment>)
    requires off <= |mh| && Scan(mh, off, h).Some?
    ensures AllOk(segs) && HoldsFrom(mh, off, SegmentsBytes(segs) + Word(SOD))
    decreases |mh| - off
  {
    hide Fnv, IsGeometry, SegmentBytes;
    var marker := Rd16(mh, off);
    if marker == SOD {
      segs := [];
      assert mh[off..off + 2] == Word(SOD);
      assert SegmentsBytes([]) + Word(SOD) == Word(SOD);
    } else {
      var seg := Rd16(mh, off + 2);
      var s := Segment(marker, mh[off + 4..off + 2 + seg]);
      var next := off + 2 + seg;
      var rest := ScanFindsSegments(mh, next, if IsGeometry(marker) then Fnv(h, mh[off..next]) else h);
      segs := [s] + rest;
      SegmentFound(mh, off);
      OneMoreSegment(mh, off, s, rest);
    }
  }

  lemma OneMoreSegment(mh: seq<byte>, off: nat, s: Segment, rest: seq<Segment>)
    requires SegmentOk(s) && AllOk(rest) && HoldsFrom(mh, off, SegmentBytes(s))
    requires HoldsFrom(mh, off + |SegmentBytes(s)|, SegmentsBytes(rest) + Word(SOD))
    ensures AllOk([s] + rest) && HoldsFrom(mh, off, SegmentsBytes([s] + rest) + Word(SOD))
  {
    hide SegmentBytes, Word, SegmentOk;
    var segs := [s] + rest;
    var b, tail := SegmentBytes(s), SegmentsBytes(rest) + Word(SOD);
    assert segs[1..] == rest;
    assert SegmentsBytes(segs) + Word(SOD) == b + tail;
    assert mh[off..off + |b|] + mh[off + |b|..off + |b| + |tail|] == mh[off..off + |b| + |tail|];
  }

  lemma SegmentFound(mh: seq<byte>, off: nat)
    requires off + 4 <= |mh| && IsMarker(Rd16(mh, off))
    requires 2 <= Rd16(mh, off + 2) && off + 2 + Rd16(mh, off + 2) <= |mh|
    ensures var seg := Rd16(mh, off + 2);
            var s := Segment(Rd16(mh, off), mh[off + 4..off + 2 + seg]);
            SegmentOk(s) && SegmentBytes(s) == mh[off..off + 2 + seg]
  {
    var seg := Rd16(mh, off + 2);
    assert mh[off..off + 2 + seg] == [mh[off], mh[off + 1]] + [mh[off + 2], mh[off + 3]] + mh[off + 4..off + 2 + seg];
  }

  /** A header is trusted (non-zero signature) exactly when it is framed. */
  lemma {:induction false} TrustedIffFramed(mh: seq<byte>)
    ensures Signature(mh).0 != 0 <==> exists segs, rest :: AllOk(segs) && mh == HeaderBytes(segs, rest)
  {
    if Signature(mh).0 != 0 {
      var segs := ScanFindsSegments(mh, 2, FNV_BASIS);
      var body := SegmentsBytes(segs) + Word(SOD);
      var rest := mh[2 + |body|..];
      assert mh[..2] == Word(SOC);
      assert mh == mh[..2] + mh[2..2 + |body|] + rest;
      assert mh == HeaderBytes(segs, rest);
    }
    if segs, rest :| AllOk(segs) && mh == HeaderBytes(segs, rest) {
      SignatureOfHeader(segs, rest);
    }
  }
}
