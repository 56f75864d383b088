/** The hash of the geometry signature: what it computes bit by bit, and that it notices a changed byte. */
module SignatureHash {
  import opened Bytes
  import opened GeometrySignature

  /** Bit by bit, the exclusive or. */
  lemma {:induction false} XorBitwise(a: nat, b: nat, n: nat, k: nat)
    ensures Bit(XorBits(a, b, n), k) <==> k < n && Bit(a, k) != Bit(b, k)
  {
    if n == 0 {
      ZeroBits(k);
    } else {
      XorHalves(a, b, n);
      var v := XorBits(a, b, n);
      hide XorBits;
      if k > 0 { XorBitwise(a / 2, b / 2, n - 1, k - 1); }
      assert Bit(v, k) == if k == 0 then v % 2 == 1 else Bit(v / 2, k - 1);
    }
  }

  /** The last bit and the others. */
  lemma XorHalves(a: nat, b: nat, n: nat)
    requires n > 0
    ensures var v := XorBits(a, b, n);
            v / 2 == XorBits(a / 2, b / 2, n - 1) && (v % 2 == 1 <==> (a % 2 == 1) != (b % 2 == 1))
  {
    var x, r := XorBits(a / 2, b / 2, n - 1), (a + b) % 2;
    assert XorBits(a, b, n) == 2 * x + r;
    hide XorBits;
    Parity(a, b);
    TwiceAndOne(x, r);
  }

  lemma Parity(a: nat, b: nat)
    ensures (a + b) % 2 == 1 <==> (a % 2 == 1) != (b % 2 == 1)
  {}

  lemma TwiceAndOne(x: nat, r: nat)
    requires r < 2
    ensures (2 * x + r) / 2 == x && (2 * x + r) % 2 == r
  {}

  lemma {:induction false} ZeroBits(k: nat)
    ensures !Bit(0, k)
  {
    if k > 0 { ZeroBits(k - 1); }
  }

  lemma {:induction false} XorBound(a: nat, b: nat, n: nat)
    ensures XorBits(a, b, n) < Pow2(n)
  {
    if n > 0 { XorBound(a / 2, b / 2, n - 1); }
  }

  /** Different numbers of at most `n` bits have different exclusive ors with the same number, on either side. */
  lemma {:induction false} XorDiffers(a: nat, b: nat, a': nat, b': nat, n: nat)
    requires a < Pow2(n) && b < Pow2(n) && a' < Pow2(n) && b' < Pow2(n)
    requires (a == a') != (b == b')
    ensures XorBits(a, b, n) != XorBits(a', b', n)
  {
    if n > 0 {
      XorHalves(a, b, n);
      XorHalves(a', b', n);
      hide XorBits;
      if (a / 2 == a' / 2) != (b / 2 == b' / 2) { XorDiffers(a / 2, b / 2, a' / 2, b' / 2, n - 1); }
    }
  }

  lemma Pow8()
    ensures Pow2(8) == 256
  {
    assert Pow2(4) == 16;
  }

  lemma LowByte(h: nat, low: nat)
    requires low < 256
    ensures ((h / 256) * 256 + low) / 256 == h / 256 && ((h / 256) * 256 + low) % 256 == low
  {}

  /** One step keeps to sixty-four bits before the multiplication, and tells bytes and hashes apart. */
  lemma XorByteDiffers(h: nat, b: byte, h': nat, b': byte)
    requires h < WORD && h' < WORD && (h == h') != (b == b')
    ensures XorByte(h, b) < WORD && XorByte(h', b') < WORD && XorByte(h, b) != XorByte(h', b')
  {
    hide XorBits, Pow2;
    Pow8();
    var low, low' := XorBits(h % 256, b, 8), XorBits(h' % 256, b', 8);
    XorBound(h % 256, b, 8);
    XorBound(h' % 256, b', 8);
    LowByte(h, low);
    LowByte(h', low');
    if h / 256 == h' / 256 { XorDiffers(h % 256, b, h' % 256, b', 8); }
  }

  /** The prime is odd, so it has an inverse modulo the word: multiplication by it can be undone. */
  const INVERSE: nat := 14886173955864302971

  lemma Undone(x: nat)
    requires x < WORD
    ensures ((x * FNV_PRIME) % WORD * INVERSE) % WORD == x
  {
    var k := (x * FNV_PRIME) / WORD;
    assert FNV_PRIME * INVERSE == 1 + WORD * 887285111055;
    assert (x * FNV_PRIME) % WORD * INVERSE == x + WORD * (x * 887285111055 - k * INVERSE);
    ModuloWord(x, x * 887285111055 - k * INVERSE);
  }

  lemma ModuloWord(x: nat, k: int)
    requires x < WORD
    ensures (x + WORD * k) % WORD == x
  {}

  /** One step of the hash is injective in the byte and in the hash before it. */
  lemma {:induction false} MixDiffers(h: nat, b: byte, h': nat, b': byte)
    requires h < WORD && h' < WORD && (h == h') != (b == b')
    ensures MixByte(h, b) < WORD && MixByte(h', b') < WORD && MixByte(h, b) != MixByte(h', b')
  {
    XorByteDiffers(h, b, h', b');
    var x, y := XorByte(h, b), XorByte(h', b');
    hide XorByte;
    Undone(x);
    Undone(y);
  }

  lemma {:induction false} FnvBound(h: nat, s: seq<byte>)
    requires h < WORD
    ensures Fnv(h, s) < WORD
  {}

  /** Different hashes stay different over the same bytes. */
  lemma {:induction false} FnvApart(h: nat, h': nat, s: seq<byte>)
    requires h < WORD && h' < WORD && h != h'
    ensures Fnv(h, s) != Fnv(h', s)
  {
    hide MixByte;
    if s != [] {
      var init, last := s[..|s| - 1], s[|s| - 1];
      FnvApart(h, h', init);
      FnvBound(h, init);
      FnvBound(h', init);
      MixDiffers(Fnv(h, init), last, Fnv(h', init), last);
    }
  }

  /** Byte strings of the same length that differ in one byte have different hashes. */
  lemma {:induction false} OneByteTells(h: nat, a: seq<byte>, x: byte, y: byte, b: seq<byte>)
    requires h < WORD && x != y
    ensures Fnv(h, a + [x] + b) != Fnv(h, a + [y] + b)
  {
    hide MixByte;
    FnvBound(h, a);
    var g := Fnv(h, a);
    FnvAppend(h, a + [x], b);
    FnvAppend(h, a + [y], b);
    FnvAppend(h, a, [x]);
    FnvAppend(h, a, [y]);
    OneStep(g, x);
    OneStep(g, y);
    MixDiffers(g, x, g, y);
    FnvApart(MixByte(g, x), MixByte(g, y), b);
  }

  lemma OneStep(h: nat, b: byte)
    ensures Fnv(h, [b]) == MixByte(h, b)
  {
    hide MixByte;
    assert [b][..0] == [];
    assert Fnv(h, [b][..0]) == h;
  }

  /**
   Framed headers whose geometry differs in one byte have different signatures, unless one hash is
   0 and the other 1, since 0 is read as 1.
   */
  lemma {:induction false} OneByteChangesSignature(s: seq<Segment>, t: seq<Segment>, restS: seq<byte>, restT: seq<byte>,
                                                   a: seq<byte>, x: byte, y: byte, b: seq<byte>)
    requires AllOk(s) && AllOk(t) && GeometryBytes(s) == a + [x] + b && GeometryBytes(t) == a + [y] + b && x != y
    ensures var (h, g) := (Fnv(FNV_BASIS, GeometryBytes(s)), Fnv(FNV_BASIS, GeometryBytes(t)));
            && h != g
            && (Signature(HeaderBytes(s, restS)).0 == Signature(HeaderBytes(t, restT)).0 <==> {h, g} == {0, 1})
  {
    hide Fnv, Signature, HeaderBytes;
    SignatureOfHeader(s, restS);
    SignatureOfHeader(t, restT);
    OneByteTells(FNV_BASIS, a, x, y, b);
    var (h, g) := (Fnv(FNV_BASIS, GeometryBytes(s)), Fnv(FNV_BASIS, GeometryBytes(t)));
    if NonZero(h) == NonZero(g) {
      assert {h, g} == {0, 1};
    }
    if {h, g} == {0, 1} {
      assert h in {0, 1} && g in {0, 1} && 0 in {h, g};
    }
  }

  lemma {:induction false} GeometryAppend(a: seq<Segment>, b: seq<Segment>)
    requires AllOk(a) && AllOk(b)
    ensures AllOk(a + b) && GeometryBytes(a + b) == GeometryBytes(a) + GeometryBytes(b)
    decreases |a|
  {
    hide SegmentBytes, IsGeometry;
    if a == [] {
      assert a + b == b;
    } else {
      GeometryAppend(a[1..], b);
      assert (a + b)[1..] == a[1..] + b;
    }
  }

  /** What one segment adds to the hashed bytes. */
  function Part(s: Segment): seq<byte>
    requires SegmentOk(s)
  {
    if IsGeometry(s.marker) then SegmentBytes(s) else []
  }

  lemma GeometryAround(segs: seq<Segment>, i: nat, s: Segment)
    requires AllOk(segs) && i < |segs| && SegmentOk(s)
    ensures AllOk(segs[i := s]) && AllOk(segs[..i]) && AllOk(segs[i + 1..])
    ensures GeometryBytes(segs[i := s]) == GeometryBytes(segs[..i]) + Part(s) + GeometryBytes(segs[i + 1..])
  {
    hide SegmentBytes, IsGeometry, SegmentOk;
    var rest := segs[i + 1..];
    assert segs[i := s] == segs[..i] + ([s] + rest);
    assert ([s] + rest)[1..] == rest;
    GeometryAppend(segs[..i], [s] + rest);
  }

  /**
   Changing one payload byte of one segment changes the hash if and only if the segment is SIZ, COD,
   COC, QCD, QCC, DFS or ATK.
   */
  lemma {:induction false} PayloadByteMatters(segs: seq<Segment>, i: nat, j: nat, y: byte)
    requires AllOk(segs) && i < |segs| && j < |segs[i].payload| && y != segs[i].payload[j]
    ensures var other := segs[i := segs[i].(payload := segs[i].payload[j := y])];
            && AllOk(other)
            && (Fnv(FNV_BASIS, GeometryBytes(other)) != Fnv(FNV_BASIS, GeometryBytes(segs)) <==>
                  segs[i].marker in {0xFF51, 0xFF52, 0xFF53, 0xFF5C, 0xFF5D, 0xFF72, 0xFF79})
  {
    hide Fnv, GeometryBytes;
    var s := segs[i];
    var p := s.payload;
    var s' := s.(payload := p[j := y]);
    GeometryAround(segs, i, s);
    GeometryAround(segs, i, s');
    assert segs[i := s] == segs;
    if IsGeometry(s.marker) {
      var front, back := GeometryBytes(segs[..i]), GeometryBytes(segs[i + 1..]);
      var lead := Word(s.marker) + Word(|p| + 2) + p[..j];
      assert SegmentBytes(s) == lead + [p[j]] + p[j + 1..];
      assert SegmentBytes(s') == lead + [y] + p[j + 1..];
      hide SegmentBytes;
      assert front + (lead + [p[j]] + p[j + 1..]) + back == (front + lead) + [p[j]] + (p[j + 1..] + back);
      assert front + (lead + [y] + p[j + 1..]) + back == (front + lead) + [y] + (p[j + 1..] + back);
      OneByteTells(FNV_BASIS, front + lead, p[j], y, p[j + 1..] + back);
    }
  }

  /** A header of SOC and SOD alone has the starting value for its signature; one more byte multiplies by the prime. */
  lemma {:induction false} KnownHashes()
    ensures Signature([0xFF, 0x4F, 0xFF, 0x93]) == (1469598103934665603, 4)
    ensures Fnv(1469598103934665603, [0x61]) == 4953267810257967366
  {
    EmptyHeader();
    OneStep(1469598103934665603, 0x61);
    LowXor();
  }

  lemma EmptyHeader()
    ensures Signature([0xFF, 0x4F, 0xFF, 0x93]) == (1469598103934665603, 4)
  {
    hide Signature;
    SignatureOfHeader([], []);
    assert HeaderBytes([], []) == [0xFF, 0x4F, 0xFF, 0x93];
  }

  lemma LowXor()
    ensures MixByte(1469598103934665603, 0x61) == 4953267810257967366
  {
    LowByteXor();
    hide XorBits;
    assert XorByte(1469598103934665603, 0x61) == 1469598103934665698;
    hide XorByte;
  }

  lemma LowByteXor()
    ensures 1469598103934665603 % 256 == 131 && XorBits(131, 0x61, 8) == 226
  {
    assert XorBits(8, 6, 4) == 14;
  }
}
