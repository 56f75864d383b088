/**
 A packet written the way the decoder of `PacketHeader` understands it, and the
 round trip: whatever follows in the data, decoding gives back what was written.
 */
module PacketCoding {
  import opened Bytes
  import opened ChainReader
  import opened BitStuffing
  import opened PacketHeader

  /** What a packet says about one code-block. */
  datatype BlockCode =
    | Absent
    | Present(zbp: nat, passes: nat, inc: nat, len0: nat, len1: nat)

  /** Refinement passes that follow the last cleanup pass. */
  function Refs(passes: nat): nat
    requires passes >= 1
  {
    (passes - 1) % 3
  }

  predicate ValidCode(c: BlockCode) {
    c.Present? ==>
      && c.zbp <= ZBP_LIMIT && 1 <= c.passes < MAX_PASSES && 3 + c.inc + Log2(c.passes) <= 16
      && c.len0 != 1 && c.len0 < Pow2(3 + c.inc + Log2(c.passes - Refs(c.passes)))
      && c.len1 < Pow2(3 + c.inc + Log2(Refs(c.passes)))
      && (c.len0 == 0 || Refs(c.passes) == 0 ==> c.len1 == 0)
  }

  function CodeLength(c: BlockCode): nat {
    if c.Absent? then 0 else c.len0 + c.len1
  }

  function Repeat(b: bool, n: nat): (r: seq<bool>)
    ensures |r| == n
  {
    seq(n, _ => b)
  }

  /** `v` on `n` bits. */
  function NumBits(v: nat, n: nat): (r: seq<bool>)
    ensures |r| == n
  {
    if n == 0 then [] else NumBits(v / 2, n - 1) + [v % 2 == 1]
  }

  /** A tag-tree leaf of value `v` decoded against `threshold`. */
  function TagBits(v: nat, threshold: nat): seq<bool> {
    Repeat(false, v) + (if v < threshold then [true] else [])
  }

  /** Table B.4 of ISO/IEC 15444-1. */
  function PassBits(n: nat): seq<bool>
    requires 1 <= n <= 164
  {
    if n == 1 then [false]
    else if n == 2 then [true, false]
    else if n <= 5 then [true, true] + NumBits(n - 3, 2)
    else if n <= 36 then [true, true] + NumBits(3, 2) + NumBits(n - 6, 5)
    else [true, true] + NumBits(3, 2) + NumBits(31, 5) + NumBits(n - 37, 7)
  }

  /** By how much the length field of all passes is wider than that of the cleanup segment. */
  function ExtraWidth(passes: nat): nat
    requires passes >= 1
  {
    var cleanup := passes - Refs(passes);
    if Log2(passes) > Log2(cleanup) then Log2(passes) - Log2(cleanup) else 0
  }

  /** The field behind the length of the cleanup segment. */
  function SecondLengthBits(c: BlockCode): seq<bool>
    requires c.Present? && c.passes >= 1
  {
    var refs := Refs(c.passes);
    if c.len0 == 0 then Repeat(false, ExtraWidth(c.passes))
    else if refs == 0 then []
    else NumBits(c.len1, 3 + c.inc + Log2(refs))
  }

  function LengthBits(c: BlockCode): seq<bool>
    requires c.Present? && c.passes >= 1
  {
    NumBits(c.len0, 3 + c.inc + Log2(c.passes - Refs(c.passes))) + SecondLengthBits(c)
  }

  function IncludedBits(c: BlockCode): seq<bool>
    requires ValidCode(c) && c.Present?
  {
    TagBits(c.zbp, ZBP_LIMIT) + (PassBits(c.passes) + (Repeat(true, c.inc) + [false] + LengthBits(c)))
  }

  function CodeBits(c: BlockCode): seq<bool>
    requires ValidCode(c)
  {
    if c.Absent? then [false] else [true] + IncludedBits(c)
  }

  function HeaderBits(cs: seq<BlockCode>): seq<bool>
    requires forall k :: 0 <= k < |cs| ==> ValidCode(cs[k])
  {
    if cs == [] then [] else CodeBits(cs[0]) + HeaderBits(cs[1..])
  }

  function Join(bodies: seq<seq<byte>>): seq<byte> {
    if bodies == [] then [] else bodies[0] + Join(bodies[1..])
  }

  /** Header (first bit set: not an empty packet), then the bodies. */
  function PacketBytes(cs: seq<BlockCode>, bodies: seq<seq<byte>>): seq<byte>
    requires forall k :: 0 <= k < |cs| ==> ValidCode(cs[k])
  {
    Stuff([true] + HeaderBits(cs), false) + Join(bodies)
  }

  // ------------------------------------------------------ the header decodes back

  /** The bits `e` are found at index `i`. */
  predicate Has(s: seq<bool>, i: nat, e: seq<bool>) {
    i + |e| <= |s| && s[i..i + |e|] == e
  }

  lemma HasParts(s: seq<bool>, i: nat, a: seq<bool>, b: seq<bool>)
    requires Has(s, i, a + b)
    ensures Has(s, i, a) && Has(s, i + |a|, b)
  {
    var w := a + b;
    assert s[i..i + |a|] == s[i..i + |w|][..|a|] == a;
    assert s[i + |a|..i + |w|] == s[i..i + |w|][|a|..] == b;
  }

  lemma HasBit(s: seq<bool>, i: nat, e: seq<bool>, j: nat)
    requires Has(s, i, e) && j < |e|
    ensures At(s, i + j) == e[j]
  {
    assert s[i..i + |e|][j] == e[j];
  }

  lemma {:induction false} NumBitsDecode(s: seq<bool>, i: nat, v: nat, n: nat)
    requires Has(s, i, NumBits(v, n)) && v < Pow2(n)
    ensures BitsVal(s, i, n) == v
  {
    if n > 0 {
      HasParts(s, i, NumBits(v / 2, n - 1), [v % 2 == 1]);
      NumBitsDecode(s, i, v / 2, n - 1);
      HasBit(s, i + n - 1, [v % 2 == 1], 0);
    }
  }

  lemma {:induction false} ZerosDecode(s: seq<bool>, i: nat, n: nat)
    requires Has(s, i, Repeat(false, n))
    ensures BitsVal(s, i, n) == 0
  {
    if n > 0 {
      assert Repeat(false, n) == Repeat(false, n - 1) + [false];
      HasParts(s, i, Repeat(false, n - 1), [false]);
      ZerosDecode(s, i, n - 1);
      HasBit(s, i + n - 1, [false], 0);
    }
  }

  lemma {:induction false} TagDecode(s: seq<bool>, i: nat, from: nat, v: nat, threshold: nat)
    requires from <= v <= threshold && Has(s, i, TagBits(v - from, threshold - from))
    ensures TagTree(s, i, from, threshold) == (v, i + |TagBits(v - from, threshold - from)|)
    decreases v - from
  {
    var e := TagBits(v - from, threshold - from);
    if from < v {
      assert e[0] == false && e == [false] + TagBits(v - (from + 1), threshold - (from + 1));
      HasBit(s, i, e, 0);
      HasParts(s, i, [false], TagBits(v - (from + 1), threshold - (from + 1)));
      TagDecode(s, i + 1, from + 1, v, threshold);
    } else if v < threshold {
      HasBit(s, i, e, 0);
    }
  }

  lemma {:induction false} LblockDecode(s: seq<bool>, i: nat, inc: nat)
    requires Has(s, i, Repeat(true, inc) + [false])
    ensures LblockInc(s, i) == (inc, i + inc + 1)
    decreases inc
  {
    var e := Repeat(true, inc) + [false];
    HasBit(s, i, e, 0);
    if inc > 0 {
      assert e == [true] + (Repeat(true, inc - 1) + [false]);
      HasParts(s, i, [true], Repeat(true, inc - 1) + [false]);
      LblockDecode(s, i + 1, inc - 1);
    }
  }

  /** A count of three or more starts with two ones and a two-bit field. */
  lemma ShortPassDecode(s: seq<bool>, i: nat, v: nat)
    requires v <= 3 && Has(s, i, [true, true] + NumBits(v, 2))
    ensures At(s, i) && At(s, i + 1) && BitsVal(s, i + 2, 2) == v
  {
    ValueBound(s, i, 0);
    HasParts(s, i, [true, true], NumBits(v, 2));
    HasBit(s, i, [true, true], 0);
    HasBit(s, i, [true, true], 1);
    NumBitsDecode(s, i + 2, v, 2);
  }

  lemma LongPassDecode(s: seq<bool>, i: nat, v: nat)
    requires v <= 31 && Has(s, i, [true, true] + NumBits(3, 2) + NumBits(v, 5))
    ensures At(s, i) && At(s, i + 1) && BitsVal(s, i + 2, 2) == 3 && BitsVal(s, i + 4, 5) == v
  {
    ValueBound(s, i, 0);
    HasParts(s, i, [true, true] + NumBits(3, 2), NumBits(v, 5));
    ShortPassDecode(s, i, 3);
    NumBitsDecode(s, i + 4, v, 5);
  }

  lemma PassDecodeFew(s: seq<bool>, i: nat, n: nat)
    requires 1 <= n <= 5 && Has(s, i, PassBits(n))
    ensures PassCount(s, i) == (n, i + |PassBits(n)|)
  {
    hide NumBits, BitsVal;
    if n == 1 {
      HasBit(s, i, [false], 0);
    } else if n == 2 {
      HasBit(s, i, [true, false], 0);
      HasBit(s, i, [true, false], 1);
    } else {
      ShortPassDecode(s, i, n - 3);
    }
  }

  lemma PassDecodeMany(s: seq<bool>, i: nat, n: nat)
    requires 37 <= n <= 164 && Has(s, i, PassBits(n))
    ensures PassCount(s, i) == (n, i + |PassBits(n)|)
  {
    hide NumBits, BitsVal;
    ValueBound(s, i, 0);
    HasParts(s, i, [true, true] + NumBits(3, 2) + NumBits(31, 5), NumBits(n - 37, 7));
    LongPassDecode(s, i, 31);
    NumBitsDecode(s, i + 9, n - 37, 7);
  }

  lemma PassDecode(s: seq<bool>, i: nat, n: nat)
    requires 1 <= n <= 164 && Has(s, i, PassBits(n))
    ensures PassCount(s, i) == (n, i + |PassBits(n)|)
  {
    if n <= 5 {
      PassDecodeFew(s, i, n);
    } else if n <= 36 {
      hide NumBits, BitsVal;
      LongPassDecode(s, i, n - 6);
    } else {
      PassDecodeMany(s, i, n);
    }
  }

  /** The block the decoder must produce from a fresh block `b`. */
  function Expected(c: BlockCode, b: Block): Block {
    if c.Absent? then b.(plhd := true, inclVal := 1, length := 0)
    else
      b.(plhd := c.len0 == 0, incl := true, inclVal := 0, zbp := c.zbp, zbpVal := c.zbp, lblock := 3 + c.inc,
         npasses := c.passes, len0 := c.len0, len1 := c.len1, length := c.len0 + c.len1)
  }

  function SegmentsDone(c: BlockCode, b: Block): Block
    requires c.Present?
  {
    b.(plhd := c.len0 == 0, npasses := c.passes, len0 := c.len0, len1 := c.len1)
  }

  lemma SecondLengthDecode(s: seq<bool>, i: nat, c: BlockCode)
    requires ValidCode(c) && c.Present? && Has(s, i, SecondLengthBits(c))
    ensures BitsVal(s, i, |SecondLengthBits(c)|) == c.len1
  {
    if c.len0 == 0 {
      ZerosDecode(s, i, ExtraWidth(c.passes));
    } else if Refs(c.passes) != 0 {
      NumBitsDecode(s, i, c.len1, 3 + c.inc + Log2(Refs(c.passes)));
    }
  }

  lemma SegmentsDecode(s: seq<bool>, i: nat, c: BlockCode, b: Block)
    requires ValidCode(c) && c.Present? && Has(s, i, LengthBits(c))
    requires b.npasses == 0 && b.len0 == 0 && b.len1 == 0 && b.plhd && b.lblock == 3 + c.inc
    ensures Segments(s, i, b, c.passes) == Decoded(true, SegmentsDone(c, b), i + |LengthBits(c)|)
  {
    hide NumBits, BitsVal, Log2, Pow2, At;
    var w := 3 + c.inc + Log2(c.passes - Refs(c.passes));
    HasParts(s, i, NumBits(c.len0, w), SecondLengthBits(c));
    NumBitsDecode(s, i, c.len0, w);
    SecondLengthDecode(s, i + w, c);
  }

  /** The decoder of an included block, its four fields having been read. */
  lemma IncludedFields(s: seq<bool>, i: nat, b: Block, z: nat, i1: nat, np: nat, i2: nat, inc: nat, i3: nat)
    requires TagTree(s, i, b.zbpVal, ZBP_LIMIT) == (z, i1) && PassCount(s, i1) == (np, i2)
             && LblockInc(s, i2) == (inc, i3)
    requires b.npasses + np < MAX_PASSES && 3 + inc + Log2(np) <= 16
    ensures IncludedBlock(s, i, b) == Segments(s, i3, b.(incl := true, zbp := z, zbpVal := z, lblock := 3 + inc), np)
  {}

  lemma IncludedDecode(s: seq<bool>, i: nat, c: BlockCode, b: Block)
    requires ValidCode(c) && c.Present? && Fresh(b) && b.plhd && Has(s, i, IncludedBits(c))
    ensures IncludedBlock(s, i, b)
         == Decoded(true, SegmentsDone(c, b.(incl := true, zbp := c.zbp, zbpVal := c.zbp, lblock := 3 + c.inc)),
                    i + |IncludedBits(c)|)
  {
    hide PassBits, PassCount, Segments, LengthBits, TagBits, Log2, TagTree, LblockInc;
    var z, p, l := TagBits(c.zbp, ZBP_LIMIT), PassBits(c.passes), Repeat(true, c.inc) + [false];
    HasParts(s, i, z, p + (l + LengthBits(c)));
    HasParts(s, i + |z|, p, l + LengthBits(c));
    HasParts(s, i + |z| + |p|, l, LengthBits(c));
    TagDecode(s, i, 0, c.zbp, ZBP_LIMIT);
    PassDecode(s, i + |z|, c.passes);
    LblockDecode(s, i + |z| + |p|, c.inc);
    IncludedFields(s, i, b, c.zbp, i + |z|, c.passes, i + |z| + |p|, c.inc, i + |z| + |p| + |l|);
    SegmentsDecode(s, i + |z| + |p| + |l|, c, b.(incl := true, zbp := c.zbp, zbpVal := c.zbp, lblock := 3 + c.inc));
  }

  lemma BlockDecode(s: seq<bool>, i: nat, c: BlockCode, b: Block)
    requires ValidCode(c) && Fresh(b) && Has(s, i, CodeBits(c))
    ensures DecodeBlock(s, i, b) == Decoded(true, Expected(c, b), i + |CodeBits(c)|)
  {
    if c.Present? {
      HasParts(s, i, [true], IncludedBits(c));
      HasBit(s, i, [true], 0);
      assert TagTree(s, i, 0, 1) == (0, i + 1);
      IncludedDecode(s, i + 1, c, b.(plhd := true, inclVal := 0));
    } else {
      HasBit(s, i, [false], 0);
      assert TagTree(s, i + 1, 1, 1) == (1, i + 1);
      assert TagTree(s, i, 0, 1) == (1, i + 1);
    }
  }

  predicate ValidCodes(cs: seq<BlockCode>) {
    forall k :: 0 <= k < |cs| ==> ValidCode(cs[k])
  }

  /** From block `k` on the blocks are fresh. */
  predicate FreshFrom(bs: seq<Block>, k: nat) {
    forall j :: k <= j < |bs| ==> Fresh(bs[j])
  }

  /** The decoded blocks, from block `k` on. */
  predicate DecodedFrom(cs: seq<BlockCode>, bs: seq<Block>, bs': seq<Block>, k: nat)
    requires |cs| == |bs|
  {
    && |bs'| == |bs|
    && (forall j :: 0 <= j < |bs| && j < k ==> bs'[j] == bs[j])
    && (forall j :: k <= j < |bs| ==> bs'[j] == Expected(cs[j], bs[j]))
  }

  lemma {:induction false} HeaderDecode(s: seq<bool>, i: nat, cs: seq<BlockCode>, bs: seq<Block>, k: nat)
    requires |cs| == |bs| && k <= |bs| && ValidCodes(cs) && FreshFrom(bs, k)
    requires Has(s, i, HeaderBits(cs[k..]))
    ensures var d := DecodeFrom(s, i, bs, k);
            d.ok && d.next == i + |HeaderBits(cs[k..])| && DecodedFrom(cs, bs, d.blocks, k)
    decreases |bs| - k
  {
    hide CodeBits, DecodeBlock, ValidCode;
    if k < |bs| {
      assert cs[k..][0] == cs[k] && cs[k..][1..] == cs[k + 1..];
      HasParts(s, i, CodeBits(cs[k]), HeaderBits(cs[k + 1..]));
      BlockDecode(s, i, cs[k], bs[k]);
      var bs' := bs[k := Expected(cs[k], bs[k])];
      HeaderDecode(s, i + |CodeBits(cs[k])|, cs, bs', k + 1);
    }
  }

  // ------------------------------------------------------- the bodies come back

  lemma HoldsParts(data: seq<byte>, pos: nat, a: seq<byte>, b: seq<byte>)
    requires HoldsAt(data, pos, a + b)
    ensures HoldsAt(data, pos, a) && HoldsAt(data, pos + |a|, b)
  {
    var w := a + b;
    assert data[pos..pos + |a|] == data[pos..pos + |w|][..|a|] == a;
    assert data[pos + |a|..pos + |a| + |b|] == data[pos..pos + |w|][|a|..] == b;
  }

  /**
   The cleanup segment of `len0` bytes ends in the suffix length `v`: its high eight bits are
   the segment's last byte, its low four those of the byte before.
   */
  predicate EndsIn(body: seq<byte>, len0: nat, v: nat) {
    2 <= len0 <= |body| && v < 4096 && body[len0 - 1] == v / 16 && body[len0 - 2] % 16 == v % 16
  }

  /** The suffix length read is the one the body ends in; without a body it is left alone. */
  predicate SuffixOf(body: seq<byte>, len0: nat, was: nat, scup: nat) {
    && (forall v :: 0 <= v < 4096 && EndsIn(body, len0, v) ==> scup == v)
    && (body == [] ==> scup == was)
  }

  predicate BodiesFit(bs: seq<Block>, bodies: seq<seq<byte>>) {
    |bodies| == |bs| && forall k :: 0 <= k < |bs| ==> |bodies[k]| == bs[k].length
  }

  /** Blocks `k` on have their bodies and are otherwise as before. */
  predicate BodiesFrom(bs: seq<Block>, bodies: seq<seq<byte>>, bs': seq<Block>, k: nat)
    requires |bodies| == |bs|
  {
    && |bs'| == |bs|
    && (forall j :: 0 <= j < |bs| && j < k ==> bs'[j] == bs[j])
    && (forall j :: k <= j < |bs| ==>
          && bs'[j].data == bodies[j] && bs'[j].(data := bs[j].data, scup := bs[j].scup) == bs[j]
          && SuffixOf(bodies[j], bs[j].len0, bs[j].scup, bs'[j].scup))
  }

  /** Whatever value the two bytes hold, it comes back. */
  lemma {:induction false} SuffixRead(b: Block, t: Option<seq<byte>>, body: seq<byte>)
    requires Settled(b) && |body| == b.length && (t.Some? ==> t.value == body) && (t.None? ==> body == [])
    ensures var r := WithBody(b, t);
            && r.data == body && r.(data := b.data, scup := b.scup) == b && Settled(r)
            && SuffixOf(body, b.len0, b.scup, r.scup)
  {}

  lemma {:induction false} BodiesDecode(data: seq<byte>, rd: Reader, bs: seq<Block>, bodies: seq<seq<byte>>, k: nat)
    requires AllSettled(bs, |bs|) && k <= |bs| && BodiesFit(bs, bodies)
    requires HoldsAt(data, rd.pos, Join(bodies[k..]))
    ensures var (bs', rd') := TakeFrom(data, rd, bs, k);
            BodiesFrom(bs, bodies, bs', k) && rd' == rd.(pos := rd.pos + |Join(bodies[k..])|)
    decreases |bs| - k
  {
    if k < |bs| {
      assert bodies[k..][0] == bodies[k] && bodies[k..][1..] == bodies[k + 1..];
      HoldsParts(data, rd.pos, bodies[k], Join(bodies[k + 1..]));
      BodyTaken(data, rd, bodies[k]);
      var (t, rd1) := Take(data, rd, bs[k].length);
      SuffixRead(bs[k], t, bodies[k]);
      var b := WithBody(bs[k], t);
      assert BodiesFit(bs[k := b], bodies) && AllSettled(bs[k := b], |bs|);
      hide WithBody, SuffixOf, Take, HoldsAt, BodiesFrom, BodiesFit, Settled;
      BodiesDecode(data, rd1, bs[k := b], bodies, k + 1);
      BodiesOn(bs, b, bodies, TakeFrom(data, rd, bs, k).0, k);
    } else {
      NoBodies(bs, bodies);
    }
  }

  lemma NoBodies(bs: seq<Block>, bodies: seq<seq<byte>>)
    requires |bodies| == |bs|
    ensures BodiesFrom(bs, bodies, bs, |bs|)
  {}

  lemma BodiesOn(bs: seq<Block>, b: Block, bodies: seq<seq<byte>>, bs': seq<Block>, k: nat)
    requires |bodies| == |bs| && k < |bs| && BodiesFrom(bs[k := b], bodies, bs', k + 1)
    requires b.data == bodies[k] && b.(data := bs[k].data, scup := bs[k].scup) == bs[k]
    requires SuffixOf(bodies[k], bs[k].len0, bs[k].scup, b.scup)
    ensures BodiesFrom(bs, bodies, bs', k)
  {
    hide SuffixOf;
  }

  /** A body that is there is taken whole. */
  lemma BodyTaken(data: seq<byte>, rd: Reader, body: seq<byte>)
    requires HoldsAt(data, rd.pos, body)
    ensures var (t, r) := Take(data, rd, |body|);
            && (t.Some? ==> t.value == body) && (t.None? ==> body == []) && r == rd.(pos := rd.pos + |body|)
  {}

  // ----------------------------------------------------------------- round trip

  /** The header alone: its bits decode to the codes, and the flush stops behind it. */
  lemma {:induction false} HeaderRoundTrip(before: seq<byte>, cs: seq<BlockCode>, behind: seq<byte>, bs: seq<Block>)
    requires |cs| == |bs| && ValidCodes(cs) && FreshFrom(bs, 0)
    ensures var w := Stuff([true] + HeaderBits(cs), false);
            var data := before + w + behind;
            var rd := Reader(|before|, 0, 0);
            var d := DecodeFrom(Avail(data, rd), 1, bs, 0);
            && At(Avail(data, rd), 0) && d.ok && DecodedFrom(cs, bs, d.blocks, 0)
            && FlushBits(After(data, rd, d.next)) == Reader(|before + w|, 0, 0)
  {
    hide HeaderBits, Stuff, DecodeFrom, After, Avail, ValidCode, BitsVal;
    var h := HeaderBits(cs);
    var bits := [true] + h;
    var data := before + Stuff(bits, false) + behind;
    StuffingRoundTrip(before, bits, behind);
    var s := Avail(data, Reader(|before|, 0, 0));
    assert cs[0..] == cs && bits[1..1 + |h|] == h;
    HeaderDecode(bits, 1, cs, bs, 0);
    DecodeFromLocal(bits, s, 1, bs, 0);
  }

  /** Code, block and body agree: what a decoded packet must show for one block. */
  predicate Carries(c: BlockCode, body: seq<byte>, was: Block, b: Block) {
    && b.data == body && b.(data := was.data, scup := was.scup) == Expected(c, was)
    && SuffixOf(body, b.len0, was.scup, b.scup)
  }

  /**
   Decoding a written packet, anywhere in any data, succeeds; it recovers inclusion,
   zero bit-planes, pass counts, both segment lengths and every body, and leaves the
   reader byte-aligned right behind the packet.
   */
  lemma {:induction false} PacketRoundTrip(before: seq<byte>, cs: seq<BlockCode>, bodies: seq<seq<byte>>,
                                           behind: seq<byte>, bs: seq<Block>)
    requires |cs| == |bs| == |bodies| && ValidCodes(cs) && FreshFrom(bs, 0)
    requires forall k :: 0 <= k < |cs| ==> |bodies[k]| == CodeLength(cs[k])
    ensures var r := ReadPacket(before + PacketBytes(cs, bodies) + behind, Reader(|before|, 0, 0), bs);
            && r.ok && r.rd == Reader(|before + PacketBytes(cs, bodies)|, 0, 0)
            && |r.blocks| == |bs|
            && forall k :: 0 <= k < |bs| ==> Carries(cs[k], bodies[k], bs[k], r.blocks[k])
  {
    hide HeaderBits, Stuff, DecodeFrom, TakeFrom, Join, After, Avail, ValidCode;
    var bits := [true] + HeaderBits(cs);
    var w := Stuff(bits, false);
    var data := before + PacketBytes(cs, bodies) + behind;
    assert data == before + w + (Join(bodies) + behind);
    HeaderRoundTrip(before, cs, Join(bodies) + behind, bs);
    var rd := Reader(|before|, 0, 0);
    var d := DecodeFrom(Avail(data, rd), 1, bs, 0);
    var rd1 := FlushBits(After(data, rd, d.next));
    assert HoldsAt(data, |before + w|, Join(bodies)) by {
      assert data == (before + w) + Join(bodies) + behind;
    }
    assert bodies[0..] == bodies;
    BodiesDecode(data, rd1, d.blocks, bodies, 0);
  }

  /** An empty packet is one zero bit: nothing but the cursor changes. */
  lemma {:induction false} EmptyPacketRoundTrip(before: seq<byte>, behind: seq<byte>, bs: seq<Block>)
    requires AllLengthsOk(bs)
    ensures var w := Stuff([false], false);
            ReadPacket(before + w + behind, Reader(|before|, 0, 0), bs)
              == Packet(true, bs, Reader(|before + w|, 0, 0))
  {
    StuffingRoundTrip(before, [false], behind);
  }

  // ------------------------------------------------------------- a bad packet

  /** A header whose first block is included with `n` passes, nothing following. */
  function PassesOnly(n: nat): seq<bool>
    requires 1 <= n <= 164
  {
    [true] + (TagBits(0, 1) + (TagBits(0, ZBP_LIMIT) + PassBits(n)))
  }

  /** A first block with as many passes as the limit or more makes the packet fail, wherever it stands. */
  lemma {:induction false} TooManyPassesFail(before: seq<byte>, n: nat, behind: seq<byte>, bs: seq<Block>)
    requires MAX_PASSES <= n <= 164 && bs != [] && Fresh(bs[0]) && AllLengthsOk(bs)
    ensures var r := ReadPacket(before + Stuff(PassesOnly(n), false) + behind, Reader(|before|, 0, 0), bs);
            !r.ok && |before| < r.rd.pos <= |before + Stuff(PassesOnly(n), false)|
  {
    hide Stuff, Avail, After, PassCount, PassBits, DecodeBlock, PassesOnly;
    var bits := PassesOnly(n);
    var data := before + Stuff(bits, false) + behind;
    var rd := Reader(|before|, 0, 0);
    PassesOnlyFails(n, bs[0]);
    StuffingRoundTrip(before, bits, behind);
    DecodeFromLocal(bits, Avail(data, rd), 1, bs, 0);
    ReadPacketAdvances(data, rd, bs);
  }

  lemma PassesOnlyFails(n: nat, b: Block)
    requires MAX_PASSES <= n <= 164 && Fresh(b)
    ensures var d := DecodeBlock(PassesOnly(n), 1, b);
            !d.ok && d.next == |PassesOnly(n)| && At(PassesOnly(n), 0)
  {
    hide PassCount, PassBits;
    var s := PassesOnly(n);
    assert Has(s, 0, s);
    HasParts(s, 0, [true], TagBits(0, 1) + (TagBits(0, ZBP_LIMIT) + PassBits(n)));
    HasParts(s, 1, TagBits(0, 1), TagBits(0, ZBP_LIMIT) + PassBits(n));
    HasParts(s, 2, TagBits(0, ZBP_LIMIT), PassBits(n));
    TagDecode(s, 1, 0, 0, 1);
    TagDecode(s, 2, 0, 0, ZBP_LIMIT);
    PassDecode(s, 3, n);
  }
}
