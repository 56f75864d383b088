/**
 Exactly the packets that follow the coding rules are accepted: a header decodes if and only if
 its bits are the coding of some valid codes, and then to those codes.  Bits past the end of the
 data count as zeros.
 */
module PacketExact {
  import opened Bytes
  import opened ChainReader
  import opened BitStuffing
  import opened PacketHeader
  import opened PacketCoding

  /** The `n` bits from `i` on. */
  function Bits(s: seq<bool>, i: nat, n: nat): (r: seq<bool>)
    ensures |r| == n
  {
    seq(n, k requires 0 <= k < n => At(s, i + k))
  }

  lemma BitsSplit(s: seq<bool>, i: nat, m: nat, n: nat)
    ensures Bits(s, i, m + n) == Bits(s, i, m) + Bits(s, i + m, n)
  {}

  /** The bits between two indices spell `e`. */
  predicate Spells(s: seq<bool>, i: nat, j: nat, e: seq<bool>) {
    j == i + |e| && Bits(s, i, |e|) == e
  }

  lemma SpellsOn(s: seq<bool>, i: nat, j: nat, k: nat, a: seq<bool>, b: seq<bool>)
    requires Spells(s, i, j, a) && Spells(s, j, k, b)
    ensures Spells(s, i, k, a + b)
  {
    BitsSplit(s, i, |a|, |b|);
  }

  lemma SpellsBit(s: seq<bool>, i: nat)
    ensures Spells(s, i, i + 1, [At(s, i)])
  {}

  // ------------------------------------------------ what was read is what it codes

  lemma {:induction false} NumberSpelt(s: seq<bool>, i: nat, n: nat)
    ensures Spells(s, i, i + n, NumBits(BitsVal(s, i, n), n)) && BitsVal(s, i, n) < Pow2(n)
  {
    hide Bits;
    if n > 0 {
      NumberSpelt(s, i, n - 1);
      SpellsBit(s, i + n - 1);
      var v := BitsVal(s, i, n);
      assert v / 2 == BitsVal(s, i, n - 1) && (v % 2 == 1) == At(s, i + n - 1);
      SpellsOn(s, i, i + n - 1, i + n, NumBits(v / 2, n - 1), [v % 2 == 1]);
    } else {
      assert Bits(s, i, 0) == [];
    }
  }

  lemma {:induction false} ZerosSpelt(s: seq<bool>, i: nat, n: nat)
    requires BitsVal(s, i, n) == 0
    ensures Spells(s, i, i + n, Repeat(false, n))
  {
    if n > 0 {
      ZerosSpelt(s, i, n - 1);
      SpellsBit(s, i + n - 1);
      SpellsOn(s, i, i + n - 1, i + n, Repeat(false, n - 1), [false]);
      assert Repeat(false, n) == Repeat(false, n - 1) + [false];
    }
  }

  lemma {:induction false} TagSpelt(s: seq<bool>, i: nat, from: nat, threshold: nat)
    requires from <= threshold
    ensures var (v, j) := TagTree(s, i, from, threshold);
            from <= v <= threshold && Spells(s, i, j, TagBits(v - from, threshold - from))
    decreases threshold - from
  {
    var (v, j) := TagTree(s, i, from, threshold);
    if from < threshold {
      SpellsBit(s, i);
      if !At(s, i) {
        TagSpelt(s, i + 1, from + 1, threshold);
        SpellsOn(s, i, i + 1, j, [false], TagBits(v - (from + 1), threshold - (from + 1)));
        assert TagBits(v - from, threshold - from) == [false] + TagBits(v - (from + 1), threshold - (from + 1));
      } else {
        assert TagBits(0, threshold - from) == [true];
      }
    }
  }

  lemma {:induction false} LblockSpelt(s: seq<bool>, i: nat)
    ensures var (k, j) := LblockInc(s, i);
            Spells(s, i, j, Repeat(true, k) + [false])
    decreases |s| - i
  {
    var (k, j) := LblockInc(s, i);
    SpellsBit(s, i);
    if At(s, i) {
      LblockSpelt(s, i + 1);
      SpellsOn(s, i, i + 1, j, [true], Repeat(true, k - 1) + [false]);
      assert Repeat(true, k) + [false] == [true] + (Repeat(true, k - 1) + [false]);
    } else {
      assert Repeat(true, 0) + [false] == [false];
    }
  }

  /** Two ones and a two-bit field. */
  lemma ShortSpelt(s: seq<bool>, i: nat)
    requires At(s, i) && At(s, i + 1)
    ensures BitsVal(s, i + 2, 2) <= 3
    ensures Spells(s, i, i + 4, [true, true] + NumBits(BitsVal(s, i + 2, 2), 2))
  {
    hide NumBits, Bits;
    ValueBound(s, i + 2, 2);
    SpellsBit(s, i);
    SpellsBit(s, i + 1);
    SpellsOn(s, i, i + 1, i + 2, [true], [true]);
    assert [true] + [true] == [true, true];
    NumberSpelt(s, i + 2, 2);
    SpellsOn(s, i, i + 2, i + 4, [true, true], NumBits(BitsVal(s, i + 2, 2), 2));
  }

  lemma LongSpelt(s: seq<bool>, i: nat)
    requires At(s, i) && At(s, i + 1) && BitsVal(s, i + 2, 2) == 3
    ensures BitsVal(s, i + 4, 5) <= 31
    ensures Spells(s, i, i + 9, [true, true] + NumBits(3, 2) + NumBits(BitsVal(s, i + 4, 5), 5))
  {
    hide NumBits, Bits;
    ShortSpelt(s, i);
    ValueBound(s, i + 4, 5);
    NumberSpelt(s, i + 4, 5);
    SpellsOn(s, i, i + 4, i + 9, [true, true] + NumBits(3, 2), NumBits(BitsVal(s, i + 4, 5), 5));
  }

  lemma PassSpelt(s: seq<bool>, i: nat)
    ensures var (n, j) := PassCount(s, i);
            Spells(s, i, j, PassBits(n))
  {
    hide NumBits, BitsVal, Bits, Spells;
    SpellsBit(s, i);
    if At(s, i) {
      SpellsBit(s, i + 1);
      SpellsOn(s, i, i + 1, i + 2, [true], [At(s, i + 1)]);
      assert [true] + [At(s, i + 1)] == [true, At(s, i + 1)];
      if At(s, i + 1) {
        ShortSpelt(s, i);
        if BitsVal(s, i + 2, 2) == 3 {
          LongSpelt(s, i);
          if BitsVal(s, i + 4, 5) == 31 {
            ValueBound(s, i + 9, 7);
            NumberSpelt(s, i + 9, 7);
            SpellsOn(s, i, i + 9, i + 16, [true, true] + NumBits(3, 2) + NumBits(31, 5),
                     NumBits(BitsVal(s, i + 9, 7), 7));
          }
        }
      }
    }
  }

  /** The lengths of a fresh block: the first field, and then what depends on it. */
  lemma SegmentsFresh(s: seq<bool>, i: nat, b: Block, np: nat)
    requires np >= 1 && b.npasses == 0 && b.len0 == 0 && b.len1 == 0 && b.plhd && Segments(s, i, b, np).ok
    ensures var refs := Refs(np);
            var w := b.lblock + Log2(np - refs);
            var v, d := BitsVal(s, i, w), Segments(s, i, b, np);
            if v == 0 then
              BitsVal(s, i + w, ExtraWidth(np)) == 0 && d == Decoded(true, b.(npasses := np), i + w + ExtraWidth(np))
            else if refs == 0 then v != 1 && d == Decoded(true, b.(plhd := false, len0 := v, npasses := np), i + w)
            else
              var w1 := b.lblock + Log2(refs);
              && v != 1
              && d == Decoded(true, b.(plhd := false, len0 := v, npasses := np, len1 := BitsVal(s, i + w, w1)),
                              i + w + w1)
  {
    hide BitsVal, Log2;
  }

  /** A length field spelt is a length that fits it. */
  lemma LengthSpelt(s: seq<bool>, i: nat, c: BlockCode)
    requires c.Present? && 1 <= c.passes < MAX_PASSES && c.zbp <= ZBP_LIMIT && 3 + c.inc + Log2(c.passes) <= 16
    requires c.len0 == BitsVal(s, i, 3 + c.inc + Log2(c.passes - Refs(c.passes))) != 1
    requires var at := i + 3 + c.inc + Log2(c.passes - Refs(c.passes));
             if c.len0 == 0 then c.len1 == BitsVal(s, at, ExtraWidth(c.passes)) == 0
             else c.len1 == if Refs(c.passes) == 0 then 0 else BitsVal(s, at, 3 + c.inc + Log2(Refs(c.passes)))
    ensures ValidCode(c) && Spells(s, i, i + |LengthBits(c)|, LengthBits(c))
  {
    hide BitsVal, Log2, Spells, NumBits, ExtraWidth, Pow2;
    var refs := Refs(c.passes);
    assert refs <= c.passes;
    hide Refs;
    var w := 3 + c.inc + Log2(c.passes - refs);
    NumberSpelt(s, i, w);
    if c.len0 == 0 {
      ZerosSpelt(s, i + w, ExtraWidth(c.passes));
    } else if refs == 0 {
      NothingSpelt(s, i + w);
    } else {
      NumberSpelt(s, i + w, 3 + c.inc + Log2(refs));
    }
    SpellsOn(s, i, i + w, i + w + |SecondLengthBits(c)|, NumBits(c.len0, w), SecondLengthBits(c));
  }

  lemma SegmentsSpelt(s: seq<bool>, i: nat, b: Block, z: nat, np: nat, inc: nat)
    requires 1 <= np < MAX_PASSES && z <= ZBP_LIMIT && 3 + inc + Log2(np) <= 16
    requires b.npasses == 0 && b.len0 == 0 && b.len1 == 0 && b.plhd && b.lblock == 3 + inc
    requires Segments(s, i, b, np).ok
    ensures var d := Segments(s, i, b, np);
            var c := Present(z, np, inc, d.block.len0, d.block.len1);
            ValidCode(c) && Spells(s, i, d.next, LengthBits(c)) && d.block == SegmentsDone(c, b)
  {
    hide NumBits, BitsVal, Log2, Pow2, Spells, Segments, Refs, ExtraWidth, ValidCode;
    var d := Segments(s, i, b, np);
    SegmentsFresh(s, i, b, np);
    LengthSpelt(s, i, Present(z, np, inc, d.block.len0, d.block.len1));
  }

  /**
   Passes and refinement bytes add up over the packets of a block: what it had is added to what
   a block without any gets.
   */
  lemma {:induction false} SegmentsAdd(s: seq<bool>, i: nat, b: Block, np: nat)
    requires np >= 1
    ensures var d, e := Segments(s, i, b, np), Segments(s, i, b.(len1 := 0), np);
            && d.ok == e.ok && d.next == e.next && d.block == e.block.(len1 := e.block.len1 + b.len1)
            && (d.ok ==> d.block.npasses == b.npasses + np)
  {
    hide BitsVal, Log2;
  }

  /**
   A block that has passes already and gets refinement passes only is accepted if and only if its
   length field is zero; its lengths stay as they are.
   */
  lemma {:induction false} RefinementOnly(s: seq<bool>, i: nat, b: Block, np: nat)
    requires 1 <= np <= (b.npasses + np - 1) % 3
    ensures var d := Segments(s, i, b, np);
            && (d.ok <==> Spells(s, i, d.next, Repeat(false, b.lblock + Log2(np))))
            && d.block == (if d.ok then b.(npasses := b.npasses + np) else b)
            && d.next == i + b.lblock + Log2(np)
  {
    hide BitsVal, Log2, Spells;
    var w := b.lblock + Log2(np);
    if BitsVal(s, i, w) == 0 {
      ZerosSpelt(s, i, w);
    } else if Spells(s, i, i + w, Repeat(false, w)) {
      NoOnes(s, i, w);
    }
  }

  lemma {:induction false} NoOnes(s: seq<bool>, i: nat, n: nat)
    requires Spells(s, i, i + n, Repeat(false, n))
    ensures BitsVal(s, i, n) == 0
  {
    if n > 0 {
      assert Bits(s, i, n)[n - 1] == Repeat(false, n)[n - 1] == false;
      assert Bits(s, i, n - 1) == Bits(s, i, n)[..n - 1];
      assert Repeat(false, n - 1) == Repeat(false, n)[..n - 1];
      NoOnes(s, i, n - 1);
    }
  }

  lemma BlockSpelt(s: seq<bool>, i: nat, b: Block) returns (c: BlockCode)
    requires Fresh(b) && DecodeBlock(s, i, b).ok
    ensures var d := DecodeBlock(s, i, b);
            ValidCode(c) && Spells(s, i, d.next, CodeBits(c)) && d.block == Expected(c, b)
  {
    hide Spells, PassBits, PassCount, Segments, LengthBits, TagBits, Log2, LblockInc, SegmentsDone;
    SpellsBit(s, i);
    if !At(s, i) {
      c := Absent;
      assert TagTree(s, i + 1, 1, 1) == (1, i + 1);
      assert TagTree(s, i, 0, 1) == (1, i + 1);
    } else {
      assert TagTree(s, i, 0, 1) == (0, i + 1);
      c := IncludedSpelt(s, i + 1, b.(plhd := true, inclVal := 0));
      SpellsOn(s, i, i + 1, DecodeBlock(s, i, b).next, [true], IncludedBits(c));
      DoneIsExpected(c, b);
    }
  }

  lemma DoneIsExpected(c: BlockCode, b: Block)
    requires c.Present? && Fresh(b)
    ensures var r := SegmentsDone(c, b.(plhd := true, inclVal := 0, incl := true, zbp := c.zbp, zbpVal := c.zbp,
                                        lblock := 3 + c.inc));
            r.(length := r.len0 + r.len1) == Expected(c, b)
  {}

  lemma IncludedSpelt(s: seq<bool>, i: nat, b: Block) returns (c: BlockCode)
    requires Fresh(b) && b.plhd && IncludedBlock(s, i, b).ok
    ensures var d := IncludedBlock(s, i, b);
            && ValidCode(c) && c.Present? && Spells(s, i, d.next, IncludedBits(c))
            && d.block == SegmentsDone(c, b.(incl := true, zbp := c.zbp, zbpVal := c.zbp, lblock := 3 + c.inc))
  {
    hide Spells, PassBits, PassCount, Segments, LengthBits, TagBits, Log2, TagTree, LblockInc, SegmentsDone;
    var (z, i1) := TagTree(s, i, 0, ZBP_LIMIT);
    var (np, i2) := PassCount(s, i1);
    var (inc, i3) := LblockInc(s, i2);
    TagSpelt(s, i, 0, ZBP_LIMIT);
    PassSpelt(s, i1);
    LblockSpelt(s, i2);
    var b1 := b.(incl := true, zbp := z, zbpVal := z, lblock := 3 + inc);
    IncludedFields(s, i, b, z, i1, np, i2, inc, i3);
    SegmentsSpelt(s, i3, b1, z, np, inc);
    var d := Segments(s, i3, b1, np);
    c := Present(z, np, inc, d.block.len0, d.block.len1);
    SpellsOn(s, i2, i3, d.next, Repeat(true, inc) + [false], LengthBits(c));
    SpellsOn(s, i1, i2, d.next, PassBits(np), Repeat(true, inc) + [false] + LengthBits(c));
    SpellsOn(s, i, i1, d.next, TagBits(z, ZBP_LIMIT), PassBits(np) + (Repeat(true, inc) + [false] + LengthBits(c)));
  }

  lemma {:induction false} HeaderSpelt(s: seq<bool>, i: nat, bs: seq<Block>, k: nat) returns (cs: seq<BlockCode>)
    requires k <= |bs| && FreshFrom(bs, k) && DecodeFrom(s, i, bs, k).ok
    ensures |cs| == |bs| - k && ValidCodes(cs) && Spells(s, i, DecodeFrom(s, i, bs, k).next, HeaderBits(cs))
    decreases |bs| - k
  {
    hide Spells, DecodeBlock, CodeBits, ValidCode;
    if k == |bs| {
      cs := [];
      assert Spells(s, i, i, []) by { NothingSpelt(s, i); }
    } else {
      var c := BlockSpelt(s, i, bs[k]);
      var d := DecodeBlock(s, i, bs[k]);
      var rest := HeaderSpelt(s, d.next, bs[k := d.block], k + 1);
      cs := [c] + rest;
      assert cs[1..] == rest;
      SpellsOn(s, i, d.next, DecodeFrom(s, i, bs, k).next, CodeBits(c), HeaderBits(rest));
    }
  }

  lemma NothingSpelt(s: seq<bool>, i: nat)
    ensures Spells(s, i, i, [])
  {}

  // ----------------------------------------------------------------- and conversely

  /** Bits that spell a header decode to its codes, also where the data ends before them. */
  lemma {:induction false} SpeltDecodes(s: seq<bool>, bs: seq<Block>, cs: seq<BlockCode>)
    requires |cs| == |bs| && ValidCodes(cs) && FreshFrom(bs, 0)
    requires Spells(s, 1, 1 + |HeaderBits(cs)|, HeaderBits(cs))
    ensures var d := DecodeFrom(s, 1, bs, 0);
            d.ok && d.next == 1 + |HeaderBits(cs)| && DecodedFrom(cs, bs, d.blocks, 0)
  {
    hide HeaderBits, DecodeFrom, ValidCode;
    var h := HeaderBits(cs);
    var t := s + Repeat(false, |h| + 1);
    assert t[1..1 + |h|] == h by {
      forall j | 0 <= j < |h| ensures t[1 + j] == h[j] { assert Bits(s, 1, |h|)[j] == At(s, 1 + j); }
    }
    assert cs[0..] == cs;
    HeaderDecode(t, 1, cs, bs, 0);
    DecodeFromLocal(t, s, 1, bs, 0);
  }

  /** The header, from the bit after the first on, codes `cs` for the blocks. */
  predicate Codes(s: seq<bool>, cs: seq<BlockCode>, blocks: nat) {
    |cs| == blocks && ValidCodes(cs) && Spells(s, 1, 1 + |HeaderBits(cs)|, HeaderBits(cs))
  }

  /**
   A packet for fresh blocks is accepted if and only if it is empty or its header codes something
   valid; its blocks are then those the codes say, each with the bytes that follow.
   */
  lemma {:induction false} AcceptedIffCoded(data: seq<byte>, rd: Reader, bs: seq<Block>)
    requires FreshFrom(bs, 0) && AllLengthsOk(bs)
    ensures var s, r := Avail(data, rd), ReadPacket(data, rd, bs);
            && (r.ok <==> !At(s, 0) || exists cs :: Codes(s, cs, |bs|))
            && (forall cs :: At(s, 0) && Codes(s, cs, |bs|) ==> ShowsCodes(cs, bs, r.blocks))
  {
    hide DecodeFrom, TakeFrom, After, Avail, HeaderBits, Spells, ValidCode;
    var s, r := Avail(data, rd), ReadPacket(data, rd, bs);
    if At(s, 0) && r.ok {
      var cs := HeaderSpelt(s, 1, bs, 0);
      SpeltLength(s, 1, DecodeFrom(s, 1, bs, 0).next, HeaderBits(cs));
      assert Codes(s, cs, |bs|);
    }
    forall cs | At(s, 0) && Codes(s, cs, |bs|) ensures r.ok && ShowsCodes(cs, bs, r.blocks) {
      SpeltDecodes(s, bs, cs);
      var d := DecodeFrom(s, 1, bs, 0);
      BodiesKeepCodes(data, FlushBits(After(data, rd, d.next)), d.blocks, 0);
    }
  }

  lemma SpeltLength(s: seq<bool>, i: nat, j: nat, e: seq<bool>)
    requires Spells(s, i, j, e)
    ensures j == i + |e|
  {}

  /** Block by block what the codes say, the bodies aside. */
  predicate ShowsCodes(cs: seq<BlockCode>, bs: seq<Block>, bs': seq<Block>) {
    && |cs| == |bs| == |bs'|
    && forall k :: 0 <= k < |bs| ==> bs'[k].(data := bs[k].data, scup := bs[k].scup) == Expected(cs[k], bs[k])
  }

  lemma {:induction false} BodiesKeepCodes(data: seq<byte>, rd: Reader, bs: seq<Block>, k: nat)
    requires AllSettled(bs, |bs|) && k <= |bs|
    ensures var r := TakeFrom(data, rd, bs, k).0;
            |r| == |bs| && forall j :: 0 <= j < |bs| ==> r[j].(data := bs[j].data, scup := bs[j].scup) == bs[j]
    decreases |bs| - k
  {
    if k < |bs| {
      var (t, rd') := Take(data, rd, bs[k].length);
      BodiesKeepCodes(data, rd', bs[k := WithBody(bs[k], t)], k + 1);
    }
  }
}
