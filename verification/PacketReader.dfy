/**
 The packet decoder as it is written: bit by bit from the chain reader, updating
 the blocks.  Every method is proved to compute the function of `PacketHeader` it
 is named after on the chain's bytes.
 */
module PacketReader {
  import opened Bytes
  import opened ChainReader
  import opened BitStuffing
  import opened PacketHeader

  /** The chain reader stands `i` bits behind `rd`. */
  ghost predicate Stands(cs: Codestream, chain: seq<seq<byte>>, rd: Reader, i: nat)
    reads cs
  {
    cs.Valid() && cs.chunks == chain && cs.Rd() == After(Flatten(chain), rd, i)
  }

  ghost function Source(chain: seq<seq<byte>>, rd: Reader): seq<bool> {
    Avail(Flatten(chain), rd)
  }

  method NextBitOf(cs: Codestream, ghost chain: seq<seq<byte>>, ghost rd: Reader, ghost i: nat) returns (b: bool)
    requires Stands(cs, chain, rd, i)
    modifies cs
    ensures Stands(cs, chain, rd, i + 1)
    ensures b == At(Source(chain, rd), i)
  {
    NextBit(Flatten(chain), rd, i);
    b := cs.GetBit();
  }

  method NextBitsOf(cs: Codestream, n: nat, ghost chain: seq<seq<byte>>, ghost rd: Reader, ghost i: nat)
    returns (v: nat)
    requires Stands(cs, chain, rd, i)
    modifies cs
    ensures Stands(cs, chain, rd, i + n)
    ensures v == BitsVal(Source(chain, rd), i, n)
  {
    NextBits(Flatten(chain), rd, i, n);
    v := cs.GetBits(n);
  }

  method TagTreeDecode(cs: Codestream, val: nat, threshold: nat, ghost chain: seq<seq<byte>>, ghost rd: Reader,
                       ghost i: nat)
    returns (cur: nat, ghost j: nat)
    requires Stands(cs, chain, rd, i)
    modifies cs
    ensures Stands(cs, chain, rd, j)
    ensures (cur, j) == TagTree(Source(chain, rd), i, val, threshold)
  {
    cur, j := val, i;
    while cur < threshold
      invariant Stands(cs, chain, rd, j)
      invariant TagTree(Source(chain, rd), i, val, threshold) == TagTree(Source(chain, rd), j, cur, threshold)
      decreases threshold - cur
    {
      var bit := NextBitOf(cs, chain, rd, j);
      j := j + 1;
      if bit {
        return;
      }
      cur := cur + 1;
    }
  }

  method DecodePassCount(cs: Codestream, ghost chain: seq<seq<byte>>, ghost rd: Reader, ghost i: nat)
    returns (n: nat, ghost j: nat)
    requires Stands(cs, chain, rd, i)
    modifies cs
    ensures Stands(cs, chain, rd, j)
    ensures (n, j) == PassCount(Source(chain, rd), i)
  {
    hide Stands, Source, BitsVal;
    var bit := NextBitOf(cs, chain, rd, i);
    n, j := 1 + ToNat(bit), i + 1;
    if n >= 2 {
      bit := NextBitOf(cs, chain, rd, j);
      n, j := n + ToNat(bit), j + 1;
    }
    if n >= 3 {
      var v := NextBitsOf(cs, 2, chain, rd, j);
      n, j := n + v, j + 2;
    }
    if n >= 6 {
      var v := NextBitsOf(cs, 5, chain, rd, j);
      n, j := n + v, j + 5;
    }
    if n >= 37 {
      var v := NextBitsOf(cs, 7, chain, rd, j);
      n, j := n + v, j + 7;
    }
  }

  method GetLblockInc(cs: Codestream, ghost chain: seq<seq<byte>>, ghost rd: Reader, ghost i: nat)
    returns (inc: nat, ghost j: nat)
    requires Stands(cs, chain, rd, i)
    modifies cs
    ensures Stands(cs, chain, rd, j)
    ensures (inc, j) == LblockInc(Source(chain, rd), i)
  {
    ghost var s := Source(chain, rd);
    inc, j := 0, i;
    var bit := NextBitOf(cs, chain, rd, j);
    while bit
      invariant bit == At(s, j)
      invariant Stands(cs, chain, rd, j + 1)
      invariant LblockInc(s, i) == (LblockInc(s, j).0 + inc, LblockInc(s, j).1)
      decreases |s| - j
    {
      inc, j := inc + 1, j + 1;
      bit := NextBitOf(cs, chain, rd, j);
    }
    j := j + 1;
  }

  lemma {:induction false} Log2Between(n: nat, k: nat)
    requires Pow2(k) <= n < 2 * Pow2(k)
    ensures Log2(n) == k
  {
    if k > 0 { Log2Between(n / 2, k - 1); }
  }

  lemma {:induction false} Log2Bounds(n: nat)
    requires n >= 1
    ensures Pow2(Log2(n)) <= n < 2 * Pow2(Log2(n))
  {
    if n > 1 { Log2Bounds(n / 2); }
  }

  lemma {:induction false} Log2Monotone(m: nat, n: nat)
    requires m <= n
    ensures Log2(m) <= Log2(n)
  {
    if m > 1 { Log2Monotone(m / 2, n / 2); }
  }

  /** The doubling loop that widens a length field: one more bit per doubling up to `passes`. */
  method WidenFor(passes: nat, bound: nat, width: nat, ghost k: nat) returns (bound': nat, width': nat)
    requires passes >= 1 && bound == 2 * Pow2(k) && Pow2(k) <= passes
    ensures bound' == 2 * Pow2(Log2(passes)) && width' == width + Log2(passes) - k
  {
    bound', width' := bound, width;
    ghost var d: nat := k;
    while bound' <= passes
      invariant bound' == 2 * Pow2(d) && Pow2(d) <= passes && d >= k && width' == width + d - k
      decreases passes - Pow2(d)
    {
      width' := width' + 1;
      bound' := 2 * bound';
      d := d + 1;
    }
    Log2Between(passes, d);
  }

  /** Placeholder passes: the length field grows bit by bit to the width of all passes. */
  method ExtendLength(cs: Codestream, passes: nat, bound: nat, ghost k: nat,
                      ghost chain: seq<seq<byte>>, ghost rd: Reader, ghost i: nat)
    returns (v: nat, ghost j: nat)
    requires Stands(cs, chain, rd, i) && passes >= 1 && bound == 2 * Pow2(k) && Pow2(k) <= passes
    modifies cs
    ensures Log2(passes) >= k && j == i + Log2(passes) - k
    ensures Stands(cs, chain, rd, j)
    ensures v == BitsVal(Source(chain, rd), i, Log2(passes) - k)
  {
    var b: nat := bound;
    ghost var d: nat := k;
    v, j := 0, i;
    while b <= passes
      invariant b == 2 * Pow2(d) && Pow2(d) <= passes && d >= k && j == i + d - k
      invariant Stands(cs, chain, rd, j)
      invariant v == BitsVal(Source(chain, rd), i, d - k)
      decreases passes - Pow2(d)
    {
      var bit := NextBitOf(cs, chain, rd, j);
      v := 2 * v + ToNat(bit);
      b := 2 * b;
      d, j := d + 1, j + 1;
    }
    Log2Between(passes, d);
  }

  /** The loop over the passes behind the last cleanup pass; `left` never goes below zero. */
  method DecodeRefinement(cs: Codestream, b: Block, refs: nat, ghost chain: seq<seq<byte>>, ghost rd: Reader,
                          ghost i: nat)
    returns (out: Block, ghost j: nat)
    requires Stands(cs, chain, rd, i) && refs <= 2
    modifies cs
    ensures Stands(cs, chain, rd, j)
    ensures if refs == 0 then out == b && j == i
            else
              var w := b.lblock + Log2(refs);
              && out == b.(len1 := b.len1 + BitsVal(Source(chain, rd), i, w), npasses := b.npasses + refs)
              && j == i + w
  {
    out, j := b, i;
    var left: nat, next: nat := refs, 2;
    while left > 0
      invariant Stands(cs, chain, rd, j)
      invariant if left > 0 || refs == 0 then left == refs && next == 2 && out == b && j == i
                else
                  var w := b.lblock + Log2(refs);
                  && out == b.(len1 := b.len1 + BitsVal(Source(chain, rd), i, w), npasses := b.npasses + refs)
                  && j == i + w
      decreases left
    {
      var segmentPasses := if left > 1 then next else 1;
      next := 3 - next;
      var width := out.lblock + Log2(segmentPasses);
      var bytes := NextBitsOf(cs, width, chain, rd, j);
      left := left - segmentPasses;
      out := out.(len1 := out.len1 + bytes, npasses := out.npasses + segmentPasses);
      j := j + width;
    }
  }

  method DecodeSegments(cs: Codestream, b: Block, np: nat, ghost chain: seq<seq<byte>>, ghost rd: Reader, ghost i: nat)
    returns (ok: bool, out: Block, ghost j: nat)
    requires Stands(cs, chain, rd, i) && np >= 1 && b.plhd
    modifies cs
    ensures Stands(cs, chain, rd, j)
    ensures Decoded(ok, out, j) == Segments(Source(chain, rd), i, b, np)
  {
    hide Stands, Source, BitsVal, Log2;
    var refs := (b.npasses + np - 1) % 3;
    if np <= refs {
      var _, width := WidenFor(np, 2, b.lblock, 0);
      var bytes := NextBitsOf(cs, width, chain, rd, i);
      j := i + width;
      return bytes == 0, if bytes == 0 then b.(npasses := b.npasses + np) else b, j;
    }
    var segmentPasses := np - refs;
    var bound, width := WidenFor(segmentPasses, 2, b.lblock, 0);
    var bytes := NextBitsOf(cs, width, chain, rd, i);
    j := i + width;
    if bytes == 0 {
      Log2Bounds(segmentPasses);
      bytes, j := ExtendLength(cs, np, bound, Log2(segmentPasses), chain, rd, j);
      return bytes == 0, if bytes == 0 then b.(npasses := b.npasses + np) else b, j;
    }
    if bytes < 2 {
      return false, b, j;
    }
    out := b.(plhd := false, len0 := bytes, npasses := b.npasses + segmentPasses);
    out, j := DecodeRefinement(cs, out, np - segmentPasses, chain, rd, j);
    ok := true;
  }

  method DecodeBlockOf(cs: Codestream, b: Block, ghost chain: seq<seq<byte>>, ghost rd: Reader, ghost i: nat)
    returns (ok: bool, out: Block, ghost j: nat)
    requires Stands(cs, chain, rd, i)
    modifies cs
    ensures Stands(cs, chain, rd, j)
    ensures Decoded(ok, out, j) == DecodeBlock(Source(chain, rd), i, b)
  {
    hide Stands, Source, TagTree, PassCount, LblockInc, Segments, Log2;
    out := b.(plhd := true);
    var cur: nat;
    cur, j := TagTreeDecode(cs, out.inclVal, 1, chain, rd, i);
    out := out.(inclVal := cur);
    ok := true;
    if cur == 0 {
      var z: nat, np: nat, inc: nat;
      z, j := TagTreeDecode(cs, out.zbpVal, ZBP_LIMIT, chain, rd, j);
      out := out.(incl := true, zbp := z, zbpVal := z, lblock := 3);
      np, j := DecodePassCount(cs, chain, rd, j);
      if out.npasses + np >= MAX_PASSES {
        return false, out, j;
      }
      inc, j := GetLblockInc(cs, chain, rd, j);
      if out.lblock + inc + Log2(np) > 16 {
        return false, out, j;
      }
      out := out.(lblock := out.lblock + inc);
      ok, out, j := DecodeSegments(cs, out, np, chain, rd, j);
      if !ok {
        return;
      }
    }
    out := out.(length := out.len0 + out.len1);
  }

  /** Header of a non-empty packet: every block of every band. */
  method DecodeHeader(cs: Codestream, numBands: nat, perBand: nat, bs: seq<Block>, ghost chain: seq<seq<byte>>,
                      ghost rd: Reader)
    returns (ok: bool, out: seq<Block>, ghost j: nat)
    requires Stands(cs, chain, rd, 1) && |bs| == numBands * perBand
    modifies cs
    ensures Stands(cs, chain, rd, j)
    ensures DecodedAll(ok, out, j) == DecodeFrom(Source(chain, rd), 1, bs, 0)
  {
    hide Stands, Source, DecodeBlock;
    out, j := bs, 1;
    ghost var s := Source(chain, rd);
    for b := 0 to numBands
      invariant |out| == |bs| && b * perBand <= |bs|
      invariant Stands(cs, chain, rd, j)
      invariant DecodeFrom(s, 1, bs, 0) == DecodeFrom(s, j, out, b * perBand)
    {
      BandInRange(b, numBands, perBand);
      for n := 0 to perBand
        invariant |out| == |bs| && b * perBand + n <= |bs|
        invariant Stands(cs, chain, rd, j)
        invariant DecodeFrom(s, 1, bs, 0) == DecodeFrom(s, j, out, b * perBand + n)
      {
        var k := b * perBand + n;
        var blk: Block;
        ok, blk, j := DecodeBlockOf(cs, out[k], chain, rd, j);
        out := out[k := blk];
        if !ok {
          return;
        }
      }
    }
    ok := true;
  }

  lemma BandInRange(b: nat, numBands: nat, perBand: nat)
    requires b < numBands
    ensures b * perBand + perBand == (b + 1) * perBand <= numBands * perBand
  {
    assert (numBands - b - 1) * perBand >= 0;
  }

  /** Code-block bodies behind the header, in the same order. */
  method TakeBodies(cs: Codestream, numBands: nat, perBand: nat, bs: seq<Block>) returns (out: seq<Block>)
    requires cs.Valid() && |bs| == numBands * perBand && AllSettled(bs, |bs|)
    modifies cs
    ensures cs.Valid() && cs.chunks == old(cs.chunks)
    ensures (out, cs.Rd()) == TakeFrom(cs.Data(), old(cs.Rd()), bs, 0)
  {
    hide Flatten, Take, WithBody;
    out := bs;
    ghost var data, rd := cs.Data(), cs.Rd();
    for b := 0 to numBands
      invariant |out| == |bs| && AllSettled(out, |out|) && b * perBand <= |bs|
      invariant cs.Valid() && cs.chunks == old(cs.chunks)
      invariant TakeFrom(data, rd, bs, 0) == TakeFrom(data, cs.Rd(), out, b * perBand)
    {
      BandInRange(b, numBands, perBand);
      for n := 0 to perBand
        invariant |out| == |bs| && AllSettled(out, |out|) && b * perBand + n <= |bs|
        invariant cs.Valid() && cs.chunks == old(cs.chunks)
        invariant TakeFrom(data, rd, bs, 0) == TakeFrom(data, cs.Rd(), out, b * perBand + n)
      {
        var k := b * perBand + n;
        var t := cs.TakeContiguous(out[k].length);
        out := out[k := WithBody(out[k], t)];
      }
    }
  }

  /** One packet, on blocks laid out `numBands` by `perBand`. */
  method ReadPacketOf(cs: Codestream, numBands: nat, perBand: nat, bs: seq<Block>) returns (ok: bool, out: seq<Block>)
    requires cs.Valid() && |bs| == numBands * perBand && AllLengthsOk(bs)
    modifies cs
    ensures cs.Valid() && cs.chunks == old(cs.chunks)
    ensures Packet(ok, out, cs.Rd()) == ReadPacket(cs.Data(), old(cs.Rd()), bs)
  {
    hide DecodeFrom, TakeFrom;
    ghost var chain, rd, j := cs.chunks, cs.Rd(), 0;
    var bit := NextBitOf(cs, chain, rd, 0);
    if !bit {
      cs.Flush();
      return true, bs;
    }
    ok, out, j := DecodeHeader(cs, numBands, perBand, bs, chain, rd);
    if !ok {
      return;
    }
    cs.Flush();
    out := TakeBodies(cs, numBands, perBand, out);
  }
}
