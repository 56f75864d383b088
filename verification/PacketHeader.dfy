/**
 The packet of one precinct, HT code-blocks only: the packet header is a bit
 string, the bodies follow it.  The decoders below work on the bit string of
 `BitStuffing` by index; `ReadPacket` puts them on a byte reader.
 */
module PacketHeader {
  import opened Bytes
  import opened ChainReader
  import opened BitStuffing

  const MAX_PASSES := 100
  const ZBP_LIMIT := 14

  /** A code-block with the two tag-tree leaves that belong to it. */
  datatype Block = Block(
    incl: bool, inclVal: nat, zbp: nat, zbpVal: nat, lblock: nat, npasses: nat, plhd: bool,
    len0: nat, len1: nat, length: nat, data: seq<byte>, scup: nat)

  /** As `restart` leaves a block at the start of a frame. */
  predicate Fresh(b: Block) {
    b.inclVal == 0 && b.zbpVal == 0 && b.npasses == 0 && b.len0 == 0 && b.len1 == 0 && b.length == 0
  }

  /** A cleanup segment is absent or at least two bytes, and there is no refinement segment without it. */
  predicate LengthsOk(b: Block) {
    b.len0 != 1 && (b.len0 == 0 ==> b.len1 == 0)
  }

  predicate AllLengthsOk(bs: seq<Block>) {
    forall k :: 0 <= k < |bs| ==> LengthsOk(bs[k])
  }

  predicate Settled(b: Block) {
    LengthsOk(b) && b.length == b.len0 + b.len1
  }

  function Log2(n: nat): nat {
    if n <= 1 then 0 else 1 + Log2(n / 2)
  }

  // ---------------------------------------------------------- header decoding

  /** A tag-tree leaf: zeros count the value up, a one stops it; returns value and next bit. */
  function TagTree(s: seq<bool>, i: nat, val: nat, threshold: nat): (r: (nat, nat))
    ensures r.1 >= i
    decreases threshold - val
  {
    if val >= threshold then (val, i)
    else if At(s, i) then (val, i + 1)
    else TagTree(s, i + 1, val + 1, threshold)
  }

  /** Number of coding passes, table B.4 of ISO/IEC 15444-1. */
  function PassCount(s: seq<bool>, i: nat): (r: (nat, nat))
    ensures 1 <= r.0 <= 164 && r.1 > i
  {
    var n1 := 1 + ToNat(At(s, i));
    if n1 < 2 then (n1, i + 1) else
    var n2 := n1 + ToNat(At(s, i + 1));
    if n2 < 3 then (n2, i + 2) else
    ValueBound(s, i + 2, 2);
    var n3 := n2 + BitsVal(s, i + 2, 2);
    if n3 < 6 then (n3, i + 4) else
    ValueBound(s, i + 4, 5);
    var n4 := n3 + BitsVal(s, i + 4, 5);
    if n4 < 37 then (n4, i + 9) else
    ValueBound(s, i + 9, 7);
    (n4 + BitsVal(s, i + 9, 7), i + 16)
  }

  lemma {:induction false} ValueBound(s: seq<bool>, i: nat, n: nat)
    ensures BitsVal(s, i, n) < Pow2(n)
    ensures Pow2(2) == 4 && Pow2(5) == 32 && Pow2(7) == 128
  {
    assert Pow2(3) == 8;
    if n > 0 { ValueBound(s, i, n - 1); }
  }

  /** Ones before the next zero. */
  function LblockInc(s: seq<bool>, i: nat): (r: (nat, nat))
    ensures r.1 > i
    decreases |s| - i
  {
    if At(s, i) then var (k, j) := LblockInc(s, i + 1); (k + 1, j) else (0, i + 1)
  }

  datatype Decoded = Decoded(ok: bool, block: Block, next: nat)

  /** Segment lengths of a block with `np` new passes. */
  function Segments(s: seq<bool>, i: nat, b: Block, np: nat): (r: Decoded)
    requires np >= 1
    ensures r.next >= i
    ensures LengthsOk(b) ==> LengthsOk(r.block)
  {
    var refs := (b.npasses + np - 1) % 3;
    if np <= refs then
      // no cleanup pass can end here: only a zero length is legal
      var w := b.lblock + Log2(np);
      if BitsVal(s, i, w) != 0 then Decoded(false, b, i + w)
      else Decoded(true, b.(npasses := b.npasses + np), i + w)
    else
      var cleanup := np - refs;
      var w := b.lblock + Log2(cleanup);
      var len := BitsVal(s, i, w);
      if len == 0 then
        // placeholder passes: the length field is as wide as for all passes together
        var e := if Log2(np) > Log2(cleanup) then Log2(np) - Log2(cleanup) else 0;
        if BitsVal(s, i + w, e) != 0 then Decoded(false, b, i + w + e)
        else Decoded(true, b.(npasses := b.npasses + np), i + w + e)
      else if len < 2 then Decoded(false, b, i + w)
      else
        var b1 := b.(plhd := false, len0 := len, npasses := b.npasses + cleanup);
        if refs == 0 then Decoded(true, b1, i + w)
        else
          var w1 := b.lblock + Log2(refs);
          Decoded(true, b1.(len1 := b1.len1 + BitsVal(s, i + w, w1), npasses := b1.npasses + refs), i + w + w1)
  }

  /** Everything after the inclusion bit of an included block. */
  function IncludedBlock(s: seq<bool>, i: nat, b: Block): (r: Decoded)
    ensures r.next >= i
    ensures LengthsOk(b) ==> LengthsOk(r.block)
  {
    var (z, i1) := TagTree(s, i, b.zbpVal, ZBP_LIMIT);
    var b1 := b.(incl := true, zbp := z, zbpVal := z, lblock := 3);
    var (np, i2) := PassCount(s, i1);
    if b1.npasses + np >= MAX_PASSES then Decoded(false, b1, i2)
    else
      var (inc, i3) := LblockInc(s, i2);
      if 3 + inc + Log2(np) > 16 then Decoded(false, b1, i3)
      else Segments(s, i3, b1.(lblock := 3 + inc), np)
  }

  function DecodeBlock(s: seq<bool>, i: nat, b: Block): (r: Decoded)
    ensures r.next >= i
    ensures LengthsOk(b) ==> LengthsOk(r.block)
    ensures LengthsOk(b) && r.ok ==> Settled(r.block)
  {
    var (cur, i1) := TagTree(s, i, b.inclVal, 1);
    var b1 := b.(plhd := true, inclVal := cur);
    if cur != 0 then Decoded(true, b1.(length := b1.len0 + b1.len1), i1)
    else
      var d := IncludedBlock(s, i1, b1);
      if d.ok then d.(block := d.block.(length := d.block.len0 + d.block.len1)) else d
  }

  datatype DecodedAll = DecodedAll(ok: bool, blocks: seq<Block>, next: nat)

  predicate AllSettled(bs: seq<Block>, k: nat) {
    k <= |bs| && forall j :: 0 <= j < k ==> Settled(bs[j])
  }

  /** Blocks `k` on, bands outermost. */
  function DecodeFrom(s: seq<bool>, i: nat, bs: seq<Block>, k: nat): (r: DecodedAll)
    requires k <= |bs|
    ensures r.next >= i && |r.blocks| == |bs|
    ensures AllLengthsOk(bs) ==> AllLengthsOk(r.blocks)
    ensures AllLengthsOk(bs) && AllSettled(bs, k) && r.ok ==> AllSettled(r.blocks, |bs|)
    decreases |bs| - k
  {
    if k == |bs| then DecodedAll(true, bs, i)
    else
      var d := DecodeBlock(s, i, bs[k]);
      var bs' := bs[k := d.block];
      if d.ok then DecodeFrom(s, d.next, bs', k + 1) else DecodedAll(false, bs', d.next)
  }

  // -------------------------------------------------------------- code-block bodies

  function WithBody(b: Block, t: Option<seq<byte>>): (r: Block)
    requires Settled(b) && (t.Some? ==> |t.value| == b.length)
    ensures Settled(r)
  {
    var d := if t.Some? then t.value else [];
    if b.length > 0 && t.Some? then b.(data := d, scup := 16 * (d[b.len0 - 1] as int) + d[b.len0 - 2] % 16)
    else b.(data := d)
  }

  /** Bodies of the blocks `k` on, one after the other. */
  function TakeFrom(data: seq<byte>, rd: Reader, bs: seq<Block>, k: nat): (r: (seq<Block>, Reader))
    requires AllSettled(bs, |bs|) && k <= |bs|
    ensures AllSettled(r.0, |bs|) && |r.0| == |bs| && r.1.pos >= rd.pos
    decreases |bs| - k
  {
    if k == |bs| then (bs, rd)
    else
      var (t, rd') := Take(data, rd, bs[k].length);
      TakeFrom(data, rd', bs[k := WithBody(bs[k], t)], k + 1)
  }

  // ---------------------------------------------------------------- whole packet

  datatype Packet = Packet(ok: bool, blocks: seq<Block>, rd: Reader)

  function ReadPacket(data: seq<byte>, rd: Reader, bs: seq<Block>): (r: Packet)
    requires AllLengthsOk(bs)
    ensures AllLengthsOk(r.blocks) && |r.blocks| == |bs|
  {
    var s := Avail(data, rd);
    if !At(s, 0) then Packet(true, bs, FlushBits(After(data, rd, 1)))
    else
      var d := DecodeFrom(s, 1, bs, 0);
      if !d.ok then Packet(false, d.blocks, After(data, rd, d.next))
      else
        var (bs', rd') := TakeFrom(data, FlushBits(After(data, rd, d.next)), d.blocks, 0);
        Packet(true, bs', rd')
  }

  // ------------------------------------------- a packet depends on its own bytes only

  predicate Agree(s: seq<bool>, t: seq<bool>, n: nat) {
    forall j :: 0 <= j < n ==> At(s, j) == At(t, j)
  }

  lemma {:induction false} TagTreeLocal(s: seq<bool>, t: seq<bool>, i: nat, val: nat, threshold: nat)
    requires Agree(s, t, TagTree(s, i, val, threshold).1)
    ensures TagTree(t, i, val, threshold) == TagTree(s, i, val, threshold)
    decreases threshold - val
  {
    if val < threshold && !At(s, i) { TagTreeLocal(s, t, i + 1, val + 1, threshold); }
  }

  lemma {:induction false} LblockIncLocal(s: seq<bool>, t: seq<bool>, i: nat)
    requires Agree(s, t, LblockInc(s, i).1)
    ensures LblockInc(t, i) == LblockInc(s, i)
    decreases |s| - i
  {
    if At(s, i) { LblockIncLocal(s, t, i + 1); }
  }

  lemma BitsValLocal(s: seq<bool>, t: seq<bool>, i: nat, n: nat, m: nat)
    requires Agree(s, t, m) && i + n <= m
    ensures BitsVal(t, i, n) == BitsVal(s, i, n)
  {
    SameBitsVal(s, t, i, n);
  }

  lemma PassCountLocal(s: seq<bool>, t: seq<bool>, i: nat)
    requires Agree(s, t, PassCount(s, i).1)
    ensures PassCount(t, i) == PassCount(s, i)
  {
    var m := PassCount(s, i).1;
    if m >= i + 4 { BitsValLocal(s, t, i + 2, 2, m); }
    if m >= i + 9 { BitsValLocal(s, t, i + 4, 5, m); }
    if m >= i + 16 { BitsValLocal(s, t, i + 9, 7, m); }
  }

  lemma SegmentsLocal(s: seq<bool>, t: seq<bool>, i: nat, b: Block, np: nat)
    requires np >= 1 && Agree(s, t, Segments(s, i, b, np).next)
    ensures Segments(t, i, b, np) == Segments(s, i, b, np)
  {
    hide BitsVal, Log2, At;
    var m := Segments(s, i, b, np).next;
    var refs := (b.npasses + np - 1) % 3;
    if np <= refs {
      BitsValLocal(s, t, i, b.lblock + Log2(np), m);
    } else {
      var w := b.lblock + Log2(np - refs);
      BitsValLocal(s, t, i, w, m);
      if i + w <= m { BitsValLocal(s, t, i + w, m - i - w, m); }
    }
  }

  lemma DecodeBlockLocal(s: seq<bool>, t: seq<bool>, i: nat, b: Block)
    requires Agree(s, t, DecodeBlock(s, i, b).next)
    ensures DecodeBlock(t, i, b) == DecodeBlock(s, i, b)
  {
    var (cur, i1) := TagTree(s, i, b.inclVal, 1);
    TagTreeLocal(s, t, i, b.inclVal, 1);
    if cur == 0 { IncludedBlockLocal(s, t, i1, b.(plhd := true, inclVal := cur)); }
  }

  lemma IncludedBlockLocal(s: seq<bool>, t: seq<bool>, i: nat, b: Block)
    requires Agree(s, t, IncludedBlock(s, i, b).next)
    ensures IncludedBlock(t, i, b) == IncludedBlock(s, i, b)
  {
    hide TagTree, PassCount, LblockInc, Segments, Log2, At;
    var (z, i1) := TagTree(s, i, b.zbpVal, ZBP_LIMIT);
    TagTreeLocal(s, t, i, b.zbpVal, ZBP_LIMIT);
    var b1 := b.(incl := true, zbp := z, zbpVal := z, lblock := 3);
    var (np, i2) := PassCount(s, i1);
    PassCountLocal(s, t, i1);
    if b1.npasses + np < MAX_PASSES {
      var (inc, i3) := LblockInc(s, i2);
      LblockIncLocal(s, t, i2);
      if 3 + inc + Log2(np) <= 16 { SegmentsLocal(s, t, i3, b1.(lblock := 3 + inc), np); }
    }
  }

  lemma {:induction false} DecodeFromLocal(s: seq<bool>, t: seq<bool>, i: nat, bs: seq<Block>, k: nat)
    requires k <= |bs| && Agree(s, t, DecodeFrom(s, i, bs, k).next)
    ensures DecodeFrom(t, i, bs, k) == DecodeFrom(s, i, bs, k)
    decreases |bs| - k
  {
    if k < |bs| {
      var d := DecodeBlock(s, i, bs[k]);
      DecodeBlockLocal(s, t, i, bs[k]);
      if d.ok { DecodeFromLocal(s, t, d.next, bs[k := d.block], k + 1); }
    }
  }

  lemma {:induction false} TakeFromAgrees(a: seq<byte>, b: seq<byte>, m: nat, rd: Reader, bs: seq<Block>, k: nat)
    requires AllSettled(bs, |bs|) && k <= |bs| && SameBytes(a, b, rd.pos, m)
    requires TakeFrom(a, rd, bs, k).1.pos <= m && TakeFrom(a, rd, bs, k).1.pos < |a|
    ensures TakeFrom(b, rd, bs, k) == TakeFrom(a, rd, bs, k)
    decreases |bs| - k
  {
    if k < |bs| {
      var n := bs[k].length;
      var (t, rd') := Take(a, rd, n);
      var (u, rd'') := Take(b, rd, n);
      TakeFromForward(a, rd', bs[k := WithBody(bs[k], t)], k + 1);
      assert rd'.pos <= m;
      if n > 0 { assert b[rd.pos..rd.pos + n] == a[rd.pos..rd.pos + n]; }
      assert WithBody(bs[k], u) == WithBody(bs[k], t);
      TakeFromAgrees(a, b, m, rd', bs[k := WithBody(bs[k], t)], k + 1);
    }
  }

  lemma {:induction false} TakeFromForward(data: seq<byte>, rd: Reader, bs: seq<Block>, k: nat)
    requires AllSettled(bs, |bs|) && k <= |bs|
    ensures TakeFrom(data, rd, bs, k).1.pos >= rd.pos
    decreases |bs| - k
  {
    if k < |bs| {
      var (t, rd') := Take(data, rd, bs[k].length);
      TakeFromForward(data, rd', bs[k := WithBody(bs[k], t)], k + 1);
    }
  }

  /**
   Locality: a packet read depends only on the bytes it goes over.  On any other data that
   agrees with this one from the packet's start up to byte `m`, a packet that ends at or before
   `m` and short of the end of the data gives the same outcome, blocks and end.
   */
  lemma {:induction false} ReadPacketAgrees(a: seq<byte>, b: seq<byte>, m: nat, rd: Reader, bs: seq<Block>)
    requires AllLengthsOk(bs) && SameBytes(a, b, rd.pos, m)
    requires ReadPacket(a, rd, bs).rd.pos <= m && ReadPacket(a, rd, bs).rd.pos < |a|
    ensures ReadPacket(b, rd, bs) == ReadPacket(a, rd, bs)
  {
    var s, t := Avail(a, rd), Avail(b, rd);
    if !At(s, 0) {
      AfterAgrees(a, b, m, rd, 1);
    } else {
      var d := DecodeFrom(s, 1, bs, 0);
      var rd1 := FlushBits(After(a, rd, d.next));
      if d.ok { TakeFromForward(a, rd1, d.blocks, 0); }
      AfterAgrees(a, b, m, rd, d.next);
      DecodeFromLocal(s, t, 1, bs, 0);
      AfterMonotone(a, rd, 0, d.next);
      if d.ok { TakeFromAgrees(a, b, m, rd1, d.blocks, 0); }
    }
  }

  /** In particular on every prefix that contains the packet. */
  lemma {:induction false} ReadPacketLocal(data: seq<byte>, m: nat, rd: Reader, bs: seq<Block>)
    requires AllLengthsOk(bs) && m <= |data|
    requires ReadPacket(data, rd, bs).rd.pos <= m && ReadPacket(data, rd, bs).rd.pos < |data|
    ensures ReadPacket(data[..m], rd, bs) == ReadPacket(data, rd, bs)
  {
    hide ReadPacket;
    ReadPacketAgrees(data, data[..m], m, rd, bs);
  }

  /** A packet read from inside the data always moves on. */
  lemma {:induction false} ReadPacketAdvances(data: seq<byte>, rd: Reader, bs: seq<Block>)
    requires AllLengthsOk(bs) && rd.bits == 0 && rd.pos < |data|
    ensures ReadPacket(data, rd, bs).rd.pos > rd.pos
    ensures ReadPacket(data, rd, bs).ok ==> ReadPacket(data, rd, bs).rd.bits == 0 == ReadPacket(data, rd, bs).rd.tmp
  {
    var r := ReadPacket(data, rd, bs);
    AfterInByte(data, rd.pos, rd.tmp, 1);
    var d := DecodeFrom(Avail(data, rd), 1, bs, 0);
    AfterMonotone(data, rd, 1, d.next);
    if r.ok && At(Avail(data, rd), 0) {
      TakeFromKeepsBits(data, FlushBits(After(data, rd, d.next)), d.blocks, 0);
    }
  }

  lemma {:induction false} TakeFromKeepsBits(data: seq<byte>, rd: Reader, bs: seq<Block>, k: nat)
    requires AllSettled(bs, |bs|) && k <= |bs|
    ensures TakeFrom(data, rd, bs, k).1 == rd.(pos := TakeFrom(data, rd, bs, k).1.pos)
    decreases |bs| - k
  {
    if k < |bs| {
      var (t, rd') := Take(data, rd, bs[k].length);
      TakeFromKeepsBits(data, rd', bs[k := WithBody(bs[k], t)], k + 1);
    }
  }

  function TotalLength(bs: seq<Block>, k: nat): nat
    requires k <= |bs|
    decreases |bs| - k
  {
    if k == |bs| then 0 else bs[k].length + TotalLength(bs, k + 1)
  }

  lemma {:induction false} TotalLengthSuffix(bs: seq<Block>, cs: seq<Block>, k: nat)
    requires |bs| == |cs| && k <= |bs| && bs[k..] == cs[k..]
    ensures TotalLength(bs, k) == TotalLength(cs, k)
    decreases |bs| - k
  {
    if k < |bs| {
      assert bs[k] == bs[k..][0] && cs[k] == cs[k..][0];
      assert bs[k + 1..] == bs[k..][1..] && cs[k + 1..] == cs[k..][1..];
      TotalLengthSuffix(bs, cs, k + 1);
    }
  }

  /** The body cursor moves by exactly the sum of the block lengths, or to the end of the data. */
  lemma {:induction false} BodiesAdvance(data: seq<byte>, rd: Reader, bs: seq<Block>, k: nat)
    requires AllSettled(bs, |bs|) && k <= |bs| && rd.pos <= |data|
    ensures TakeFrom(data, rd, bs, k).1.pos == Min(rd.pos + TotalLength(bs, k), |data|)
    decreases |bs| - k
  {
    if k < |bs| {
      var (t, rd') := Take(data, rd, bs[k].length);
      var bs' := bs[k := WithBody(bs[k], t)];
      assert bs'[k + 1..] == bs[k + 1..];
      TotalLengthSuffix(bs', bs, k + 1);
      BodiesAdvance(data, rd', bs', k + 1);
    }
  }
}
