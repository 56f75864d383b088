/**
 Frames put together from written packets are well-formed, so everything proved of
 well-formed frames holds of every frame an encoder following `PacketCoding` sends.
 */
module EncodedFrame {
  import opened Bytes
  import opened ChainReader
  import opened BitStuffing
  import opened PacketHeader
  import opened PacketCoding
  import opened TileHandler
  import opened TileRuns

  /** One precinct's packet: empty, or codes and bodies for its blocks. */
  datatype Written = EmptyPacket | FullPacket(codes: seq<BlockCode>, bodies: seq<seq<byte>>)

  predicate Fits(w: Written, blocks: nat) {
    w.FullPacket? ==>
      && |w.codes| == |w.bodies| == blocks && ValidCodes(w.codes)
      && forall k :: 0 <= k < blocks ==> |w.bodies[k]| == CodeLength(w.codes[k])
  }

  function WrittenBytes(w: Written): seq<byte>
    requires w.FullPacket? ==> ValidCodes(w.codes)
  {
    if w.EmptyPacket? then Stuff([false], false) else PacketBytes(w.codes, w.bodies)
  }

  /** One packet per precinct of the progression, each fitting its precinct. */
  predicate Covers(l: Layout, t0: Tile, ws: seq<Written>)
    requires Good(l, t0)
  {
    && |ws| == |l.crp|
    && forall i :: 0 <= i < |ws| ==> Fits(ws[i], |t0.store[l.crp[i]].blocks|)
  }

  function Packets(l: Layout, t0: Tile, ws: seq<Written>, k: nat): seq<byte>
    requires Good(l, t0) && Covers(l, t0, ws) && k <= |ws|
  {
    if k == 0 then [] else Packets(l, t0, ws, k - 1) + WrittenBytes(ws[k - 1])
  }

  /** Every precinct is visited once and starts from fresh blocks. */
  predicate FreshStart(l: Layout, t0: Tile)
    requires Good(l, t0)
  {
    && t0.idx == 0
    && (forall i, j :: 0 <= i < j < |l.crp| ==> l.crp[i] != l.crp[j])
    && (forall i :: 0 <= i < |l.crp| ==> FreshFrom(t0.store[l.crp[i]].blocks, 0))
  }

  lemma {:induction false} PacketsPrefix(l: Layout, t0: Tile, ws: seq<Written>, j: nat, k: nat)
    requires Good(l, t0) && Covers(l, t0, ws) && j <= k <= |ws|
    ensures Packets(l, t0, ws, j) <= Packets(l, t0, ws, k)
    decreases k
  {
    hide WrittenBytes, Good, ValidCodes, CodeLength;
    if j < k { PacketsPrefix(l, t0, ws, j, k - 1); }
  }

  function FrameBytes(l: Layout, t0: Tile, header: seq<byte>, ws: seq<Written>, tail: seq<byte>): seq<byte>
    requires Good(l, t0) && Covers(l, t0, ws)
  {
    header + Packets(l, t0, ws, |ws|) + tail
  }

  /** The byte at which packet `k` starts. */
  function StartOf(l: Layout, t0: Tile, header: seq<byte>, ws: seq<Written>, k: nat): nat
    requires Good(l, t0) && Covers(l, t0, ws) && k <= |ws|
  {
    |header| + |Packets(l, t0, ws, k)|
  }

  /** Blocks `bs'` show what the packet says, starting from blocks `bs`. */
  predicate Shows(w: Written, bs: seq<Block>, bs': seq<Block>)
    requires Fits(w, |bs|)
  {
    if w.EmptyPacket? then bs' == bs
    else |bs'| == |bs| && forall k :: 0 <= k < |bs| ==> Carries(w.codes[k], w.bodies[k], bs[k], bs'[k])
  }

  /** A written packet read at its place: success, its contents, and the cursor right behind it. */
  lemma PacketAt(before: seq<byte>, w: Written, behind: seq<byte>, bs: seq<Block>)
    requires Fits(w, |bs|) && FreshFrom(bs, 0) && AllLengthsOk(bs)
    ensures var r := ReadPacket(before + WrittenBytes(w) + behind, Reader(|before|, 0, 0), bs);
            r.ok && r.rd == Reader(|before + WrittenBytes(w)|, 0, 0) && Shows(w, bs, r.blocks)
  {
    if w.EmptyPacket? {
      EmptyPacketRoundTrip(before, behind, bs);
    } else {
      PacketRoundTrip(before, w.codes, w.bodies, behind, bs);
    }
  }

  /** Packet `k` of the frame, read from its own start. */
  lemma PacketInFrame(l: Layout, t0: Tile, header: seq<byte>, ws: seq<Written>, tail: seq<byte>, k: nat)
    requires Good(l, t0) && FreshStart(l, t0) && Covers(l, t0, ws) && k < |ws|
    ensures AllLengthsOk(t0.store[l.crp[k]].blocks)
    ensures var r := ReadPacket(FrameBytes(l, t0, header, ws, tail), Reader(StartOf(l, t0, header, ws, k), 0, 0),
                                t0.store[l.crp[k]].blocks);
            && r.ok && r.rd == Reader(StartOf(l, t0, header, ws, k + 1), 0, 0)
            && Shows(ws[k], t0.store[l.crp[k]].blocks, r.blocks)
  {
    hide ReadPacket, WrittenBytes, FreshFrom, FrameBytes, AllLengthsOk, Shows, ValidCodes, CodeLength, FreshStart, Good;
    BlocksReady(l, t0, ws, k);
    var behind := FrameAround(l, t0, header, ws, tail, k);
    PacketAt(header + Packets(l, t0, ws, k), ws[k], behind, t0.store[l.crp[k]].blocks);
    assert header + Packets(l, t0, ws, k) + WrittenBytes(ws[k]) == header + Packets(l, t0, ws, k + 1);
  }

  /** The blocks packet `k` is about are fresh, and the packet fits them. */
  lemma BlocksReady(l: Layout, t0: Tile, ws: seq<Written>, k: nat)
    requires Good(l, t0) && FreshStart(l, t0) && Covers(l, t0, ws) && k < |ws|
    ensures k < |l.crp| && l.crp[k] in t0.store
    ensures var bs := t0.store[l.crp[k]].blocks;
            Fits(ws[k], |bs|) && FreshFrom(bs, 0) && AllLengthsOk(bs)
  {
    hide FreshFrom, AllLengthsOk, Fits;
  }

  /** The frame as what is before packet `k`, the packet, and what is behind it. */
  lemma FrameAround(l: Layout, t0: Tile, header: seq<byte>, ws: seq<Written>, tail: seq<byte>, k: nat)
    returns (behind: seq<byte>)
    requires Good(l, t0) && Covers(l, t0, ws) && k < |ws|
    ensures FrameBytes(l, t0, header, ws, tail) == header + Packets(l, t0, ws, k) + WrittenBytes(ws[k]) + behind
  {
    hide Good, WrittenBytes, ValidCodes, CodeLength;
    PacketsPrefix(l, t0, ws, k + 1, |ws|);
    var all, next := Packets(l, t0, ws, |ws|), Packets(l, t0, ws, k + 1);
    assert all == next + all[|next|..];
    behind := all[|next|..] + tail;
    assert header + all + tail == header + Packets(l, t0, ws, k) + WrittenBytes(ws[k]) + behind;
  }

  /** After `k` precincts the walk is behind packet `k`, and the precincts still to come are untouched. */
  lemma {:induction false} WalkEncoded(l: Layout, t0: Tile, header: seq<byte>, ws: seq<Written>, tail: seq<byte>,
                                       k: nat)
    requires Good(l, t0) && FreshStart(l, t0) && Covers(l, t0, ws) && t0.rd == Reader(|header|, 0, 0) && k <= |ws|
    ensures var data := FrameBytes(l, t0, header, ws, tail);
            var w := Walk(l, data, t0, k);
            && w.rd == Reader(StartOf(l, t0, header, ws, k), 0, 0)
            && (forall i :: k <= i < |ws| ==> w.store[l.crp[i]] == t0.store[l.crp[i]])
            && (k < |ws| ==> ParseOne(l, data, w).0
                             && ParseOne(l, data, w).1.rd == Reader(StartOf(l, t0, header, ws, k + 1), 0, 0)
                             && Shows(ws[k], t0.store[l.crp[k]].blocks, ParseOne(l, data, w).1.store[l.crp[k]].blocks))
  {
    hide ReadPacket, WrittenBytes, Fits, FreshFrom, LayoutOk, PrecinctOk, FrameBytes;
    if k > 0 { WalkEncoded(l, t0, header, ws, tail, k - 1); }
    if k < |ws| { PacketInFrame(l, t0, header, ws, tail, k); }
  }

  /** Written packets make a well-formed frame, whatever the header, as long as something follows the last packet. */
  lemma {:induction false} EncodedIsWellFormed(l: Layout, t0: Tile, header: seq<byte>, ws: seq<Written>,
                                               tail: seq<byte>)
    requires Good(l, t0) && FreshStart(l, t0) && Covers(l, t0, ws) && t0.rd == Reader(|header|, 0, 0) && tail != []
    ensures WellFormed(l, FrameBytes(l, t0, header, ws, tail), t0)
  {
    hide Good, Fits, FreshFrom, ParseOne, Packets;
    var data := FrameBytes(l, t0, header, ws, tail);
    forall k | 0 <= k < |l.crp| ensures PacketFits(l, data, t0, k) {
      WalkEncoded(l, t0, header, ws, tail, k);
      PacketsPrefix(l, t0, ws, k + 1, |ws|);
    }
  }

  /** The callback of precinct `i` shows packet `i`. */
  predicate CallShows(l: Layout, t0: Tile, ws: seq<Written>, t: Tile, i: nat)
    requires Good(l, t0) && Covers(l, t0, ws) && i < |ws|
  {
    i < |t.calls| && t.calls[i].ct == l.crp[i] && Shows(ws[i], t0.store[l.crp[i]].blocks, t.calls[i].prec.blocks)
  }

  /** Precinct `k` adds one callback, and it shows packet `k`. */
  lemma TurnShows(l: Layout, t0: Tile, header: seq<byte>, ws: seq<Written>, tail: seq<byte>, k: nat)
    requires Good(l, t0) && FreshStart(l, t0) && Covers(l, t0, ws) && t0.rd == Reader(|header|, 0, 0) && k < |ws|
    ensures var data := FrameBytes(l, t0, header, ws, tail);
            var w, t := Walk(l, data, t0, k), Walk(l, data, t0, k + 1);
            && |t.calls| == |w.calls| + 1 && t.calls[..|w.calls|] == w.calls && t.calls[|w.calls|].ct == l.crp[k]
            && Shows(ws[k], t0.store[l.crp[k]].blocks, t.calls[|w.calls|].prec.blocks)
  {
    hide StoreOk, LayoutOk, FreshFrom, Fits, Shows, FrameBytes, ReadPacket;
    WalkEncoded(l, t0, header, ws, tail, k);
  }

  lemma {:induction false} WalkShows(l: Layout, t0: Tile, header: seq<byte>, ws: seq<Written>, tail: seq<byte>, k: nat)
    requires Good(l, t0) && FreshStart(l, t0) && Covers(l, t0, ws) && t0.rd == Reader(|header|, 0, 0) && k <= |ws|
    requires t0.calls == []
    ensures var t := Walk(l, FrameBytes(l, t0, header, ws, tail), t0, k);
            |t.calls| == k && forall i :: 0 <= i < k ==> CallShows(l, t0, ws, t, i)
  {
    hide Good, FreshFrom, Fits, Shows, FrameBytes, ParseOne, Report;
    if k > 0 {
      TurnShows(l, t0, header, ws, tail, k - 1);
      WalkShows(l, t0, header, ws, tail, k - 1);
      var w := Walk(l, FrameBytes(l, t0, header, ws, tail), t0, k - 1);
      var t := Walk(l, FrameBytes(l, t0, header, ws, tail), t0, k);
      forall i | 0 <= i < k - 1 ensures CallShows(l, t0, ws, t, i) {
        assert CallShows(l, t0, ws, w, i);
        assert t.calls[i] == t.calls[..k - 1][i];
      }
    }
  }

  /**
   From encoder to callback: a frame of written packets, cut and signalled in any clean
   way and parsed as it arrives, calls back every precinct of the progression in order,
   each showing exactly the codes and bodies that were written for it.
   */
  lemma {:induction false} WrittenFrameIsDelivered(l: Layout, t0: Tile, header: seq<byte>, ws: seq<Written>,
                                                   tail: seq<byte>, ops: seq<TileOp>, have: nat)
    requires Good(l, t0) && FreshStart(l, t0) && Covers(l, t0, ws) && t0.rd == Reader(|header|, 0, 0) && tail != []
    requires t0.signals == [] && t0.calls == []
    requires var data := FrameBytes(l, t0, header, ws, tail);
             |header| <= have <= |data| && Clean(l, data, t0, have, ops)
    ensures var data := FrameBytes(l, t0, header, ws, tail);
            var f := Run(l, Frame(data[..have], t0), ops);
            var (o, t) := Flush(l, f.data, f.tile);
            && o == Ok && |t.calls| == |l.crp|
            && forall i :: 0 <= i < |l.crp| ==> CallShows(l, t0, ws, t, i)
  {
    hide Good, Fits, FreshFrom, Shows, FrameBytes, ParseOne, Flush, Run, Clean, WellFormed;
    var data := FrameBytes(l, t0, header, ws, tail);
    EncodedIsWellFormed(l, t0, header, ws, tail);
    IncrementalEqualsWhole(l, data, t0, ops, have);
    FlushInStep(l, data, t0, t0, 0);
    WalkShows(l, t0, header, ws, tail, |l.crp|);
    var w := Walk(l, data, t0, |l.crp|);
    var f := Run(l, Frame(data[..have], t0), ops);
    var t := Flush(l, f.data, f.tile).1;
    forall i | 0 <= i < |l.crp| ensures CallShows(l, t0, ws, t, i) { assert CallShows(l, t0, ws, w, i); }
  }
}
