/** The tile handler as it is written: fields, loops and a signal queue, over the chain reader. */
module TileParser {
  import opened Bytes
  import opened ChainReader
  import opened PacketHeader
  import opened PacketReader
  import T = TileHandler

  /** The precincts there are: numbered from 0 in each resolution of each component. */
  ghost predicate Shaped(shape: seq<seq<nat>>, store: map<T.Crp, T.Precinct>) {
    && (forall ct <- store.Keys :: ct.c < |shape| && ct.r < |shape[ct.c]| && ct.p < shape[ct.c][ct.r])
    && (forall c, r, p :: 0 <= c < |shape| && 0 <= r < |shape[c]| && 0 <= p < shape[c][r] ==> T.Crp(c, r, p) in store)
    && (forall ct <- store.Keys :: T.PrecinctOk(store[ct]))
  }

  /** One precinct zeroed band by band, block by block, from the last to the first. */
  method ZeroPrecinct(p: T.Precinct) returns (q: T.Precinct)
    requires T.PrecinctOk(p)
    ensures q == T.ResetPrecinct(p)
  {
    hide T.PrecinctOk;
    BlockCount(p);
    var bs := p.blocks;
    for b := p.numBands downto 0
      invariant 0 <= b * p.perBand && ZeroedFrom(p.blocks, bs, b * p.perBand)
    {
      BandInRange(b, p.numBands, p.perBand);
      bs := ZeroBand(p.blocks, bs, b * p.perBand, p.perBand);
    }
    q := p.(blocks := bs);
    assert q.blocks == T.ResetPrecinct(p).blocks;
  }

  lemma BlockCount(p: T.Precinct)
    requires T.PrecinctOk(p)
    ensures |p.blocks| == p.numBands * p.perBand
  {}

  /** Blocks from `k` on are reset, the others as they were. */
  predicate ZeroedFrom(was: seq<Block>, bs: seq<Block>, k: nat) {
    && |bs| == |was|
    && forall i :: 0 <= i < |bs| ==> bs[i] == if i >= k then T.ResetBlock(was[i]) else was[i]
  }

  /** One band's tag trees and blocks. */
  method ZeroBand(ghost was: seq<Block>, blocks: seq<Block>, from: nat, n: nat) returns (bs: seq<Block>)
    requires from + n <= |blocks| && ZeroedFrom(was, blocks, from + n)
    ensures ZeroedFrom(was, bs, from)
  {
    bs := blocks;
    for k := n downto 0
      invariant ZeroedFrom(was, bs, from + k)
    {
      var at := from + k;
      bs := bs[at := bs[at].(inclVal := 0, zbpVal := 0)];
      bs := bs[at := bs[at].(length := 0, npasses := 0, len0 := 0, len1 := 0)];
    }
  }

  /** The precinct comes at or behind number `p` of resolution `r` of component `c`. */
  predicate Behind(ct: T.Crp, c: nat, r: nat, p: nat) {
    ct.c > c || (ct.c == c && (ct.r > r || (ct.r == r && ct.p >= p)))
  }

  /** Exactly the precincts from there on are reset. */
  ghost predicate ZeroedTo(was: map<T.Crp, T.Precinct>, store: map<T.Crp, T.Precinct>, c: nat, r: nat, p: nat) {
    && store.Keys == was.Keys
    && forall ct <- was.Keys :: store[ct] == if Behind(ct, c, r, p) then T.ResetPrecinct(was[ct]) else was[ct]
  }

  method ZeroResolution(shape: seq<seq<nat>>, ghost was: map<T.Crp, T.Precinct>, store: map<T.Crp, T.Precinct>, c: nat,
                        r: nat)
    returns (out: map<T.Crp, T.Precinct>)
    requires Shaped(shape, was) && c < |shape| && r < |shape[c]| && ZeroedTo(was, store, c, r + 1, 0)
    ensures ZeroedTo(was, out, c, r, 0)
  {
    hide T.ResetPrecinct, T.PrecinctOk;
    out := store;
    for p := shape[c][r] downto 0
      invariant ZeroedTo(was, out, c, r, p)
    {
      var ct := T.Crp(c, r, p);
      assert ct in was && out[ct] == was[ct];
      var q := ZeroPrecinct(out[ct]);
      out := out[ct := q];
    }
  }

  method ZeroComponent(shape: seq<seq<nat>>, ghost was: map<T.Crp, T.Precinct>, store: map<T.Crp, T.Precinct>, c: nat)
    returns (out: map<T.Crp, T.Precinct>)
    requires Shaped(shape, was) && c < |shape| && ZeroedTo(was, store, c + 1, 0, 0)
    ensures ZeroedTo(was, out, c, 0, 0)
  {
    hide T.ResetPrecinct, T.PrecinctOk;
    out := store;
    for r := |shape[c]| downto 0
      invariant ZeroedTo(was, out, c, r, 0)
    {
      out := ZeroResolution(shape, was, out, c, r);
    }
  }

  class Handler {
    const cs: Codestream
    var crp: seq<T.Crp>
    var components: nat
    var table: seq<seq<nat>>
    var idx: nat
    var signals: seq<T.Signal>
    var store: map<T.Crp, T.Precinct>
    const shape: seq<seq<nat>>
    ghost var calls: seq<T.Callback>

    ghost function Layout(): T.Layout
      reads this
    {
      T.Layout(crp, components, table)
    }

    ghost function State(): T.Tile
      reads this, cs
    {
      T.Tile(cs.Rd(), idx, signals, store, calls)
    }

    ghost predicate Valid()
      reads this, cs
    {
      cs.Valid() && T.Good(Layout(), State()) && Shaped(shape, store)
    }

    /** The structure for a progression: the per-component index table is filled in one pass over it. */
    constructor (stream: Codestream, progression: seq<T.Crp>, numComponents: nat, precincts: map<T.Crp, T.Precinct>,
                 counts: seq<seq<nat>>)
      requires stream.Valid() && T.StoreOk(progression, precincts) && Shaped(counts, precincts)
      ensures Valid() && cs == stream && crp == progression && components == numComponents
      ensures State() == T.Tile(stream.Rd(), 0, [], precincts, [])
    {
      cs, crp, components, shape := stream, progression, numComponents, counts;
      idx, signals, store, calls := 0, [], precincts, [];
      table := [[], [], []];
      new;
      for i := 0 to |crp|
        invariant crp == progression && components == numComponents
        invariant State() == T.Tile(stream.Rd(), 0, [], precincts, []) && stream.Valid()
        invariant |table| == T.MAX_COMPONENTS
        invariant forall c :: 0 <= c < T.MAX_COMPONENTS ==> table[c] == T.IndicesOf(crp, c, i)
      {
        var c := crp[i].c;
        if c < T.MAX_COMPONENTS {
          table := table[c := table[c] + [i]];
        }
      }
    }

    method AppendSignal(off: nat, pid: nat)
      requires Valid()
      modifies this`signals
      ensures Valid() && State() == T.AddSignal(old(State()), off, pid)
    {
      if |signals| >= T.MAX_SIGNALS {
        signals := [];
      }
      signals := signals + [T.Signal(off, pid)];
    }

    method TryRecover() returns (ok: bool)
      requires Valid()
      modifies this`signals, this`idx, cs
      ensures cs.chunks == old(cs.chunks) && Valid()
      ensures (ok, State()) == T.TryRecover(Layout(), old(State()))
    {
      hide T.StoreOk, T.LayoutOk, Flatten, Shaped;
      ghost var t := State();
      var cur := cs.consumed + cs.curOffset;
      while signals != [] && signals[0].off <= cur
        invariant Valid() && State() == t.(signals := signals) && cs.chunks == old(cs.chunks)
        invariant T.DropPassed(t.signals, cur) == T.DropPassed(signals, cur)
        decreases |signals|
      {
        signals := signals[1..];
      }
      assert T.DropPassed(signals, cur) == signals;
      if signals == [] {
        return false;
      }
      if components == 0 {
        return false;
      }
      var sig := signals[0];
      var c, s := sig.pid % components, sig.pid / components;
      if c >= |table| || s >= |table[c]| {
        return false;
      }
      var next := table[c][s];
      if next < idx {
        return false;
      }
      cs.Reset(sig.off);
      idx := next;
      signals := signals[1..];
      ok := true;
    }

    method ParsePrecinct() returns (ok: bool)
      requires Valid() && idx < |crp|
      modifies this`store, cs
      ensures cs.chunks == old(cs.chunks) && Valid()
      ensures (ok, State()) == T.ParseOne(Layout(), cs.Data(), old(State()))
    {
      hide ReadPacket, T.LayoutOk;
      var ct := crp[idx];
      var p := store[ct];
      var blocks;
      ok, blocks := ReadPacketOf(cs, p.numBands, p.perBand, p.blocks);
      store := store[ct := p.(blocks := blocks)];
    }

    /** Parse as far as the signals allow. */
    method Parse() returns (o: T.Outcome)
      requires Valid()
      modifies this`store, this`idx, this`signals, this`calls, cs
      ensures cs.chunks == old(cs.chunks) && Valid()
      ensures (o, State()) == T.Parse(Layout(), cs.Data(), old(State()))
    {
      hide T.StoreOk, T.LayoutOk, T.ParseOne, T.TryRecover, Shaped;
      ghost var l, data, t := Layout(), cs.Data(), State();
      while true
        invariant cs.chunks == old(cs.chunks) && Valid() && Layout() == l
        invariant T.Parse(l, data, t) == T.Parse(l, data, State())
        decreases |crp| - idx
      {
        if signals == [] {
          return T.Ok;
        }
        if cs.consumed + cs.curOffset >= signals[|signals| - 1].off {
          return T.Ok;
        }
        if idx >= |crp| {
          return T.OutOfRange;
        }
        ghost var before := State();
        var ok := ParsePrecinct();
        if ok {
          calls := calls + [T.Callback(idx, crp[idx], store[crp[idx]])];
          idx := idx + 1;
        } else {
          idx := idx + 1;
          T.RecoverProgress(l, State());
          var recovered := TryRecover();
          if !recovered {
            return T.Failed;
          }
        }
      }
    }

    /** Parse everything that is left. */
    method Flush() returns (o: T.Outcome)
      requires Valid()
      modifies this`store, this`idx, this`signals, this`calls, cs
      ensures cs.chunks == old(cs.chunks) && Valid()
      ensures (o, State()) == T.Flush(Layout(), cs.Data(), old(State()))
    {
      hide T.StoreOk, T.LayoutOk, T.ParseOne, T.TryRecover, Shaped;
      ghost var l, data, t := Layout(), cs.Data(), State();
      while idx < |crp|
        invariant cs.chunks == old(cs.chunks) && Valid() && Layout() == l
        invariant T.Flush(l, data, t) == T.Flush(l, data, State())
        decreases |crp| - idx + |signals|
      {
        var ok := ParsePrecinct();
        if ok {
          calls := calls + [T.Callback(idx, crp[idx], store[crp[idx]])];
          idx := idx + 1;
        } else {
          T.RecoverProgress(l, State());
          var recovered := TryRecover();
          if !recovered {
            return T.Failed;
          }
        }
      }
      o := T.Ok;
    }

    /** A new frame: no signals, first precinct, every precinct zeroed in nested descending loops. */
    method Restart()
      requires Valid()
      modifies this`idx, this`signals, this`store
      ensures Valid() && State() == T.Restart(old(State()))
    {
      hide T.LayoutOk, T.ResetPrecinct, T.PrecinctOk;
      T.RestartIsFresh(Layout(), State());
      ghost var was := store;
      signals := [];
      idx := 0;
      for c := |shape| downto 0
        invariant Shaped(shape, was) && ZeroedTo(was, store, c, 0, 0)
        invariant idx == 0 && signals == []
      {
        store := ZeroComponent(shape, was, store, c);
      }
      assert store == T.Restart(old(State())).store;
      RestartShaped(shape, was);
    }
  }

  /**
   A body packet of the tracked frame on the tile's side: its bytes join the chain, its resync
   point is noted, and what the signals now cover is parsed unless the walk is parked after
   an accepted loss.  The cursor must not have run past the new bytes.
   */
  method FeedBody(h: Handler, body: seq<byte>, ordb: bool, at: nat, pid: nat, parked: bool) returns (o: T.Outcome)
    requires h.Valid() && body != [] && h.cs.Rd().pos < |h.cs.Data() + body|
    modifies h`store, h`idx, h`signals, h`calls, h.cs
    ensures h.Valid() && h.Layout() == old(h.Layout()) && h.cs.Data() == old(h.cs.Data()) + body
    ensures var t := if ordb then T.AddSignal(old(h.State()), at, pid) else old(h.State());
            if ordb && !parked then (o, h.State()) == T.Parse(h.Layout(), h.cs.Data(), t)
            else o == T.Ok && h.State() == t
  {
    hide T.StoreOk, T.LayoutOk, T.Parse, Shaped;
    h.cs.AtCursor();
    assert h.cs.curChunk == |h.cs.chunks| ==> h.cs.chunks[..h.cs.curChunk] == h.cs.chunks;
    h.cs.AppendChunk(body);
    o := T.Ok;
    if ordb {
      h.AppendSignal(at, pid);
      if !parked {
        o := h.Parse();
      }
    }
  }

  lemma RestartShaped(shape: seq<seq<nat>>, store: map<T.Crp, T.Precinct>)
    requires Shaped(shape, store)
    ensures Shaped(shape, map ct | ct in store :: T.ResetPrecinct(store[ct]))
  {
    hide T.PrecinctOk;
  }
}
