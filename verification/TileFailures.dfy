/**
 Precincts that fail inside a call.  A parse or flush call that recovers from a failed
 precinct succeeds all the same; here the failures are counted, and recognised from what
 can be seen from outside the call.
 */
module TileFailures {
  import opened Bytes
  import opened PacketHeader
  import opened TileHandler
  import opened TileRuns

  /** How many precincts fail in one parse call. */
  function ParseFailures(l: Layout, data: seq<byte>, t: Tile): nat
    requires Good(l, t)
    decreases |l.crp| - t.idx
  {
    if !Gate(t) || t.idx >= |l.crp| then 0
    else
      var (ok, t1) := ParseOne(l, data, t);
      if ok then ParseFailures(l, data, Report(l, t1))
      else
        RecoverProgress(l, t1.(idx := t1.idx + 1));
        var (recovered, t2) := TryRecover(l, t1.(idx := t1.idx + 1));
        1 + if recovered then ParseFailures(l, data, t2) else 0
  }

  /** How many fail in a flush. */
  function FlushFailures(l: Layout, data: seq<byte>, t: Tile): nat
    requires Good(l, t)
    decreases |l.crp| - t.idx + |t.signals|
  {
    if t.idx >= |l.crp| then 0
    else
      var (ok, t1) := ParseOne(l, data, t);
      if ok then FlushFailures(l, data, Report(l, t1))
      else
        RecoverProgress(l, t1);
        var (recovered, t2) := TryRecover(l, t1);
        1 + if recovered then FlushFailures(l, data, t2) else 0
  }

  /** Precincts behind the index that were not called back. */
  function Missing(t: Tile): int {
    t.idx - |t.calls|
  }

  /**
   A parse call lets precincts go by without a callback exactly when some precinct fails in
   it, whether the call as a whole succeeds or not; at least one for each that fails.
   */
  lemma {:induction false} ParseMisses(l: Layout, data: seq<byte>, t: Tile)
    requires Good(l, t)
    ensures var t' := Parse(l, data, t).1;
            && Missing(t') >= Missing(t) + ParseFailures(l, data, t)
            && (Missing(t') > Missing(t) <==> ParseFailures(l, data, t) > 0)
    ensures Parse(l, data, t).0 == Failed ==> ParseFailures(l, data, t) > 0
    decreases |l.crp| - t.idx
  {
    hide StoreOk, LayoutOk, ReadPacket, Lookup, DropPassed;
    if Gate(t) && t.idx < |l.crp| {
      var (ok, t1) := ParseOne(l, data, t);
      if ok {
        ParseMisses(l, data, Report(l, t1));
      } else {
        var t2 := t1.(idx := t1.idx + 1);
        RecoverProgress(l, t2);
        RecoverKeepsCalls(l, t2);
        var (recovered, t3) := TryRecover(l, t2);
        if recovered { ParseMisses(l, data, t3); }
      }
    }
  }

  /** A call leaves the index inside the progression or at its end. */
  lemma {:induction false} ParseIndex(l: Layout, data: seq<byte>, t: Tile)
    requires Good(l, t) && t.idx <= |l.crp|
    ensures Parse(l, data, t).1.idx <= |l.crp|
    decreases |l.crp| - t.idx
  {
    hide StoreOk, ReadPacket, DropPassed;
    if Gate(t) && t.idx < |l.crp| {
      var (ok, t1) := ParseOne(l, data, t);
      if ok {
        ParseIndex(l, data, Report(l, t1));
      } else {
        var t2 := t1.(idx := t1.idx + 1);
        RecoverProgress(l, t2);
        var (recovered, t3) := TryRecover(l, t2);
        if recovered { ParseIndex(l, data, t3); }
      }
    }
  }

  lemma RecoverKeepsCalls(l: Layout, t: Tile)
    ensures var (ok, t') := TryRecover(l, t);
            t'.calls == t.calls && t'.store == t.store && (!ok ==> t'.idx == t.idx && t'.rd == t.rd)
  {}

  /** From the index on, the precincts parse one after the other to the end. */
  predicate Sequential(l: Layout, data: seq<byte>, t: Tile)
    requires Good(l, t)
  {
    forall k :: 0 <= k < |l.crp| - t.idx ==> ParseOne(l, data, Walk(l, data, t, k)).0
  }

  lemma {:induction false} WalkFront(l: Layout, data: seq<byte>, t: Tile, k: nat)
    requires Good(l, t) && k >= 1 && t.idx + k <= |l.crp|
    ensures Good(l, Report(l, ParseOne(l, data, t).1))
    ensures Walk(l, data, Report(l, ParseOne(l, data, t).1), k - 1) == Walk(l, data, t, k)
  {
    hide StoreOk, LayoutOk, ParseOne;
    if k == 1 {
      assert Walk(l, data, t, 0) == t;
    } else {
      WalkFront(l, data, t, k - 1);
    }
  }

  /**
   No precinct fails in a flush exactly when the rest of the progression parses in sequence;
   then the flush is that walk, and each of its precincts is called back.  A flush that fails
   has a failed precinct.
   */
  lemma {:induction false} FlushFailsIff(l: Layout, data: seq<byte>, t: Tile)
    requires Good(l, t)
    ensures FlushFailures(l, data, t) == 0 <==> Sequential(l, data, t)
    ensures Sequential(l, data, t) && t.idx <= |l.crp| ==>
              Flush(l, data, t) == (Ok, Walk(l, data, t, |l.crp| - t.idx))
    ensures Flush(l, data, t).0 != Ok ==> FlushFailures(l, data, t) > 0
    decreases |l.crp| - t.idx + |t.signals|
  {
    hide StoreOk, LayoutOk, ReadPacket, TryRecover, Good, Sequential;
    if t.idx < |l.crp| {
      StopsAtOnce(l, data, t);
      var (ok, t1) := ParseOne(l, data, t);
      if ok {
        SequentialFront(l, data, t);
        FlushFailsIff(l, data, Report(l, t1));
        WalkFront(l, data, t, |l.crp| - t.idx);
      } else {
        RecoverProgress(l, t1);
        RecoverKeepsGood(l, t1);
        var (recovered, t2) := TryRecover(l, t1);
        if recovered { FlushFailsIff(l, data, t2); }
      }
    } else {
      NothingLeft(l, data, t);
    }
  }

  lemma RecoverKeepsGood(l: Layout, t: Tile)
    requires Good(l, t)
    ensures Good(l, TryRecover(l, t).1)
  {
    hide StoreOk, LayoutOk, Lookup, DropPassed;
  }

  /** A precinct that cannot be read at the index is a break in the sequence. */
  lemma StopsAtOnce(l: Layout, data: seq<byte>, t: Tile)
    requires Good(l, t) && t.idx < |l.crp|
    ensures Sequential(l, data, t) ==> ParseOne(l, data, t).0
  {
    hide StoreOk, LayoutOk, ParseOne;
    assert Walk(l, data, t, 0) == t;
  }

  lemma NothingLeft(l: Layout, data: seq<byte>, t: Tile)
    requires Good(l, t) && t.idx >= |l.crp|
    ensures Sequential(l, data, t) && (t.idx == |l.crp| ==> Walk(l, data, t, |l.crp| - t.idx) == t)
  {
    hide StoreOk, LayoutOk, ParseOne;
  }

  lemma SequentialFront(l: Layout, data: seq<byte>, t: Tile)
    requires Good(l, t) && t.idx < |l.crp| && ParseOne(l, data, t).0
    ensures Good(l, Report(l, ParseOne(l, data, t).1))
    ensures Sequential(l, data, t) <==> Sequential(l, data, Report(l, ParseOne(l, data, t).1))
  {
    hide StoreOk, LayoutOk, ParseOne;
    var n := Report(l, ParseOne(l, data, t).1);
    assert Walk(l, data, t, 0) == t;
    if Sequential(l, data, n) {
      forall k | 0 <= k < |l.crp| - t.idx ensures ParseOne(l, data, Walk(l, data, t, k)).0 {
        if k > 0 { WalkFront(l, data, t, k); }
      }
    }
    if Sequential(l, data, t) {
      forall k | 0 <= k < |l.crp| - n.idx ensures ParseOne(l, data, Walk(l, data, n, k)).0 {
        WalkFront(l, data, t, k + 1);
      }
    }
  }
}
