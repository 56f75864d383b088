/**
 How many precincts of a resolution the walk lists for a tile anywhere on the reference grid, its
 edges cutting precincts or not: all of them exactly if the tile starts on a step of the walk and
 the resolution is not an empty one whose edge cuts a precinct.
 */
module GridOffsets {
  import opened Bytes
  import opened TileHandler
  import opened Precincts
  import opened Progression
  import GC = GridCoverage

  // ---------------------------------------------------------------- one dimension

  /** Hits before `x` of a walk from `x0`: multiples of `space`, and the start itself if it cuts a precinct. */
  function HitsBefore(x0: nat, step: nat, space: nat, cut: bool, x: nat): nat
    requires step >= 1 && space >= 1
  {
    if x >= x0 + step then
      var x' := x - step;
      HitsBefore(x0, step, space, cut, x') + ToNat(x' % space == 0 || (x' == x0 && cut))
    else 0
  }

  /** From a start on a step, hits are the cells begun so far. */
  lemma {:induction false} HitsClosed(a: nat, step: nat, k: nat, cut: bool, i: nat)
    requires step >= 1 && k >= 1 && step * k >= 1 && (cut ==> (step * a) % (step * k) != 0)
    ensures HitsBefore(step * a, step, step * k, cut, step * a + step * i)
         == CeilDiv(step * (a + i), step * k) - CeilDiv(step * a, step * k) + ToNat(i > 0 && cut)
  {
    hide CeilDiv;
    MulDistributes(step, a, i);
    if i > 0 {
      HitsClosed(a, step, k, cut, i - 1);
      MulDistributes(step, i, -1);
      MulDistributes(step, a, i - 1);
      MulMonotone(step, 1, i);
      GC.CeilStep(step, a + i - 1, k);
      if i > 1 { MulMonotone(step, 1, i - 1); }
    }
  }

  /** A multiple of the spacing is a multiple of the step. */
  lemma OffStep(x: nat, step: nat, k: nat)
    requires step >= 1 && k >= 1 && step * k >= 1 && x % step != 0
    ensures x % (step * k) != 0
  {
    if x % (step * k) == 0 {
      var q := x / (step * k);
      assert x == (step * k) * q;
      MulAssociates(step, k, q);
      Quotient(x, step, k * q);
      QuotientRest(x, step);
      assert false;
    }
  }

  lemma QuotientRest(x: nat, m: nat)
    requires m >= 1
    ensures x % m == x - m * (x / m)
  {}

  lemma StepAway(x: nat, step: nat)
    requires step >= 1
    ensures (x + step) % step == x % step
  {
    QuotientBounds(x, step);
    MulDistributes(step, x / step, 1);
    Quotient(x + step, step, x / step + 1);
    QuotientRest(x, step);
    QuotientRest(x + step, step);
  }

  /** From a start off the steps only the start itself can be hit. */
  lemma {:induction false} HitsOff(x0: nat, step: nat, k: nat, cut: bool, i: nat)
    requires step >= 1 && k >= 1 && step * k >= 1 && x0 % step != 0
    ensures HitsBefore(x0, step, step * k, cut, x0 + step * i) == ToNat(i > 0 && cut)
    ensures (x0 + step * i) % step == x0 % step
  {
    if i > 0 {
      HitsOff(x0, step, k, cut, i - 1);
      MulDistributes(step, i, -1);
      MulMonotone(step, 1, i);
      var x' := x0 + step * (i - 1);
      StepAway(x', step);
      OffStep(x', step, k);
      if i > 1 { MulMonotone(step, 1, i - 1); }
    }
  }

  /** The end of the grid in steps from its start. */
  lemma {:induction false} EndInSteps(at: nat, end: nat, step: nat) returns (n: nat)
    requires step >= 1
    ensures GridEnd(at, end, step) == at + step * n && (n > 0 <==> at < end)
    decreases end - at
  {
    n := 0;
    if at < end {
      var m := EndInSteps(at + step, end, step);
      n := m + 1;
      MulDistributes(step, m, 1);
    }
  }

  // ------------------------------------------------- tile, component, resolution

  /** A tile coordinate in a resolution. */
  function Low(at: nat, sub: nat, depth: nat): nat
    requires sub >= 1
  {
    CeilDiv(CeilDiv(at, sub), Pow2(depth))
  }

  /** How many precinct columns of a resolution the walk hits. */
  function Listed(x0: nat, x1: nat, step: nat, sub: nat, depth: nat, pr: nat): nat
    requires step >= 1 && sub >= 1
  {
    var lo, hi := Low(x0, sub, depth), Low(x1, sub, depth);
    if x0 >= x1 then 0
    else if x0 % step == 0 && hi > lo then Cells(lo, hi, Pow2(pr))
    else ToNat(lo % Pow2(pr) != 0)
  }

  /** Resolution cells are tile cells of the wider spacing. */
  lemma LowCells(at: nat, sub: nat, depth: nat, pr: nat)
    requires sub >= 1
    ensures sub * Pow2(pr + depth) >= 1
    ensures CeilDiv(Low(at, sub, depth), Pow2(pr)) == CeilDiv(at, sub * Pow2(pr + depth))
  {
    var d, p := Pow2(depth), Pow2(pr);
    hide CeilDiv, Pow2;
    CeilDivCeilDiv(at, sub, d);
    CeilDivCeilDiv(at, sub * d, p);
    Pow2Add(pr, depth);
    MulAssociates(sub, d, p);
    assert p * d == d * p;
  }

  lemma CeilIsFloor(a: nat, m: nat)
    requires m >= 1
    ensures CeilDiv(a, m) == a / m + ToNat(a % m != 0)
  {
    hide CeilDiv;
    QuotientBounds(a, m);
    QuotientRest(a, m);
    MulDistributes(m, a / m, 1);
    Ceiling(a, m, a / m + ToNat(a % m != 0));
  }

  lemma Scale(p: nat, q: nat, t: nat, d: nat)
    ensures (p * q + t) * d == (p * d) * q + t * d
  {
    assert (p * q) * d == (p * d) * q;
  }

  lemma ScaledRest(a: nat, p: nat, d: nat)
    requires p >= 1 && d >= 1 && p * d >= 1
    ensures (a * d) % (p * d) == (a % p) * d
  {
    var q, t := a / p, a % p;
    QuotientRest(a, p);
    Scale(p, q, t, d);
    MulMonotone(d, t, p - 1);
    MulDistributes(d, p, -1);
    Quotient(a * d, p * d, q);
    QuotientRest(a * d, p * d);
  }

  /** The source's test for a cut precinct: the resolution's edge is not a multiple of the precinct size. */
  lemma CutTest(lo: nat, depth: nat, pr: nat)
    ensures (lo * Pow2(depth)) % Pow2(pr + depth) != 0 <==> lo % Pow2(pr) != 0
  {
    Pow2Add(pr, depth);
    hide Pow2;
    ScaledRest(lo, Pow2(pr), Pow2(depth));
    if lo % Pow2(pr) > 0 { MulMonotone(Pow2(depth), 1, lo % Pow2(pr)); }
  }

  /** A start on the precinct grid does not cut. */
  lemma NoCutOnGrid(x0: nat, sub: nat, depth: nat, pr: nat)
    requires sub >= 1 && sub * Pow2(pr + depth) >= 1 && x0 % (sub * Pow2(pr + depth)) == 0
    ensures Low(x0, sub, depth) % Pow2(pr) == 0
  {
    var d, p, m := Pow2(depth), Pow2(pr), sub * Pow2(pr + depth);
    Pow2Add(pr, depth);
    hide CeilDiv, Pow2;
    var q := x0 / m;
    QuotientRest(x0, m);
    CeilDivCeilDiv(x0, sub, d);
    assert m * q == (sub * d) * (p * q) by {
      MulAssociates(sub, d, p);
      MulAssociates(sub * d, p, q);
      assert p * d == d * p;
    }
    Ceiling(x0, sub * d, p * q);
    Quotient(p * q, p, q);
    QuotientRest(p * q, p);
  }

  lemma LowMonotone(a: nat, b: nat, sub: nat, depth: nat)
    requires sub >= 1 && a <= b
    ensures Low(a, sub, depth) <= Low(b, sub, depth)
  {
    hide Pow2;
    CeilMonotone(a, b, sub);
    CeilMonotone(CeilDiv(a, sub), CeilDiv(b, sub), Pow2(depth));
  }

  lemma CeilMonotone(a: nat, b: nat, m: nat)
    requires m >= 1 && a <= b
    ensures CeilDiv(a, m) <= CeilDiv(b, m)
  {
    hide CeilDiv;
    CeilingBounds(a, m);
    CeilingBounds(b, m);
    if CeilDiv(b, m) < CeilDiv(a, m) {
      MulMonotone(m, CeilDiv(b, m), CeilDiv(a, m) - 1);
      MulDistributes(m, CeilDiv(a, m), -1);
    }
  }

  /** One dimension: the hits up to the end of the grid. */
  lemma {:induction false} ListedIs(x0: nat, x1: nat, e: nat, sub: nat, depth: nat, pr: nat)
    requires sub >= 1 && e <= pr
    ensures var step, lo := Pow2(e), Low(x0, sub, depth);
            && sub * Pow2(pr + depth) >= 1
            && HitsBefore(x0, step, sub * Pow2(pr + depth), (lo * Pow2(depth)) % Pow2(pr + depth) != 0,
                          GridEnd(x0, x1, step))
               == Listed(x0, x1, step, sub, depth, pr)
  {
    var step, lo, hi, m := Pow2(e), Low(x0, sub, depth), Low(x1, sub, depth), sub * Pow2(pr + depth);
    var cut := lo % Pow2(pr) != 0;
    LowCells(x0, sub, depth, pr);
    LowCells(x1, sub, depth, pr);
    CutTest(lo, depth, pr);
    var k := GC.StepsDivide(e, sub, pr + depth);
    var n := EndInSteps(x0, x1, step);
    hide CeilDiv, Pow2, Low, HitsBefore;
    if x0 % step != 0 {
      HitsOff(x0, step, k, cut, n);
    } else {
      var a := x0 / step;
      QuotientRest(x0, step);
      if x0 % m == 0 { NoCutOnGrid(x0, sub, depth, pr); }
      HitsClosed(a, step, k, cut, n);
      MulDistributes(step, a, n);
      CeilIsFloor(lo, Pow2(pr));
      if x0 < x1 {
        GridEndCells(x0, x1, a, step, k);
        LowMonotone(x0, x1, sub, depth);
      }
    }
  }

  lemma GridEndCells(x0: nat, x1: nat, a: nat, step: nat, k: nat)
    requires step >= 1 && step * k >= 1 && x0 == step * a && x0 < x1
    ensures CeilDiv(GridEnd(x0, x1, step), step * k) == CeilDiv(x1, step * k)
  {
    hide CeilDiv;
    CeilingBounds(x1, step);
    if CeilDiv(x1, step) < a { MulMonotone(step, CeilDiv(x1, step), a); }
    GC.GridEndIs(step, a, x1);
    GC.CellsOfGridEnd(step, k, x1);
  }

  // ---------------------------------------------------------------- two dimensions

  /** Steps no larger than any precinct, and resolutions placed and divided as the structure computes them. */
  predicate Structured(w: Grid, ex: nat, ey: nat) {
    && Sound(w) && w.sx == Pow2(ex) && w.sy == Pow2(ey)
    && forall c, r :: 0 <= c < COMPONENTS && 0 <= r < |w.g.comps[c].res| ==>
         Laid(w.g, ex, ey, w.g.comps[c], w.g.comps[c].res[r])
  }

  predicate Laid(g: Geometry, ex: nat, ey: nat, comp: Component, res: Resolution) {
    && comp.subX >= 1 && comp.subY >= 1 && ex <= res.prw && ey <= res.prh
    && res.x0 == Low(g.x0, comp.subX, res.dx) && res.y0 == Low(g.y0, comp.subY, res.dy)
    && res.npw == Cells(res.x0, Low(g.x1, comp.subX, res.dx), Pow2(res.prw))
    && res.nph == Cells(res.y0, Low(g.y1, comp.subY, res.dy), Pow2(res.prh))
  }

  /** Columns and rows of precincts the walk lists. */
  function Columns(w: Grid, c: nat, r: nat): nat
    requires Sound(w) && Known(w, c, r)
  {
    var res := w.g.comps[c].res[r];
    Listed(w.g.x0, w.g.x1, w.sx, w.g.comps[c].subX, res.dx, res.prw)
  }

  function Rows(w: Grid, c: nat, r: nat): nat
    requires Sound(w) && Known(w, c, r)
  {
    var res := w.g.comps[c].res[r];
    Listed(w.g.y0, w.g.y1, w.sy, w.g.comps[c].subY, res.dy, res.prh)
  }

  lemma {:induction false} ColsAreHits(w: Grid, c: nat, r: nat, x: nat)
    requires Sound(w) && Known(w, c, r)
    ensures var res := w.g.comps[c].res[r];
            GC.ColsBefore(w, c, r, x)
              == HitsBefore(w.g.x0, w.sx, SpaceX(w, c, r), (res.x0 * Pow2(res.dx)) % Pow2(res.prw + res.dx) != 0, x)
  {
    if x >= w.g.x0 + w.sx { ColsAreHits(w, c, r, x - w.sx); }
  }

  lemma {:induction false} RowsAreHits(w: Grid, c: nat, r: nat, y: nat)
    requires Sound(w) && Known(w, c, r)
    ensures var res := w.g.comps[c].res[r];
            GC.RowsBefore(w, c, r, y)
              == HitsBefore(w.g.y0, w.sy, SpaceY(w, c, r), (res.y0 * Pow2(res.dy)) % Pow2(res.prh + res.dy) != 0, y)
  {
    if y >= w.g.y0 + w.sy { RowsAreHits(w, c, r, y - w.sy); }
  }

  lemma FullExtent(w: Grid, ex: nat, ey: nat, c: nat, r: nat)
    requires Structured(w, ex, ey) && Known(w, c, r)
    ensures GC.ColsBefore(w, c, r, XEnd(w)) == Columns(w, c, r)
    ensures GC.RowsBefore(w, c, r, YEnd(w)) == Rows(w, c, r)
  {
    var comp := w.g.comps[c];
    var res := comp.res[r];
    assert Laid(w.g, ex, ey, comp, res);
    hide Pow2, HitsBefore, Listed, Low, Cells;
    ColsAreHits(w, c, r, XEnd(w));
    RowsAreHits(w, c, r, YEnd(w));
    ListedIs(w.g.x0, w.g.x1, ex, comp.subX, res.dx, res.prw);
    ListedIs(w.g.y0, w.g.y1, ey, comp.subY, res.dy, res.prh);
  }

  /**
   For a tile anywhere, either order lists of each resolution the numbers from 0 up to columns
   times rows, in order.
   */
  lemma {:induction false} EachResolutionListed(w: Grid, ex: nat, ey: nat, o: Order, c: nat, r: nat)
    requires Structured(w, ex, ey)
    ensures Only(Sequence(w, o), c, r)
         == Numbered(c, r, if Known(w, c, r) then Rows(w, c, r) * Columns(w, c, r) else 0)
  {
    hide Only, Numbered, XEnd, Laid, Columns, Rows;
    OnlyUpTo(w, o, c, r, YEnd(w), w.g.x0);
    if Known(w, c, r) {
      FullExtent(w, ex, ey, c, r);
      GC.BeforeFactors(w, c, r, YEnd(w), w.g.x0);
      assert GC.ColsBefore(w, c, r, w.g.x0) == 0;
    } else {
      GC.NeverHit(w, c, r, YEnd(w), w.g.x0);
    }
  }

  /**
   One dimension is listed in full exactly when the tile starts on a step, or what is off it is
   one cut precinct at most.
   */
  lemma {:induction false} FullIff(x0: nat, x1: nat, step: nat, sub: nat, depth: nat, pr: nat)
    requires step >= 1 && sub >= 1 && x0 < x1
    ensures var lo, hi := Low(x0, sub, depth), Low(x1, sub, depth);
            Listed(x0, x1, step, sub, depth, pr) == Cells(lo, hi, Pow2(pr)) <==>
              if hi > lo then x0 % step == 0 || (Cells(lo, hi, Pow2(pr)) == 1 && lo % Pow2(pr) != 0)
              else lo % Pow2(pr) == 0
  {
    hide Low, Pow2;
  }

  /** A tile on the steps with no empty resolution: all precincts of every resolution, in order. */
  lemma {:induction false} EveryPrecinctListed(w: Grid, ex: nat, ey: nat, o: Order, c: nat, r: nat)
    requires Structured(w, ex, ey) && Known(w, c, r)
    requires w.g.x0 % w.sx == 0 && w.g.y0 % w.sy == 0
    requires w.g.comps[c].res[r].npw > 0 && w.g.comps[c].res[r].nph > 0
    ensures Only(Sequence(w, o), c, r) == Numbered(c, r, w.g.comps[c].res[r].nph * w.g.comps[c].res[r].npw)
  {
    var comp := w.g.comps[c];
    var res := comp.res[r];
    assert Laid(w.g, ex, ey, comp, res);
    hide Only, Numbered, Sequence, Structured, Pow2;
    EachResolutionListed(w, ex, ey, o, c, r);
    InTile(w.g.x0, w.g.x1, comp.subX, res.dx);
    InTile(w.g.y0, w.g.y1, comp.subY, res.dy);
  }

  lemma InTile(x0: nat, x1: nat, sub: nat, depth: nat)
    requires sub >= 1 && Low(x0, sub, depth) < Low(x1, sub, depth)
    ensures x0 < x1
  {
    if x1 <= x0 { LowMonotone(x1, x0, sub, depth); }
  }

  /** Three components of three by one samples from column 1 on, in precincts two samples wide. */
  const THREE_WIDE := Component(1, 1, [Resolution(1, 0, 0, 0, 1, 0, 2, 1)])

  const OFF_STEP := Grid(Geometry(1, 0, 4, 1, [THREE_WIDE, THREE_WIDE, THREE_WIDE]), 2, 1)

  /** A tile that starts off the steps: of the two precincts of a resolution the walk lists one. */
  lemma {:induction false} OffStepMisses(o: Order)
    ensures Structured(OFF_STEP, 1, 0) && Known(OFF_STEP, 0, 0)
    ensures OFF_STEP.g.comps[0].res[0].nph * OFF_STEP.g.comps[0].res[0].npw == 2
    ensures Only(Sequence(OFF_STEP, o), 0, 0) == [Crp(0, 0, 0)]
  {
    OffStepLaid();
    OffStepCounts();
    OneNumbered();
    hide Structured, Columns, Rows, Only, Sequence, Numbered, Sound;
    EachResolutionListed(OFF_STEP, 1, 0, o, 0, 0);
  }

  lemma OneNumbered()
    ensures Numbered(0, 0, 1) == [Crp(0, 0, 0)]
  {
    assert Numbered(0, 0, 0) == [];
  }

  lemma OneAndTwo()
    ensures Pow2(0) == 1 && Pow2(1) == 2
  {}

  lemma OffStepLaid()
    ensures Structured(OFF_STEP, 1, 0) && Known(OFF_STEP, 0, 0)
  {
    OneAndTwo();
    ThreeWideLaid();
    hide Laid, Pow2;
    assert forall c :: 0 <= c < COMPONENTS ==> OFF_STEP.g.comps[c] == THREE_WIDE;
  }

  lemma ThreeWideLaid()
    ensures Laid(OFF_STEP.g, 1, 0, THREE_WIDE, THREE_WIDE.res[0])
  {
    OneAndTwo();
    hide Pow2, CeilDiv;
    Ceiling(0, 1, 0);
    Ceiling(1, 1, 1);
    Ceiling(4, 1, 4);
    Ceiling(4, 2, 2);
  }

  lemma OffStepCounts()
    requires Sound(OFF_STEP) && Known(OFF_STEP, 0, 0)
    ensures Columns(OFF_STEP, 0, 0) == 1 && Rows(OFF_STEP, 0, 0) == 1
  {
    OneAndTwo();
    hide Sound, Pow2;
  }
}
