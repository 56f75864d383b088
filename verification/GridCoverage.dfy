/**
 For a tile at the origin the running precinct numbers are the cells of the precinct
 grid: the walk emits, at grid point (x, y), precinct (y/My)*npw + x/Mx, and so lists
 every precinct of every component and resolution exactly once.
 */
module GridCoverage {
  import opened Bytes
  import opened TileHandler
  import opened Precincts
  import opened Progression

  /** Hit columns left of grid column `x`. */
  function ColsBefore(w: Grid, c: nat, r: nat, x: nat): nat
    requires Sound(w) && Known(w, c, r)
  {
    if x >= w.g.x0 + w.sx then ColsBefore(w, c, r, x - w.sx) + ToNat(HitX(w, c, r, x - w.sx)) else 0
  }

  function RowsBefore(w: Grid, c: nat, r: nat, y: nat): nat
    requires Sound(w) && Known(w, c, r)
  {
    if y >= w.g.y0 + w.sy then RowsBefore(w, c, r, y - w.sy) + ToNat(HitY(w, c, r, y - w.sy)) else 0
  }

  /** Hits factor into full rows above and columns to the left. */
  lemma {:induction false} BeforeFactors(w: Grid, c: nat, r: nat, y: nat, x: nat)
    requires Sound(w) && Known(w, c, r)
    ensures Before(w, c, r, y, x)
         == RowsBefore(w, c, r, y) * ColsBefore(w, c, r, XEnd(w))
            + (if HitY(w, c, r, y) then ColsBefore(w, c, r, x) else 0)
    decreases y, x
  {
    hide HitX, HitY, XEnd;
    if x >= w.g.x0 + w.sx {
      BeforeFactors(w, c, r, y, x - w.sx);
    } else if y >= w.g.y0 + w.sy {
      BeforeFactors(w, c, r, y - w.sy, XEnd(w));
      OneMoreRow(RowsBefore(w, c, r, y - w.sy), HitY(w, c, r, y - w.sy), ColsBefore(w, c, r, XEnd(w)));
    }
  }

  lemma OneMoreRow(rows: nat, hit: bool, cols: nat)
    ensures rows * cols + (if hit then cols else 0) == (rows + ToNat(hit)) * cols
  {}

  // ---------------------------------------------------------- one dimension

  /** One grid step adds a cell exactly at the cell's first coordinate. */
  lemma CeilStep(step: nat, i: nat, k: nat)
    requires step >= 1 && k >= 1 && step * k >= 1
    ensures CeilDiv(step * i + step, step * k) == CeilDiv(step * i, step * k) + ToNat((step * i) % (step * k) == 0)
  {
    hide CeilDiv;
    var a, m := step * i, step * k;
    var q, t := a / m, a % m;
    assert a == m * q + t;
    MulAssociates(step, k, q);
    MulDistributes(step, i, -(k * q));
    assert t == step * (i - k * q);
    if i - k * q >= k { MulMonotone(step, k, i - k * q); }
    MulMonotone(step, i - k * q, k - 1);
    MulDistributes(step, k, -1);
    MulDistributes(m, q, 1);
    MulMonotone(step, 1, k);
    if t == 0 {
      Ceiling(a, m, q);
      Ceiling(a + step, m, q + 1);
    } else {
      Ceiling(a, m, q + 1);
      Ceiling(a + step, m, q + 1);
    }
  }

  /** The end of the grid is the extent rounded up to a step. */
  lemma {:induction false} GridEndIs(step: nat, j: nat, end: nat)
    requires step >= 1 && j <= CeilDiv(end, step)
    ensures GridEnd(step * j, end, step) == step * CeilDiv(end, step)
    decreases end - step * j
  {
    hide CeilDiv;
    CeilingBounds(end, step);
    MulDistributes(step, j, 1);
    var n := CeilDiv(end, step);
    if step * j < end {
      if n <= j { MulMonotone(step, n, j); }
      GridEndIs(step, j + 1, end);
    } else if j < n {
      MulMonotone(step, j + 1, n);
    }
  }

  /** Rounding the extent up to a step does not change the number of cells. */
  lemma CellsOfGridEnd(step: nat, k: nat, end: nat)
    requires step >= 1 && step * k >= 1
    ensures CeilDiv(step * CeilDiv(end, step), step * k) == CeilDiv(end, step * k)
  {
    hide CeilDiv;
    var u, n := CeilDiv(end, step), CeilDiv(end, step * k);
    CeilingBounds(end, step);
    CeilingBounds(end, step * k);
    MulAssociates(step, k, n);
    if k * n < u {
      MulMonotone(step, k * n, u - 1);
      MulDistributes(step, u, -1);
    }
    MulMonotone(step, u, k * n);
    Ceiling(step * u, step * k, n);
  }

  // ------------------------------------------------------------- the tile at the origin

  /**
   Zero offsets, precinct counts as the structure computes them, and power-of-two steps no
   larger than any precinct.
   */
  predicate AtOrigin(w: Grid, ex: nat, ey: nat) {
    && Sound(w) && w.g.x0 == 0 && w.g.y0 == 0 && w.sx == Pow2(ex) && w.sy == Pow2(ey)
    && forall c, r :: 0 <= c < COMPONENTS && 0 <= r < |w.g.comps[c].res| ==>
         ResolutionOk(w, ex, ey, w.g.comps[c], w.g.comps[c].res[r])
  }

  predicate ResolutionOk(w: Grid, ex: nat, ey: nat, comp: Component, res: Resolution) {
    && res.x0 == 0 && res.y0 == 0 && ex <= res.prw && ey <= res.prh && comp.subX >= 1 && comp.subY >= 1
    && res.npw == PrecinctsAcross(w.g.x1, comp.subX, res.dx, res.prw)
    && res.nph == PrecinctsAcross(w.g.y1, comp.subY, res.dy, res.prh)
  }

  /** The spacing is a whole number of steps. */
  lemma StepsDivide(e: nat, sub: nat, exp: nat) returns (k: nat)
    requires sub >= 1 && e <= exp
    ensures k >= 1 && sub * Pow2(exp) == Pow2(e) * k
  {
    Pow2Add(e, exp - e);
    k := sub * Pow2(exp - e);
    MulMonotone(Pow2(exp - e), 1, sub);
    MulAssociates(Pow2(e), Pow2(exp - e), sub);
    assert sub * Pow2(exp - e) == Pow2(exp - e) * sub;
  }

  lemma {:induction false} ColsClosed(w: Grid, ex: nat, ey: nat, c: nat, r: nat, i: nat, k: nat)
    requires AtOrigin(w, ex, ey) && Known(w, c, r) && k >= 1 && SpaceX(w, c, r) == w.sx * k
    ensures ColsBefore(w, c, r, w.sx * i) == CeilDiv(w.sx * i, SpaceX(w, c, r))
    decreases i
  {
    hide CeilDiv, SpaceX, Pow2;
    MulDistributes(w.sx, i, -1);
    if i == 0 {
      Ceiling(0, SpaceX(w, c, r), 0);
    } else {
      MulMonotone(w.sx, 1, i);
      ColsClosed(w, ex, ey, c, r, i - 1, k);
      CeilStep(w.sx, i - 1, k);
      NoCutX(w, ex, ey, c, r, w.sx * (i - 1));
    }
  }

  lemma {:induction false} RowsClosed(w: Grid, ex: nat, ey: nat, c: nat, r: nat, i: nat, k: nat)
    requires AtOrigin(w, ex, ey) && Known(w, c, r) && k >= 1 && SpaceY(w, c, r) == w.sy * k
    ensures RowsBefore(w, c, r, w.sy * i) == CeilDiv(w.sy * i, SpaceY(w, c, r))
    decreases i
  {
    hide CeilDiv, SpaceY, Pow2;
    MulDistributes(w.sy, i, -1);
    if i == 0 {
      Ceiling(0, SpaceY(w, c, r), 0);
    } else {
      MulMonotone(w.sy, 1, i);
      RowsClosed(w, ex, ey, c, r, i - 1, k);
      CeilStep(w.sy, i - 1, k);
      NoCutY(w, ex, ey, c, r, w.sy * (i - 1));
    }
  }

  /** At the origin the tile edge cuts no precinct. */
  lemma NoCutX(w: Grid, ex: nat, ey: nat, c: nat, r: nat, x: nat)
    requires AtOrigin(w, ex, ey) && Known(w, c, r)
    ensures HitX(w, c, r, x) <==> x % SpaceX(w, c, r) == 0
  {
    assert ResolutionOk(w, ex, ey, w.g.comps[c], w.g.comps[c].res[r]);
    assert 0 * Pow2(w.g.comps[c].res[r].dx) == 0;
  }

  lemma NoCutY(w: Grid, ex: nat, ey: nat, c: nat, r: nat, y: nat)
    requires AtOrigin(w, ex, ey) && Known(w, c, r)
    ensures HitY(w, c, r, y) <==> y % SpaceY(w, c, r) == 0
  {
    assert ResolutionOk(w, ex, ey, w.g.comps[c], w.g.comps[c].res[r]);
    assert 0 * Pow2(w.g.comps[c].res[r].dy) == 0;
  }

  /** A full row hits npw columns, and the rows that hit are nph. */
  lemma FullExtent(w: Grid, ex: nat, ey: nat, c: nat, r: nat)
    requires AtOrigin(w, ex, ey) && Known(w, c, r)
    ensures ColsBefore(w, c, r, XEnd(w)) == w.g.comps[c].res[r].npw
    ensures RowsBefore(w, c, r, YEnd(w)) == w.g.comps[c].res[r].nph
  {
    var comp := w.g.comps[c];
    var res := comp.res[r];
    assert ResolutionOk(w, ex, ey, comp, res);
    hide CeilDiv, Pow2;
    var kx := StepsDivide(ex, comp.subX, res.prw + res.dx);
    var ky := StepsDivide(ey, comp.subY, res.prh + res.dy);
    GridEndIs(w.sx, 0, w.g.x1);
    GridEndIs(w.sy, 0, w.g.y1);
    ColsClosed(w, ex, ey, c, r, CeilDiv(w.g.x1, w.sx), kx);
    RowsClosed(w, ex, ey, c, r, CeilDiv(w.g.y1, w.sy), ky);
    CellsOfGridEnd(w.sx, kx, w.g.x1);
    CellsOfGridEnd(w.sy, ky, w.g.y1);
    PrecinctsAcrossClosed(w.g.x1, comp.subX, res.dx, res.prw);
    PrecinctsAcrossClosed(w.g.y1, comp.subY, res.dy, res.prh);
  }

  lemma ExactCeil(x: nat, m: nat)
    requires m >= 1 && x % m == 0
    ensures CeilDiv(x, m) == x / m
  {
    Ceiling(x, m, x / m);
  }

  /**
   The closed form: where the walk hits (c, r) at column i and row j of the step grid,
   the running number is the precinct whose corner is there.
   */
  lemma {:induction false} WalkIsClosedForm(w: Grid, ex: nat, ey: nat, c: nat, r: nat, i: nat, j: nat)
    requires AtOrigin(w, ex, ey) && Hit(w, c, r, w.sy * j, w.sx * i)
    ensures Before(w, c, r, w.sy * j, w.sx * i)
         == (w.sy * j / SpaceY(w, c, r)) * w.g.comps[c].res[r].npw + w.sx * i / SpaceX(w, c, r)
  {
    var comp := w.g.comps[c];
    var res := comp.res[r];
    assert ResolutionOk(w, ex, ey, comp, res);
    var kx := StepsDivide(ex, comp.subX, res.prw + res.dx);
    var ky := StepsDivide(ey, comp.subY, res.prh + res.dy);
    BeforeFactors(w, c, r, w.sy * j, w.sx * i);
    FullExtent(w, ex, ey, c, r);
    ColsClosed(w, ex, ey, c, r, i, kx);
    RowsClosed(w, ex, ey, c, r, j, ky);
    NoCutX(w, ex, ey, c, r, w.sx * i);
    NoCutY(w, ex, ey, c, r, w.sy * j);
    ExactCeil(w.sx * i, SpaceX(w, c, r));
    ExactCeil(w.sy * j, SpaceY(w, c, r));
  }

  // ------------------------------------------------------------ exactly once

  /** The walk numbers the precincts of a resolution from 0 to npw*nph - 1, in order. */
  lemma {:induction false} EachResolutionInOrder(w: Grid, ex: nat, ey: nat, o: Order, c: nat, r: nat)
    requires AtOrigin(w, ex, ey)
    ensures Only(Sequence(w, o), c, r)
         == Numbered(c, r, if Known(w, c, r) then w.g.comps[c].res[r].nph * w.g.comps[c].res[r].npw else 0)
  {
    hide Only, Numbered, XEnd, ResolutionOk;
    OnlyUpTo(w, o, c, r, YEnd(w), 0);
    if Known(w, c, r) {
      FullExtent(w, ex, ey, c, r);
      BeforeFactors(w, c, r, YEnd(w), 0);
    } else {
      NeverHit(w, c, r, YEnd(w), 0);
    }
  }

  lemma {:induction false} NeverHit(w: Grid, c: nat, r: nat, y: nat, x: nat)
    requires Sound(w) && !Known(w, c, r)
    ensures Before(w, c, r, y, x) == 0
    decreases y, x
  {
    if x >= w.g.x0 + w.sx {
      NeverHit(w, c, r, y, x - w.sx);
    } else if y >= w.g.y0 + w.sy {
      NeverHit(w, c, r, y - w.sy, XEnd(w));
    }
  }

  /** How often number `p` comes up when `n` precincts are numbered in sixteen bits. */
  function Times(n: nat, p: nat): nat {
    if p < 65536 && p < n then (n - 1 - p) / 65536 + 1 else 0
  }

  lemma TimesNext(n: nat, p: nat)
    ensures Times(n + 1, p) == Times(n, p) + ToNat(p == n % 65536)
  {
    if p < 65536 && p < n {
      assert (n - 1 - p) / 65536 != (n - p) / 65536 <==> (n - p) % 65536 == 0;
    }
  }

  lemma {:induction false} CountNumbered(c: nat, r: nat, n: nat, p: nat)
    ensures multiset(Numbered(c, r, n))[Crp(c, r, p)] == Times(n, p)
  {
    assert Times(0, p) == 0;
    hide Times;
    if n > 0 {
      CountNumbered(c, r, n - 1, p);
      TimesNext(n - 1, p);
      var init, last := Numbered(c, r, n - 1), Crp(c, r, (n - 1) % 65536);
      assert Numbered(c, r, n) == init + [last];
      assert multiset(init + [last]) == multiset(init) + multiset([last]);
    }
  }

  /** Precincts of a component and resolution; none if there is no such resolution. */
  function PrecinctCount(w: Grid, c: nat, r: nat): nat {
    if Known(w, c, r) then w.g.comps[c].res[r].nph * w.g.comps[c].res[r].npw else 0
  }

  /**
   Coverage: either order lists a precinct number of a component and resolution as often as
   it comes up in sixteen-bit numbering; so with at most 65536 precincts in the resolution,
   every precinct exactly once and nothing else.
   */
  lemma {:induction false} EveryPrecinctOnce(w: Grid, ex: nat, ey: nat, o: Order, e: Crp)
    requires AtOrigin(w, ex, ey)
    ensures multiset(Sequence(w, o))[e] == Times(PrecinctCount(w, e.c, e.r), e.p)
    ensures PrecinctCount(w, e.c, e.r) <= 65536 ==>
              multiset(Sequence(w, o))[e] == ToNat(e.p < PrecinctCount(w, e.c, e.r))
  {
    hide Only, Numbered, Sequence, ResolutionOk;
    EachResolutionInOrder(w, ex, ey, o, e.c, e.r);
    CountByOnly(Sequence(w, o), e);
    CountNumbered(e.c, e.r, PrecinctCount(w, e.c, e.r), e.p);
  }

  /** No entry of the progression repeats, in either order, exactly when no resolution has more than 65536 precincts. */
  lemma {:induction false} DistinctIff(w: Grid, ex: nat, ey: nat, o: Order)
    requires AtOrigin(w, ex, ey)
    ensures (forall i, j :: 0 <= i < j < |Sequence(w, o)| ==> Sequence(w, o)[i] != Sequence(w, o)[j])
        <==> forall c: nat, r: nat :: PrecinctCount(w, c, r) <= 65536
  {
    hide Sequence, PrecinctCount, ResolutionOk;
    var s := Sequence(w, o);
    if c: nat, r: nat :| PrecinctCount(w, c, r) > 65536 {
      var e := Crp(c, r, 0);
      EveryPrecinctOnce(w, ex, ey, o, e);
      var i, j := TwiceAt(s, e);
    } else {
      forall i, j | 0 <= i < j < |s| ensures s[i] != s[j] {
        if s[i] == s[j] {
          EveryPrecinctOnce(w, ex, ey, o, s[i]);
          TwiceCounts(s, i, j);
        }
      }
    }
  }

  lemma {:induction false} TwiceAt(s: seq<Crp>, e: Crp) returns (i: nat, j: nat)
    requires multiset(s)[e] >= 2
    ensures i < j < |s| && s[i] == s[j] == e
  {
    var init, last := s[..|s| - 1], s[|s| - 1];
    assert s == init + [last] && multiset(s) == multiset(init) + multiset([last]);
    if last == e {
      assert e in multiset(init);
      i :| 0 <= i < |init| && init[i] == e;
      j := |s| - 1;
    } else {
      i, j := TwiceAt(init, e);
    }
  }

  lemma TwiceCounts(s: seq<Crp>, i: nat, j: nat)
    requires i < j < |s| && s[i] == s[j]
    ensures multiset(s)[s[i]] >= 2
  {
    assert s == s[..j] + [s[j]] + s[j + 1..];
    assert s[i] in s[..j];
  }
}
