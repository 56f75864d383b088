/**
 Resolution and precinct geometry.  Section B.6 of ISO/IEC 15444-1: the precincts of
 a resolution are the cells of a grid anchored at the origin, clipped to the
 resolution's rectangle.
 */
module Precincts {
  import opened Bytes

  function CeilDiv(a: nat, b: nat): nat
    requires b >= 1
  {
    (a + (b - 1)) / b
  }

  function Max(a: nat, b: nat): nat {
    if a > b then a else b
  }

  // ------------------------------------------------------------- division facts

  lemma MulMonotone(c: nat, a: int, b: int)
    requires a <= b
    ensures c * a <= c * b
  {}

  lemma MulDistributes(c: int, a: int, b: int)
    ensures c * (a + b) == c * a + c * b
  {}

  lemma MulAssociates(a: int, b: int, c: int)
    ensures (a * b) * c == a * (b * c)
  {}

  /** `q` is the quotient when `a` lies in `[b*q, b*q + b)`. */
  lemma Quotient(a: nat, b: nat, q: nat)
    requires b >= 1 && b * q <= a < b * q + b
    ensures a / b == q
  {
    var d := a / b;
    assert a == b * d + a % b;
    MulDistributes(b, d, 1);
    MulDistributes(b, q, 1);
    if d < q {
      MulMonotone(b, d + 1, q);
    } else if d > q {
      MulMonotone(b, q + 1, d);
    }
  }

  lemma QuotientBounds(a: nat, b: nat)
    requires b >= 1
    ensures b * (a / b) <= a < b * (a / b) + b
  {
    assert a == b * (a / b) + a % b;
  }

  /** `n` is the ceiling when `a` lies in `(b*(n-1), b*n]`. */
  lemma Ceiling(a: nat, b: nat, n: nat)
    requires b >= 1 && a <= b * n && b * n < a + b
    ensures CeilDiv(a, b) == n
  {
    Quotient(a + (b - 1), b, n);
  }

  lemma CeilingBounds(a: nat, b: nat)
    requires b >= 1
    ensures a <= b * CeilDiv(a, b) < a + b
  {
    QuotientBounds(a + (b - 1), b);
  }

  /** Ceiling divisions nest. */
  lemma {:induction false} CeilDivCeilDiv(a: nat, m: nat, n: nat)
    requires m >= 1 && n >= 1
    ensures m * n >= 1 && CeilDiv(CeilDiv(a, m), n) == CeilDiv(a, m * n)
  {
    hide CeilDiv;
    MulMonotone(m, 1, n);
    var u := CeilDiv(a, m);
    var v := CeilDiv(u, n);
    CeilingBounds(a, m);
    CeilingBounds(u, n);
    MulAssociates(m, n, v);
    MulMonotone(m, u, n * v);
    MulMonotone(m, n * v, u + (n - 1));
    MulDistributes(m, u, n - 1);
    MulDistributes(m, n, -1);
    Ceiling(a, m * n, v);
  }

  lemma {:induction false} Pow2Add(a: nat, b: nat)
    ensures Pow2(a + b) == Pow2(a) * Pow2(b)
  {
    if a > 0 {
      Pow2Add(a - 1, b);
      MulAssociates(2, Pow2(a - 1), Pow2(b));
    }
  }

  // -------------------------------------------------------------- one dimension

  lemma CellsPositive(lo: nat, hi: nat, p: nat)
    requires p >= 1 && lo < hi
    ensures CeilDiv(hi, p) > lo / p
  {
    hide CeilDiv;
    CeilingBounds(hi, p);
    QuotientBounds(lo, p);
    if CeilDiv(hi, p) <= lo / p { MulMonotone(p, CeilDiv(hi, p), lo / p); }
  }

  /** Number of cells of size `p` that meet `[lo, hi)`. */
  function Cells(lo: nat, hi: nat, p: nat): (n: nat)
    requires p >= 1
    ensures hi > lo ==> n >= 1
  {
    if hi > lo then
      assert CeilDiv(hi, p) > lo / p by { CellsPositive(lo, hi, p); }
      CeilDiv(hi, p) - lo / p
    else 0
  }

  function CellLow(lo: nat, p: nat, i: nat): nat
    requires p >= 1
  {
    Max(lo, p * (i + lo / p))
  }

  function CellHigh(lo: nat, hi: nat, p: nat, i: nat): nat
    requires p >= 1
  {
    Min(hi, p * (i + 1 + lo / p))
  }

  /** A coordinate lies in exactly one cell, the one its quotient names. */
  lemma {:induction false} CellOf(lo: nat, hi: nat, p: nat, x: nat, i: nat)
    requires p >= 1 && lo <= x < hi
    ensures 0 <= x / p - lo / p < Cells(lo, hi, p)
    ensures CellLow(lo, p, i) <= x < CellHigh(lo, hi, p, i) <==> i == x / p - lo / p
  {
    QuotientInRange(lo, hi, p, x);
    InCell(p, x, i + lo / p);
  }

  lemma QuotientInRange(lo: nat, hi: nat, p: nat, x: nat)
    requires p >= 1 && lo <= x < hi
    ensures 0 <= x / p - lo / p < Cells(lo, hi, p)
  {
    hide CeilDiv;
    var q, b, n := x / p, lo / p, CeilDiv(hi, p);
    QuotientBounds(x, p);
    QuotientBounds(lo, p);
    CeilingBounds(hi, p);
    MulDistributes(p, q, 1);
    if q < b { MulMonotone(p, q + 1, b); }
    if n <= q { MulMonotone(p, n, q); }
  }

  lemma InCell(p: nat, x: nat, j: nat)
    requires p >= 1
    ensures p * j <= x < p * (j + 1) <==> j == x / p
  {
    MulDistributes(p, j, 1);
    QuotientBounds(x, p);
    if p * j <= x < p * (j + 1) { Quotient(x, p, j); }
  }

  /** Every cell is a non-empty piece of the interval. */
  lemma CellNonEmpty(lo: nat, hi: nat, p: nat, i: nat)
    requires p >= 1 && i < Cells(lo, hi, p)
    ensures lo <= CellLow(lo, p, i) < CellHigh(lo, hi, p, i) <= hi
  {
    hide CeilDiv;
    var b, n := lo / p, CeilDiv(hi, p);
    CeilingBounds(hi, p);
    QuotientBounds(lo, p);
    MulMonotone(p, i + b, n - 1);
    MulDistributes(p, n, -1);
    MulDistributes(p, i + b, 1);
    MulMonotone(p, b + 1, i + b + 1);
    MulDistributes(p, b, 1);
    assert i + 1 + b == i + b + 1;
  }

  // -------------------------------------------------------------- two dimensions

  datatype Rect = Rect(x0: nat, y0: nat, x1: nat, y1: nat)

  predicate Inside(r: Rect, x: nat, y: nat) {
    r.x0 <= x < r.x1 && r.y0 <= y < r.y1
  }

  /** Cell in column `i`, row `j`, clipped to the resolution. */
  function CellRect(res: Rect, ppx: nat, ppy: nat, i: nat, j: nat): Rect
    requires ppx >= 1 && ppy >= 1
  {
    Rect(CellLow(res.x0, ppx, i), CellLow(res.y0, ppy, j),
         CellHigh(res.x0, res.x1, ppx, i), CellHigh(res.y0, res.y1, ppy, j))
  }

  /** Precinct `np` of a resolution, numbered row by row. */
  function PrecinctRect(res: Rect, ppx: nat, ppy: nat, np: nat): Rect
    requires ppx >= 1 && ppy >= 1 && Cells(res.x0, res.x1, ppx) >= 1
  {
    var npw := Cells(res.x0, res.x1, ppx);
    CellRect(res, ppx, ppy, np % npw, np / npw)
  }

  /** The precinct a point of the resolution belongs to. */
  function PrecinctOf(res: Rect, ppx: nat, ppy: nat, x: nat, y: nat): int
    requires ppx >= 1 && ppy >= 1
  {
    (y / ppy - res.y0 / ppy) * Cells(res.x0, res.x1, ppx) + (x / ppx - res.x0 / ppx)
  }

  /** Row-major numbering and its two coordinates determine each other. */
  lemma RowMajor(w: nat, h: nat, col: nat, row: nat, np: nat)
    requires w >= 1 && col < w && row < h
    ensures row * w + col < w * h
    ensures np % w == col && np / w == row <==> np == row * w + col
  {
    MulMonotone(w, row + 1, h);
    MulDistributes(w, row, 1);
    if np == row * w + col { Quotient(np, w, row); }
    assert np == w * (np / w) + np % w;
  }

  lemma InCellRect(res: Rect, ppx: nat, ppy: nat, i: nat, j: nat, x: nat, y: nat)
    requires ppx >= 1 && ppy >= 1 && Inside(res, x, y)
    ensures Inside(CellRect(res, ppx, ppy, i, j), x, y)
        <==> i == x / ppx - res.x0 / ppx && j == y / ppy - res.y0 / ppy
  {
    hide Cells, CellLow, CellHigh;
    CellOf(res.x0, res.x1, ppx, x, i);
    CellOf(res.y0, res.y1, ppy, y, j);
  }

  /**
   The precincts tile the resolution: every point of it lies in exactly one of the
   npw*nph precinct rectangles, the one the row-major formula names.
   */
  lemma {:induction false} PrecinctsTile(res: Rect, ppx: nat, ppy: nat, x: nat, y: nat, np: nat)
    requires ppx >= 1 && ppy >= 1 && Inside(res, x, y)
    ensures 0 <= PrecinctOf(res, ppx, ppy, x, y) < Cells(res.x0, res.x1, ppx) * Cells(res.y0, res.y1, ppy)
    ensures Inside(PrecinctRect(res, ppx, ppy, np), x, y) <==> np == PrecinctOf(res, ppx, ppy, x, y)
  {
    hide Cells, CellRect;
    var npw, nph := Cells(res.x0, res.x1, ppx), Cells(res.y0, res.y1, ppy);
    var col, row := x / ppx - res.x0 / ppx, y / ppy - res.y0 / ppy;
    QuotientInRange(res.x0, res.x1, ppx, x);
    QuotientInRange(res.y0, res.y1, ppy, y);
    InCellRect(res, ppx, ppy, np % npw, np / npw, x, y);
    RowMajor(npw, nph, col, row, np);
  }

  /** No precinct is empty, and none leaves the resolution. */
  lemma {:induction false} PrecinctsNonEmpty(res: Rect, ppx: nat, ppy: nat, np: nat)
    requires ppx >= 1 && ppy >= 1 && res.x0 < res.x1 && res.y0 < res.y1
    requires np < Cells(res.x0, res.x1, ppx) * Cells(res.y0, res.y1, ppy)
    ensures var r := PrecinctRect(res, ppx, ppy, np);
            res.x0 <= r.x0 < r.x1 <= res.x1 && res.y0 <= r.y0 < r.y1 <= res.y1
  {
    hide Cells, CellLow, CellHigh;
    var npw, nph := Cells(res.x0, res.x1, ppx), Cells(res.y0, res.y1, ppy);
    assert np == npw * (np / npw) + np % npw;
    if np / npw >= nph { MulMonotone(npw, nph, np / npw); }
    CellNonEmpty(res.x0, res.x1, ppx, np % npw);
    CellNonEmpty(res.y0, res.y1, ppy, np / npw);
  }

  // ------------------------------------------------------- resolution of a tile

  /** One dimension of a resolution: tile size to component, component to resolution, resolution to precincts. */
  function PrecinctsAcross(size: nat, sub: nat, depth: nat, pr: nat): nat
    requires sub >= 1
  {
    Cells(CeilDiv(CeilDiv(0, sub), Pow2(depth)), CeilDiv(CeilDiv(size, sub), Pow2(depth)), Pow2(pr))
  }

  /** For a tile at the origin the three roundings are one: precincts are `sub * 2^(pr+depth)` apart in the tile. */
  lemma {:induction false} PrecinctsAcrossClosed(size: nat, sub: nat, depth: nat, pr: nat)
    requires sub >= 1
    ensures sub * Pow2(pr + depth) >= 1
    ensures PrecinctsAcross(size, sub, depth, pr) == CeilDiv(size, sub * Pow2(pr + depth))
  {
    var d, p := Pow2(depth), Pow2(pr);
    hide CeilDiv, Pow2;
    Ceiling(0, sub, 0);
    Ceiling(0, d, 0);
    Ceiling(0, p, 0);
    Quotient(0, p, 0);
    CeilDivCeilDiv(size, sub, d);
    CeilDivCeilDiv(size, sub * d, p);
    Pow2Add(pr, depth);
    MulAssociates(sub, d, p);
    assert p * d == d * p;
  }

  /**
   Non-empty rectangles inside `res` such that each point of it is in exactly one, the one the
   row-major formula names.
   */
  ghost predicate Tiling(rects: seq<Rect>, res: Rect, ppx: nat, ppy: nat)
    requires ppx >= 1 && ppy >= 1
  {
    && (forall x, y :: Inside(res, x, y) ==> 0 <= PrecinctOf(res, ppx, ppy, x, y) < |rects|)
    && (forall np, x, y :: 0 <= np < |rects| && Inside(res, x, y) ==>
          (Inside(rects[np], x, y) <==> np == PrecinctOf(res, ppx, ppy, x, y)))
    && (forall np :: 0 <= np < |rects| ==>
          res.x0 <= rects[np].x0 < rects[np].x1 <= res.x1 && res.y0 <= rects[np].y0 < rects[np].y1 <= res.y1)
  }

  lemma PrecinctsAreTiling(rects: seq<Rect>, res: Rect, ppx: nat, ppy: nat)
    requires ppx >= 1 && ppy >= 1 && |rects| == Cells(res.x0, res.x1, ppx) * Cells(res.y0, res.y1, ppy)
    requires |rects| > 0 ==> Cells(res.x0, res.x1, ppx) >= 1 && res.x0 < res.x1 && res.y0 < res.y1
    requires forall k :: 0 <= k < |rects| ==> rects[k] == PrecinctRect(res, ppx, ppy, k)
    ensures Tiling(rects, res, ppx, ppy)
  {
    hide Cells, PrecinctOf, PrecinctRect;
    forall np, x, y | 0 <= np < |rects| && Inside(res, x, y)
      ensures Inside(rects[np], x, y) <==> np == PrecinctOf(res, ppx, ppy, x, y)
    {
      PrecinctsTile(res, ppx, ppy, x, y, np);
    }
    forall x, y | Inside(res, x, y) ensures 0 <= PrecinctOf(res, ppx, ppy, x, y) < |rects| {
      PrecinctsTile(res, ppx, ppy, x, y, 0);
    }
    forall np | 0 <= np < |rects|
      ensures res.x0 <= rects[np].x0 < rects[np].x1 <= res.x1 && res.y0 <= rects[np].y0 < rects[np].y1 <= res.y1
    {
      PrecinctsNonEmpty(res, ppx, ppy, np);
    }
  }

  lemma SomeCells(res: Rect, ppx: nat, ppy: nat)
    requires ppx >= 1 && ppy >= 1
    ensures Cells(res.x0, res.x1, ppx) * Cells(res.y0, res.y1, ppy) > 0 ==>
              Cells(res.x0, res.x1, ppx) >= 1 && res.x0 < res.x1 && res.y0 < res.y1
  {}

  /** One dimension of one precinct. */
  method LayCell(lo: nat, hi: nat, p: nat, i: nat) returns (low: nat, high: nat)
    requires p >= 1
    ensures low == CellLow(lo, p, i) && high == CellHigh(lo, hi, p, i)
  {
    low := Max(lo, p * (i + lo / p));
    high := Min(hi, p * (i + 1 + lo / p));
  }

  method LayPrecinct(res: Rect, ppx: nat, ppy: nat, npw: nat, np: nat) returns (r: Rect)
    requires ppx >= 1 && ppy >= 1 && npw == Cells(res.x0, res.x1, ppx) >= 1
    ensures r == PrecinctRect(res, ppx, ppy, np)
  {
    hide Cells, CellLow, CellHigh;
    var x0, x1 := LayCell(res.x0, res.x1, ppx, np % npw);
    var y0, y1 := LayCell(res.y0, res.y1, ppy, np / npw);
    r := Rect(x0, y0, x1, y1);
  }

  /** The loop that lays out a resolution's precincts, `prw` and `prh` being the precinct size exponents. */
  method LayPrecincts(res: Rect, prw: nat, prh: nat) returns (rects: seq<Rect>)
    ensures |rects| == Cells(res.x0, res.x1, Pow2(prw)) * Cells(res.y0, res.y1, Pow2(prh))
    ensures Tiling(rects, res, Pow2(prw), Pow2(prh))
  {
    hide Cells, Pow2, Tiling, PrecinctRect;
    var ppx, ppy := Pow2(prw), Pow2(prh);
    var npw, nph := Cells(res.x0, res.x1, ppx), Cells(res.y0, res.y1, ppy);
    SomeCells(res, ppx, ppy);
    rects := [];
    for np := 0 to npw * nph
      invariant |rects| == np
      invariant forall k :: 0 <= k < np ==> rects[k] == PrecinctRect(res, ppx, ppy, k)
    {
      var r := LayPrecinct(res, ppx, ppy, npw, np);
      rects := rects + [r];
    }
    PrecinctsAreTiling(rects, res, ppx, ppy);
  }
}
