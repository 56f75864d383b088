/**
 In which order the walk lists precincts: by grid point, row by row; at one point by component
 and then resolution, or by resolution and then component.
 */
module ProgressionOrder {
  import opened TileHandler
  import opened Precincts
  import opened Progression

  /** Lexicographic: components first, or resolutions first. */
  predicate Rises(byComponent: bool, a: Crp, b: Crp) {
    if byComponent then a.c < b.c || (a.c == b.c && a.r < b.r) else a.r < b.r || (a.r == b.r && a.c < b.c)
  }

  predicate Rising(byComponent: bool, s: seq<Crp>) {
    forall i, j :: 0 <= i < j < |s| ==> Rises(byComponent, s[i], s[j])
  }

  lemma {:induction false} ComponentRises(w: Grid, c: nat, n: nat, y: nat, x: nat)
    requires Sound(w)
    ensures var s := OfComponent(w, c, n, y, x);
            Rising(true, s) && forall i :: 0 <= i < |s| ==> s[i].c == c && s[i].r < n
  {
    hide Hit, Before;
    if n > 0 { ComponentRises(w, c, n - 1, y, x); }
  }

  lemma {:induction false} ByComponentRises(w: Grid, m: nat, y: nat, x: nat)
    requires Sound(w)
    ensures var s := ByComponent(w, m, y, x);
            Rising(true, s) && forall i :: 0 <= i < |s| ==> s[i].c < m
  {
    hide OfComponent;
    if m > 0 {
      ByComponentRises(w, m - 1, y, x);
      ComponentRises(w, m - 1, MAX_RESOLUTIONS, y, x);
    }
  }

  lemma {:induction false} ResolutionRises(w: Grid, r: nat, m: nat, y: nat, x: nat)
    requires Sound(w)
    ensures var s := OfResolution(w, r, m, y, x);
            Rising(false, s) && forall i :: 0 <= i < |s| ==> s[i].r == r && s[i].c < m
  {
    hide Hit, Before;
    if m > 0 { ResolutionRises(w, r, m - 1, y, x); }
  }

  lemma {:induction false} ByResolutionRises(w: Grid, n: nat, y: nat, x: nat)
    requires Sound(w)
    ensures var s := ByResolution(w, n, y, x);
            Rising(false, s) && forall i :: 0 <= i < |s| ==> s[i].r < n
  {
    hide OfResolution;
    if n > 0 {
      ByResolutionRises(w, n - 1, y, x);
      ResolutionRises(w, n - 1, COMPONENTS, y, x);
    }
  }

  /** At one grid point PCRL goes by component and then resolution, PRCL by resolution and then component. */
  lemma {:induction false} PointRises(w: Grid, y: nat, x: nat)
    requires Sound(w)
    ensures Rising(true, AtPoint(w, PCRL, y, x)) && Rising(false, AtPoint(w, PRCL, y, x))
  {
    hide ByComponent, ByResolution, Rising;
    ByComponentRises(w, COMPONENTS, y, x);
    ByResolutionRises(w, MAX_RESOLUTIONS, y, x);
  }

  /** Each entry is one that a component and resolution has at the point. */
  lemma {:induction false} PointEntry(w: Grid, o: Order, y: nat, x: nat, i: nat)
    requires Sound(w) && i < |AtPoint(w, o, y, x)|
    ensures var e := AtPoint(w, o, y, x)[i];
            Hit(w, e.c, e.r, y, x) && e == Entry(w, e.c, e.r, y, x)
  {
    hide AtPoint, Only, Hit, Entry;
    var s := AtPoint(w, o, y, x);
    OnlyAtPoint(w, o, s[i].c, s[i].r, y, x);
    OnlyHas(s, i);
  }

  lemma {:induction false} OnlyHas(s: seq<Crp>, i: nat)
    requires i < |s|
    ensures s[i] in Only(s, s[i].c, s[i].r)
  {
    if i < |s| - 1 { OnlyHas(s[..|s| - 1], i); }
  }

  // ------------------------------------------------------------ over the whole grid

  /** A point of the grid: row and column. */
  datatype Place = Place(row: nat, col: nat)

  function RowAt(w: Grid, i: nat): nat {
    w.g.y0 + w.sy * i
  }

  function ColAt(w: Grid, j: nat): nat {
    w.g.x0 + w.sx * j
  }

  /** Row by row, from left to right. */
  predicate Earlier(p: Place, q: Place) {
    p.row < q.row || (p.row == q.row && p.col < q.col)
  }

  /** Entry `e` is the one its component and resolution has at the grid point, which lies in the tile. */
  predicate Belongs(w: Grid, e: Crp, p: Place)
    requires Sound(w)
  {
    var y, x := RowAt(w, p.row), ColAt(w, p.col);
    y < w.g.y1 && x < w.g.x1 && Hit(w, e.c, e.r, y, x) && e == Entry(w, e.c, e.r, y, x)
  }

  /**
   The grid points `at` the entries come from: each entry belongs at its own, and of two entries
   the first comes from an earlier point, or from the same one with the smaller key.
   */
  predicate Placed(w: Grid, byComponent: bool, s: seq<Crp>, at: seq<Place>)
    requires Sound(w)
  {
    && |at| == |s|
    && (forall i :: 0 <= i < |s| ==> Belongs(w, s[i], at[i]))
    && (forall i, j :: 0 <= i < j < |s| ==>
          Earlier(at[i], at[j]) || (at[i] == at[j] && Rises(byComponent, s[i], s[j])))
  }

  predicate AllEarlier(at: seq<Place>, p: Place) {
    forall i :: 0 <= i < |at| ==> Earlier(at[i], p)
  }

  /** One grid point more. */
  lemma PlacedOn(w: Grid, b: bool, s: seq<Crp>, at: seq<Place>, t: seq<Crp>, p: Place)
    requires Sound(w) && Placed(w, b, s, at) && AllEarlier(at, p) && Rising(b, t)
    requires forall i :: 0 <= i < |t| ==> Belongs(w, t[i], p)
    ensures Placed(w, b, s + t, at + seq(|t|, _ => p))
    ensures AllEarlier(at + seq(|t|, _ => p), p.(col := p.col + 1))
  {
    hide Belongs, Rises;
  }

  /** How many grid lines there are before the end. */
  lemma {:induction false} Lines(at: nat, end: nat, step: nat) returns (n: nat)
    requires step >= 1
    ensures GridEnd(at, end, step) == at + step * n
    ensures n > 0 ==> at + step * (n - 1) < end
    decreases end - at
  {
    n := 0;
    if at < end {
      var m := Lines(at + step, end, step);
      n := m + 1;
      MulDistributes(step, m, 1);
      if m > 0 { MulDistributes(step, m - 1, 1); }
    }
  }

  lemma LineBelow(step: nat, i: nat, n: nat)
    requires step >= 1 && i < n
    ensures step * i <= step * (n - 1)
  {
    MulMonotone(step, i, n - 1);
  }

  /** The last line the walk starts from is the first, or one line on from another. */
  lemma LineStep(step: nat, i: nat)
    requires step >= 1 && i > 0
    ensures step * i == step * (i - 1) + step
  {
    MulDistributes(step, i - 1, 1);
  }

  lemma {:induction false} UpToPlaced(w: Grid, o: Order, i: nat, j: nat, rows: nat, cols: nat) returns (at: seq<Place>)
    requires Sound(w) && i <= rows && j <= cols && (j > 0 ==> i < rows)
    requires XEnd(w) == ColAt(w, cols) && (cols > 0 ==> ColAt(w, cols - 1) < w.g.x1)
    requires rows > 0 ==> RowAt(w, rows - 1) < w.g.y1
    ensures Placed(w, o.PCRL?, UpTo(w, o, RowAt(w, i), ColAt(w, j)), at) && AllEarlier(at, Place(i, j))
    decreases i, j
  {
    hide AtPoint, Placed, AllEarlier, Belongs, Rising, XEnd;
    if j > 0 {
      var y, x := RowAt(w, i), ColAt(w, j - 1);
      LineStep(w.sx, j);
      LineBelow(w.sx, j - 1, cols);
      LineBelow(w.sy, i, rows);
      at := UpToPlaced(w, o, i, j - 1, rows, cols);
      PointRises(w, y, x);
      forall k | 0 <= k < |AtPoint(w, o, y, x)| ensures Belongs(w, AtPoint(w, o, y, x)[k], Place(i, j - 1)) {
        PointBelongs(w, o, Place(i, j - 1), k);
      }
      PlacedOn(w, o.PCRL?, UpTo(w, o, y, x), at, AtPoint(w, o, y, x), Place(i, j - 1));
      at := at + seq(|AtPoint(w, o, y, x)|, _ => Place(i, j - 1));
    } else if i > 0 {
      LineStep(w.sy, i);
      at := UpToPlaced(w, o, i - 1, cols, rows, cols);
      EarlierRow(at, Place(i - 1, cols), Place(i, j));
      assert UpTo(w, o, RowAt(w, i), ColAt(w, 0)) == UpTo(w, o, RowAt(w, i - 1), ColAt(w, cols));
    } else {
      at := [];
      NothingPlaced(w, o.PCRL?, Place(i, j));
    }
  }

  lemma PointBelongs(w: Grid, o: Order, p: Place, k: nat)
    requires Sound(w) && RowAt(w, p.row) < w.g.y1 && ColAt(w, p.col) < w.g.x1
    requires k < |AtPoint(w, o, RowAt(w, p.row), ColAt(w, p.col))|
    ensures Belongs(w, AtPoint(w, o, RowAt(w, p.row), ColAt(w, p.col))[k], p)
  {
    hide AtPoint, Hit, Entry;
    PointEntry(w, o, RowAt(w, p.row), ColAt(w, p.col), k);
  }

  lemma EarlierRow(at: seq<Place>, p: Place, q: Place)
    requires AllEarlier(at, p) && p.row < q.row
    ensures AllEarlier(at, q)
  {}

  lemma NothingPlaced(w: Grid, b: bool, p: Place)
    requires Sound(w)
    ensures Placed(w, b, [], []) && AllEarlier([], p)
  {}

  /** The entries of the whole progression are placed on the grid in order. */
  ghost predicate InOrder(w: Grid, byComponent: bool, s: seq<Crp>)
    requires Sound(w)
  {
    exists at :: Placed(w, byComponent, s, at)
  }

  /** The whole progression: PCRL by grid point, component, resolution; PRCL by grid point, resolution, component. */
  lemma {:induction false} SequencePlaced(w: Grid)
    requires Sound(w)
    ensures InOrder(w, true, Sequence(w, PCRL)) && InOrder(w, false, Sequence(w, PRCL))
  {
    hide Placed, UpTo, GridEnd;
    var rows := Lines(w.g.y0, w.g.y1, w.sy);
    var cols := Lines(w.g.x0, w.g.x1, w.sx);
    var at := UpToPlaced(w, PCRL, rows, 0, rows, cols);
    var at' := UpToPlaced(w, PRCL, rows, 0, rows, cols);
  }
}
