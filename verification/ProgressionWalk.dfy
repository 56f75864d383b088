/**
 The progression walk as it is written: nested loops over the grid, with px/py
 counters per component and resolution, pushing entries as it goes.
 */
module ProgressionWalk {
  import opened Bytes
  import opened TileHandler
  import opened Precincts
  import opened Progression
  import opened ProgressionOrder

  /** Exponents of the step: the smallest precinct exponents of any component and resolution, at most 32. */
  predicate Smallest(g: Geometry, ex: nat, ey: nat) {
    && ex <= 32 && ey <= 32
    && (forall c, r :: 0 <= c < |g.comps| && 0 <= r < |g.comps[c].res| ==>
          ex <= g.comps[c].res[r].prw && ey <= g.comps[c].res[r].prh)
    && (ex == 32 || exists c, r :: 0 <= c < |g.comps| && 0 <= r < |g.comps[c].res| && g.comps[c].res[r].prw == ex)
    && (ey == 32 || exists c, r :: 0 <= c < |g.comps| && 0 <= r < |g.comps[c].res| && g.comps[c].res[r].prh == ey)
  }

  method StepExponents(g: Geometry) returns (ex: nat, ey: nat)
    ensures Smallest(g, ex, ey)
  {
    ex, ey := 32, 32;
    for c := 0 to |g.comps|
      invariant ex <= 32 && ey <= 32
      invariant forall c', r :: 0 <= c' < c && 0 <= r < |g.comps[c'].res| ==>
                  ex <= g.comps[c'].res[r].prw && ey <= g.comps[c'].res[r].prh
      invariant ex == 32 || exists c', r ::
                  0 <= c' < |g.comps| && 0 <= r < |g.comps[c'].res| && g.comps[c'].res[r].prw == ex
      invariant ey == 32 || exists c', r ::
                  0 <= c' < |g.comps| && 0 <= r < |g.comps[c'].res| && g.comps[c'].res[r].prh == ey
    {
      for n := 0 to |g.comps[c].res|
        invariant ex <= 32 && ey <= 32
        invariant forall r :: 0 <= r < n ==> ex <= g.comps[c].res[r].prw && ey <= g.comps[c].res[r].prh
        invariant forall c', r :: 0 <= c' < c && 0 <= r < |g.comps[c'].res| ==>
                    ex <= g.comps[c'].res[r].prw && ey <= g.comps[c'].res[r].prh
        invariant ex == 32 || exists c', r ::
                    0 <= c' < |g.comps| && 0 <= r < |g.comps[c'].res| && g.comps[c'].res[r].prw == ex
        invariant ey == 32 || exists c', r ::
                    0 <= c' < |g.comps| && 0 <= r < |g.comps[c'].res| && g.comps[c'].res[r].prh == ey
      {
        ex := Min(ex, g.comps[c].res[n].prw);
        ey := Min(ey, g.comps[c].res[n].prh);
      }
    }
  }

  // ------------------------------------------------------------- the counters

  /** Column and row counters of (c, r) together stand at `k`. */
  predicate Stand(npw: nat, px: nat, py: nat, k: nat) {
    py * npw + px == k && (npw > 0 ==> px < npw)
  }

  lemma CounterStep(npw: nat, px: nat, py: nat, k: nat)
    requires Stand(npw, px, py, k)
    ensures if px + 1 == npw then Stand(npw, 0, py + 1, k + 1) else Stand(npw, px + 1, py, k + 1)
  {
    MulDistributes(npw, py, 1);
  }

  /** (c', r') comes before (c, r) at a grid point. */
  predicate Done(o: Order, c: nat, r: nat, c': nat, r': nat) {
    if o.PCRL? then c' < c || (c' == c && r' < r) else r' < r || (r' == r && c' < c)
  }

  class Walker {
    const w: Grid
    const o: Order
    const px: array2<nat>
    const py: array2<nat>
    var crp: seq<Crp>

    ghost predicate Shape()
    {
      && px != py && Sound(w)
      && px.Length0 == py.Length0 == COMPONENTS && px.Length1 == py.Length1 == MAX_RESOLUTIONS
    }

    /** Every counter stands at its number of hits so far, at grid point `(y, x)` with everything before (c, r) done. */
    ghost predicate Counts(y: nat, x: nat, c: nat, r: nat)
      requires Shape()
      reads px, py
    {
      forall c', r' :: 0 <= c' < COMPONENTS && 0 <= r' < |w.g.comps[c'].res| ==>
        Stand(w.g.comps[c'].res[r'].npw, px[c', r'], py[c', r'],
              Before(w, c', r', y, x) + ToNat(Done(o, c, r, c', r') && Hit(w, c', r', y, x)))
    }

    constructor (grid: Grid, order: Order)
      requires Sound(grid)
      ensures Shape() && w == grid && o == order && crp == [] && fresh(px) && fresh(py)
      ensures forall c, r :: 0 <= c < COMPONENTS && 0 <= r < MAX_RESOLUTIONS ==> px[c, r] == 0 == py[c, r]
    {
      w, o, crp := grid, order, [];
      px := new nat[COMPONENTS, MAX_RESOLUTIONS]((_, _) => 0);
      py := new nat[COMPONENTS, MAX_RESOLUTIONS]((_, _) => 0);
    }

    /** One component and resolution at one grid point. */
    method Visit(y: nat, x: nat, c: nat, r: nat)
      requires Shape() && Known(w, c, r) && Counts(y, x, c, r)
      modifies this`crp, px, py
      ensures crp == old(crp) + One(w, c, r, y, x)
      ensures if o.PCRL? then Counts(y, x, c, r + 1) else Counts(y, x, c + 1, r)
    {
      hide Before, HitX, HitY;
      var npw := w.g.comps[c].res[r].npw;
      if !HitX(w, c, r, x) {
        return;
      }
      if !HitY(w, c, r, y) {
        return;
      }
      ghost var k := Before(w, c, r, y, x);
      assert Stand(npw, px[c, r], py[c, r], k);
      CounterStep(npw, px[c, r], py[c, r], k);
      var p := py[c, r] * npw + px[c, r];
      crp := crp + [Crp(c, r, p % 65536)];
      px[c, r] := px[c, r] + 1;
      if px[c, r] == npw {
        px[c, r] := 0;
        py[c, r] := py[c, r] + 1;
      }
    }

    /** One grid point, components outside. */
    method VisitByComponent(y: nat, x: nat)
      requires Shape() && o.PCRL? && Counts(y, x, 0, 0)
      modifies this`crp, px, py
      ensures crp == old(crp) + AtPoint(w, o, y, x)
      ensures Counts(y, x, COMPONENTS, 0)
    {
      hide Before, Hit, One, Stand;
      for c := 0 to COMPONENTS
        invariant crp == old(crp) + ByComponent(w, c, y, x)
        invariant Counts(y, x, c, 0)
      {
        var n := |w.g.comps[c].res|;
        ghost var here := crp;
        for r := 0 to n
          invariant crp == here + OfComponent(w, c, r, y, x)
          invariant Counts(y, x, c, r)
        {
          Visit(y, x, c, r);
        }
        ComponentEnds(w, c, MAX_RESOLUTIONS, y, x);
        NextComponent(y, x, c);
      }
    }

    lemma NextComponent(y: nat, x: nat, c: nat)
      requires Shape() && o.PCRL? && c < COMPONENTS && Counts(y, x, c, |w.g.comps[c].res|)
      ensures Counts(y, x, c + 1, 0)
    {
      hide Before, Hit, Stand;
      forall c', r' | 0 <= c' < COMPONENTS && 0 <= r' < |w.g.comps[c'].res|
        ensures Done(o, c, |w.g.comps[c].res|, c', r') == Done(o, c + 1, 0, c', r')
      {}
    }

    /** One grid point, resolutions outside, up to the largest resolution count of any component. */
    method VisitByResolution(y: nat, x: nat, top: nat)
      requires Shape() && o.PRCL? && Counts(y, x, 0, 0) && top <= MAX_RESOLUTIONS
      requires forall c :: 0 <= c < COMPONENTS ==> |w.g.comps[c].res| <= top
      modifies this`crp, px, py
      ensures crp == old(crp) + AtPoint(w, o, y, x)
      ensures Counts(y, x, 0, top)
    {
      hide Before, Hit, Stand;
      for r := 0 to top
        invariant crp == old(crp) + ByResolution(w, r, y, x)
        invariant Counts(y, x, 0, r)
      {
        ghost var here := crp;
        for c := 0 to COMPONENTS
          invariant crp == here + OfResolution(w, r, c, y, x)
          invariant Counts(y, x, c, r)
        {
          if r < |w.g.comps[c].res| {
            Visit(y, x, c, r);
          } else {
            SkipUnknown(y, x, c, r);
          }
        }
        NextResolution(y, x, r);
      }
      ResolutionsEnd(w, top, MAX_RESOLUTIONS, y, x);
    }

    lemma SkipUnknown(y: nat, x: nat, c: nat, r: nat)
      requires Shape() && o.PRCL? && c < COMPONENTS && r >= |w.g.comps[c].res| && Counts(y, x, c, r)
      ensures Counts(y, x, c + 1, r) && One(w, c, r, y, x) == []
    {
      hide Before, Stand;
    }

    lemma NextResolution(y: nat, x: nat, r: nat)
      requires Shape() && o.PRCL? && Counts(y, x, COMPONENTS, r)
      ensures Counts(y, x, 0, r + 1)
    {
      hide Before, Hit, Stand;
      forall c', r' | 0 <= c' < COMPONENTS && 0 <= r' < |w.g.comps[c'].res|
        ensures Done(o, COMPONENTS, r, c', r') == Done(o, 0, r + 1, c', r')
      {}
    }

    /** A finished grid point is the start of the next one. */
    lemma NextPoint(y: nat, x: nat, c: nat, r: nat)
      requires Shape() && x >= w.g.x0 && Counts(y, x, c, r)
      requires forall c', r' :: 0 <= c' < COMPONENTS && 0 <= r' < |w.g.comps[c'].res| ==> Done(o, c, r, c', r')
      ensures Counts(y, x + w.sx, 0, 0)
    {
      hide Hit, Stand;
    }

    lemma NextRow(y: nat)
      requires Shape() && y >= w.g.y0 && Counts(y, XEnd(w), 0, 0)
      ensures Counts(y + w.sy, w.g.x0, 0, 0)
    {
      hide Hit, Stand;
    }

    /** The whole walk. */
    method Walk()
      requires Shape() && crp == []
      requires forall c, r :: 0 <= c < COMPONENTS && 0 <= r < MAX_RESOLUTIONS ==> px[c, r] == 0 == py[c, r]
      modifies this`crp, px, py
      ensures crp == Sequence(w, o)
    {
      hide AtPoint, Hit;
      var top: nat := 0;
      for c := 0 to COMPONENTS
        invariant top <= MAX_RESOLUTIONS && forall c' :: 0 <= c' < c ==> |w.g.comps[c'].res| <= top
      {
        top := Max(top, |w.g.comps[c].res|);
      }
      var y := w.g.y0;
      assert Counts(y, w.g.x0, 0, 0);
      while y < w.g.y1
        invariant y >= w.g.y0 && GridEnd(y, w.g.y1, w.sy) == YEnd(w)
        invariant Counts(y, w.g.x0, 0, 0)
        invariant crp == UpTo(w, o, y, w.g.x0)
        decreases YEnd(w) - y
      {
        WalkRow(y, top);
        NextRow(y);
        y := y + w.sy;
      }
    }

    method WalkRow(y: nat, top: nat)
      requires Shape() && y >= w.g.y0 && Counts(y, w.g.x0, 0, 0) && top <= MAX_RESOLUTIONS
      requires forall c :: 0 <= c < COMPONENTS ==> |w.g.comps[c].res| <= top
      requires crp == UpTo(w, o, y, w.g.x0)
      modifies this`crp, px, py
      ensures Counts(y, XEnd(w), 0, 0) && crp == UpTo(w, o, y, XEnd(w))
    {
      hide AtPoint, Hit, Stand, Before;
      var x := w.g.x0;
      while x < w.g.x1
        invariant x >= w.g.x0 && GridEnd(x, w.g.x1, w.sx) == XEnd(w)
        invariant Counts(y, x, 0, 0)
        invariant crp == UpTo(w, o, y, x)
        decreases XEnd(w) - x
      {
        if o.PCRL? {
          VisitByComponent(y, x);
          NextPoint(y, x, COMPONENTS, 0);
        } else {
          VisitByResolution(y, x, top);
          NextPoint(y, x, 0, top);
        }
        x := x + w.sx;
      }
    }
  }

  lemma {:induction false} ComponentEnds(w: Grid, c: nat, n: nat, y: nat, x: nat)
    requires Sound(w) && c < COMPONENTS && n >= |w.g.comps[c].res|
    ensures OfComponent(w, c, n, y, x) == OfComponent(w, c, |w.g.comps[c].res|, y, x)
  {
    if n > |w.g.comps[c].res| { ComponentEnds(w, c, n - 1, y, x); }
  }

  lemma {:induction false} ResolutionsEnd(w: Grid, top: nat, n: nat, y: nat, x: nat)
    requires Sound(w) && n >= top
    requires forall c :: 0 <= c < COMPONENTS ==> |w.g.comps[c].res| <= top
    ensures ByResolution(w, n, y, x) == ByResolution(w, top, y, x)
  {
    if n > top {
      ResolutionsEnd(w, top, n - 1, y, x);
      NothingAt(w, n - 1, COMPONENTS, y, x);
    }
  }

  lemma {:induction false} NothingAt(w: Grid, r: nat, m: nat, y: nat, x: nat)
    requires Sound(w) && forall c :: 0 <= c < COMPONENTS ==> |w.g.comps[c].res| <= r
    ensures OfResolution(w, r, m, y, x) == []
  {
    if m > 0 { NothingAt(w, r, m - 1, y, x); }
  }

  /** Progression order codes of ISO/IEC 15444; only these two are supported. */
  const PCRL_CODE := 3
  const PRCL_CODE := 5

  /**
   Build the progression of a tile; an unsupported order fails.  Entries come grid point by grid
   point, at one point by component and resolution for code 3, by resolution and component for 5.
   */
  method Prepare(g: Geometry, code: nat) returns (ok: bool, crp: seq<Crp>, ex: nat, ey: nat)
    requires Sound(Grid(g, 1, 1))
    ensures ok <==> code == 3 || code == 5
    ensures Smallest(g, ex, ey) && Sound(Grid(g, Pow2(ex), Pow2(ey)))
    ensures ok ==> crp == Sequence(Grid(g, Pow2(ex), Pow2(ey)), if code == PCRL_CODE then PCRL else PRCL)
    ensures ok ==> InOrder(Grid(g, Pow2(ex), Pow2(ey)), code == 3, crp)
  {
    ex, ey := StepExponents(g);
    ok := code == PCRL_CODE || code == PRCL_CODE;
    crp := [];
    if ok {
      var walker := new Walker(Grid(g, Pow2(ex), Pow2(ey)), if code == PCRL_CODE then PCRL else PRCL);
      walker.Walk();
      crp := walker.crp;
      SequencePlaced(walker.w);
    }
  }
}
