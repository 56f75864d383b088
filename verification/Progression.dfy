/**
 The progression walk: grid points row by row, and at each point every component
 and resolution whose precinct grid has a corner there.  The walk numbers precincts
 with running counters; here each entry is described by how often its component and
 resolution were hit before.
 */
module Progression {
  import opened Bytes
  import opened TileHandler

  const COMPONENTS := 3
  const MAX_RESOLUTIONS := 6

  /** Precinct exponents, decomposition depths, origin and precinct counts of a resolution. */
  datatype Resolution = Resolution(prw: nat, prh: nat, dx: nat, dy: nat, x0: nat, y0: nat, npw: nat, nph: nat)

  datatype Component = Component(subX: nat, subY: nat, res: seq<Resolution>)

  /** Tile rectangle and its components. */
  datatype Geometry = Geometry(x0: nat, y0: nat, x1: nat, y1: nat, comps: seq<Component>)

  /** The geometry with its step sizes: what the walk runs over. */
  datatype Grid = Grid(g: Geometry, sx: nat, sy: nat)

  predicate Sound(w: Grid) {
    && w.sx >= 1 && w.sy >= 1 && |w.g.comps| == COMPONENTS
    && forall c :: 0 <= c < COMPONENTS ==>
         w.g.comps[c].subX >= 1 && w.g.comps[c].subY >= 1 && 1 <= |w.g.comps[c].res| <= MAX_RESOLUTIONS
  }

  predicate Known(w: Grid, c: nat, r: nat) {
    c < |w.g.comps| && r < |w.g.comps[c].res|
  }

  /** Spacing, in tile coordinates, of the precincts of one resolution. */
  function SpaceX(w: Grid, c: nat, r: nat): (m: nat)
    requires Sound(w) && Known(w, c, r)
    ensures m >= 1
  {
    w.g.comps[c].subX * Pow2(w.g.comps[c].res[r].prw + w.g.comps[c].res[r].dx)
  }

  function SpaceY(w: Grid, c: nat, r: nat): (m: nat)
    requires Sound(w) && Known(w, c, r)
    ensures m >= 1
  {
    w.g.comps[c].subY * Pow2(w.g.comps[c].res[r].prh + w.g.comps[c].res[r].dy)
  }

  /** A precinct column starts at `x`, or the tile's left edge cuts one. */
  predicate HitX(w: Grid, c: nat, r: nat, x: nat)
    requires Sound(w) && Known(w, c, r)
  {
    var res := w.g.comps[c].res[r];
    x % SpaceX(w, c, r) == 0
    || (x == w.g.x0 && (res.x0 * Pow2(res.dx)) % Pow2(res.prw + res.dx) != 0)
  }

  predicate HitY(w: Grid, c: nat, r: nat, y: nat)
    requires Sound(w) && Known(w, c, r)
  {
    var res := w.g.comps[c].res[r];
    y % SpaceY(w, c, r) == 0
    || (y == w.g.y0 && (res.y0 * Pow2(res.dy)) % Pow2(res.prh + res.dy) != 0)
  }

  predicate Hit(w: Grid, c: nat, r: nat, y: nat, x: nat) {
    Sound(w) && Known(w, c, r) && HitX(w, c, r, x) && HitY(w, c, r, y)
  }

  /** First grid coordinate at or past `end`. */
  function GridEnd(at: nat, end: nat, step: nat): (r: nat)
    requires step >= 1
    ensures r >= at && r >= end && (at < end ==> r < end + step) && (at >= end ==> r == at)
    decreases end - at
  {
    if at >= end then at else GridEnd(at + step, end, step)
  }

  function XEnd(w: Grid): nat
    requires Sound(w)
  {
    GridEnd(w.g.x0, w.g.x1, w.sx)
  }

  function YEnd(w: Grid): nat
    requires Sound(w)
  {
    GridEnd(w.g.y0, w.g.y1, w.sy)
  }

  /** Hits of (c, r) at grid points before `(y, x)`, in scan order. */
  function Before(w: Grid, c: nat, r: nat, y: nat, x: nat): nat
    requires Sound(w)
    decreases y, x
  {
    if x >= w.g.x0 + w.sx then Before(w, c, r, y, x - w.sx) + ToNat(Hit(w, c, r, y, x - w.sx))
    else if y >= w.g.y0 + w.sy then Before(w, c, r, y - w.sy, XEnd(w))
    else 0
  }

  /** The entry pushed for (c, r) at `(y, x)`: the precinct number is cut to sixteen bits. */
  function Entry(w: Grid, c: nat, r: nat, y: nat, x: nat): Crp
    requires Sound(w)
  {
    Crp(c, r, Before(w, c, r, y, x) % 65536)
  }

  function One(w: Grid, c: nat, r: nat, y: nat, x: nat): seq<Crp>
    requires Sound(w)
  {
    if Hit(w, c, r, y, x) then [Entry(w, c, r, y, x)] else []
  }

  // ------------------------------------------------------------- the two orders

  datatype Order = PCRL | PRCL

  /** Component `c`, resolutions below `n`. */
  function OfComponent(w: Grid, c: nat, n: nat, y: nat, x: nat): seq<Crp>
    requires Sound(w)
  {
    if n == 0 then [] else OfComponent(w, c, n - 1, y, x) + One(w, c, n - 1, y, x)
  }

  function ByComponent(w: Grid, m: nat, y: nat, x: nat): seq<Crp>
    requires Sound(w)
  {
    if m == 0 then [] else ByComponent(w, m - 1, y, x) + OfComponent(w, m - 1, MAX_RESOLUTIONS, y, x)
  }

  /** Resolution `r`, components below `m`. */
  function OfResolution(w: Grid, r: nat, m: nat, y: nat, x: nat): seq<Crp>
    requires Sound(w)
  {
    if m == 0 then [] else OfResolution(w, r, m - 1, y, x) + One(w, m - 1, r, y, x)
  }

  function ByResolution(w: Grid, n: nat, y: nat, x: nat): seq<Crp>
    requires Sound(w)
  {
    if n == 0 then [] else ByResolution(w, n - 1, y, x) + OfResolution(w, n - 1, COMPONENTS, y, x)
  }

  /** Everything pushed at one grid point. */
  function AtPoint(w: Grid, o: Order, y: nat, x: nat): seq<Crp>
    requires Sound(w)
  {
    if o.PCRL? then ByComponent(w, COMPONENTS, y, x) else ByResolution(w, MAX_RESOLUTIONS, y, x)
  }

  /** Everything pushed before grid point `(y, x)`. */
  function UpTo(w: Grid, o: Order, y: nat, x: nat): seq<Crp>
    requires Sound(w)
    decreases y, x
  {
    if x >= w.g.x0 + w.sx then UpTo(w, o, y, x - w.sx) + AtPoint(w, o, y, x - w.sx)
    else if y >= w.g.y0 + w.sy then UpTo(w, o, y - w.sy, XEnd(w))
    else []
  }

  /** The whole progression. */
  function Sequence(w: Grid, o: Order): seq<Crp>
    requires Sound(w)
  {
    UpTo(w, o, YEnd(w), w.g.x0)
  }

  // ------------------------------------------------- PRCL permutes PCRL locally

  /** The entries of one component and resolution, in order. */
  function Only(s: seq<Crp>, c: nat, r: nat): seq<Crp> {
    if s == [] then []
    else
      var e := s[|s| - 1];
      Only(s[..|s| - 1], c, r) + (if e.c == c && e.r == r then [e] else [])
  }

  lemma {:induction false} OnlyAppend(s: seq<Crp>, t: seq<Crp>, c: nat, r: nat)
    ensures Only(s + t, c, r) == Only(s, c, r) + Only(t, c, r)
  {
    if t == [] {
      assert s + t == s;
    } else {
      OnlyAppend(s, t[..|t| - 1], c, r);
      assert (s + t)[..|s + t| - 1] == s + t[..|t| - 1];
    }
  }

  lemma OnlyEmpty(c: nat, r: nat)
    ensures Only([], c, r) == []
  {}

  lemma OnlyOne(w: Grid, c: nat, r: nat, y: nat, x: nat, c': nat, r': nat)
    requires Sound(w)
    ensures Only(One(w, c', r', y, x), c, r) == (if c == c' && r == r' then One(w, c, r, y, x) else [])
  {
    var s := One(w, c', r', y, x);
    if s != [] {
      assert s[..0] == [];
      assert Only(s[..0], c, r) == [];
    }
  }

  lemma {:induction false} OnlyOfComponent(w: Grid, c: nat, r: nat, y: nat, x: nat, c': nat, n: nat)
    requires Sound(w)
    ensures Only(OfComponent(w, c', n, y, x), c, r) == (if c == c' && r < n then One(w, c, r, y, x) else [])
  {
    hide One, Only, Sound;
    OnlyEmpty(c, r);
    if n > 0 {
      OnlyOfComponent(w, c, r, y, x, c', n - 1);
      OnlyOne(w, c, r, y, x, c', n - 1);
      OnlyAppend(OfComponent(w, c', n - 1, y, x), One(w, c', n - 1, y, x), c, r);
    }
  }

  lemma {:induction false} OnlyByComponent(w: Grid, c: nat, r: nat, y: nat, x: nat, m: nat)
    requires Sound(w)
    ensures Only(ByComponent(w, m, y, x), c, r) == (if c < m && r < MAX_RESOLUTIONS then One(w, c, r, y, x) else [])
  {
    hide One, OfComponent, Only, Sound;
    OnlyEmpty(c, r);
    if m > 0 {
      OnlyByComponent(w, c, r, y, x, m - 1);
      OnlyOfComponent(w, c, r, y, x, m - 1, MAX_RESOLUTIONS);
      OnlyAppend(ByComponent(w, m - 1, y, x), OfComponent(w, m - 1, MAX_RESOLUTIONS, y, x), c, r);
    }
  }

  lemma {:induction false} OnlyOfResolution(w: Grid, c: nat, r: nat, y: nat, x: nat, r': nat, m: nat)
    requires Sound(w)
    ensures Only(OfResolution(w, r', m, y, x), c, r) == (if r == r' && c < m then One(w, c, r, y, x) else [])
  {
    hide One, Only, Sound;
    OnlyEmpty(c, r);
    if m > 0 {
      OnlyOfResolution(w, c, r, y, x, r', m - 1);
      OnlyOne(w, c, r, y, x, m - 1, r');
      OnlyAppend(OfResolution(w, r', m - 1, y, x), One(w, m - 1, r', y, x), c, r);
    }
  }

  lemma {:induction false} OnlyByResolution(w: Grid, c: nat, r: nat, y: nat, x: nat, n: nat)
    requires Sound(w)
    ensures Only(ByResolution(w, n, y, x), c, r) == (if r < n && c < COMPONENTS then One(w, c, r, y, x) else [])
  {
    hide One, OfResolution, Only, Sound;
    OnlyEmpty(c, r);
    if n > 0 {
      OnlyByResolution(w, c, r, y, x, n - 1);
      OnlyOfResolution(w, c, r, y, x, n - 1, COMPONENTS);
      OnlyAppend(ByResolution(w, n - 1, y, x), OfResolution(w, n - 1, COMPONENTS, y, x), c, r);
    }
  }

  /** At one grid point either order pushes each hit (c, r) exactly once. */
  lemma OnlyAtPoint(w: Grid, o: Order, c: nat, r: nat, y: nat, x: nat)
    requires Sound(w)
    ensures Only(AtPoint(w, o, y, x), c, r) == One(w, c, r, y, x)
  {
    hide OfComponent, OfResolution, ByComponent, ByResolution, Only;
    OnlyByComponent(w, c, r, y, x, COMPONENTS);
    OnlyByResolution(w, c, r, y, x, MAX_RESOLUTIONS);
  }

  lemma {:induction false} CountByOnly(s: seq<Crp>, e: Crp)
    ensures multiset(s)[e] == multiset(Only(s, e.c, e.r))[e]
  {
    if s != [] {
      var init, last := s[..|s| - 1], s[|s| - 1];
      CountByOnly(init, e);
      assert s == init + [last];
      assert multiset(s) == multiset(init) + multiset([last]);
      var keep := if last.c == e.c && last.r == e.r then [last] else [];
      assert multiset(Only(init, e.c, e.r) + keep) == multiset(Only(init, e.c, e.r)) + multiset(keep);
    }
  }

  /** Sequences with the same entries per component and resolution are permutations of each other. */
  lemma SameOnlyPermutes(s: seq<Crp>, t: seq<Crp>)
    requires forall c: nat, r: nat :: Only(s, c, r) == Only(t, c, r)
    ensures multiset(s) == multiset(t)
  {
    forall e: Crp ensures multiset(s)[e] == multiset(t)[e] {
      CountByOnly(s, e);
      CountByOnly(t, e);
      assert Only(s, e.c, e.r) == Only(t, e.c, e.r);
    }
  }

  /** The first `n` precincts of a component and resolution, as the walk numbers them. */
  function Numbered(c: nat, r: nat, n: nat): (s: seq<Crp>)
    ensures |s| == n
  {
    if n == 0 then [] else Numbered(c, r, n - 1) + [Crp(c, r, (n - 1) % 65536)]
  }

  /** Up to any grid point, what (c, r) contributed is its hits numbered from zero, in either order. */
  lemma {:induction false} OnlyUpTo(w: Grid, o: Order, c: nat, r: nat, y: nat, x: nat)
    requires Sound(w)
    ensures Only(UpTo(w, o, y, x), c, r) == Numbered(c, r, Before(w, c, r, y, x))
    decreases y, x
  {
    hide AtPoint, Hit, Only, XEnd;
    OnlyEmpty(c, r);
    if x >= w.g.x0 + w.sx {
      var x' := x - w.sx;
      OnlyUpTo(w, o, c, r, y, x');
      OnlyAtPoint(w, o, c, r, y, x');
      OnlyAppend(UpTo(w, o, y, x'), AtPoint(w, o, y, x'), c, r);
    } else if y >= w.g.y0 + w.sy {
      OnlyUpTo(w, o, c, r, y - w.sy, XEnd(w));
    }
  }

  /**
   PRCL is PCRL with entries moved only within a grid point: at every grid point the
   two orders push a permutation of the same entries, so have the two walks up to any
   grid point, and each component and resolution sees the same subsequence.
   */
  lemma {:induction false} OrdersPermute(w: Grid, y: nat, x: nat)
    requires Sound(w)
    ensures multiset(AtPoint(w, PCRL, y, x)) == multiset(AtPoint(w, PRCL, y, x))
    ensures multiset(UpTo(w, PCRL, y, x)) == multiset(UpTo(w, PRCL, y, x))
    ensures multiset(Sequence(w, PCRL)) == multiset(Sequence(w, PRCL))
    ensures forall c: nat, r: nat :: Only(Sequence(w, PCRL), c, r) == Only(Sequence(w, PRCL), c, r)
  {
    hide AtPoint, Only, Sound, UpTo, Before, Numbered;
    forall c: nat, r: nat
      ensures Only(AtPoint(w, PCRL, y, x), c, r) == Only(AtPoint(w, PRCL, y, x), c, r)
      ensures Only(UpTo(w, PCRL, y, x), c, r) == Only(UpTo(w, PRCL, y, x), c, r)
      ensures Only(Sequence(w, PCRL), c, r) == Only(Sequence(w, PRCL), c, r)
    {
      OnlyAtPoint(w, PCRL, c, r, y, x);
      OnlyAtPoint(w, PRCL, c, r, y, x);
      OnlyUpTo(w, PCRL, c, r, y, x);
      OnlyUpTo(w, PRCL, c, r, y, x);
      OnlyUpTo(w, PCRL, c, r, YEnd(w), w.g.x0);
      OnlyUpTo(w, PRCL, c, r, YEnd(w), w.g.x0);
    }
    SameOnlyPermutes(AtPoint(w, PCRL, y, x), AtPoint(w, PRCL, y, x));
    SameOnlyPermutes(UpTo(w, PCRL, y, x), UpTo(w, PRCL, y, x));
    SameOnlyPermutes(Sequence(w, PCRL), Sequence(w, PRCL));
  }
}
