/**
 Golden-section search for the time of closest approach, with the ratio constant of the program read as
 an exact rational. The constant misses the golden ratio by about 1e-16, so a point that is reused is
 not exactly golden; the drift stays bounded by the bracket it started from.
 */
module GoldenSection {
  import opened Basics

  const GR := 0.6180339887498949
  const TOL := 0.0001 / 86400.0

  /** Brackets up to this many days are covered: beyond it the drift could outgrow the tolerance. */
  const LIMIT := 100000.0

  /** How far the constant is from satisfying g * g == 1 - g. */
  const MISS := 0.0000000000000002

  predicate Falls(f: real -> real, x: real, y: real) {
    f(x) > f(y)
  }

  predicate Rises(f: real -> real, x: real, y: real) {
    f(x) < f(y)
  }

  /** `f` falls strictly to its minimum at `m` and rises strictly after it. */
  ghost predicate Unimodal(f: real -> real, m: real, lo: real, hi: real) {
    && lo <= m <= hi
    && (forall x, y :: lo <= x < y <= m ==> Falls(f, x, y))
    && (forall x, y :: m <= x < y <= hi ==> Rises(f, x, y))
  }

  lemma Discard(f: real -> real, m: real, lo: real, hi: real, c: real, d: real)
    requires Unimodal(f, m, lo, hi) && lo <= c < d <= hi
    ensures f(c) < f(d) ==> Unimodal(f, m, lo, d)
    ensures f(c) >= f(d) ==> Unimodal(f, m, c, hi)
  {
    assert d <= m ==> Falls(f, c, d);
    assert m <= c ==> Rises(f, c, d);
  }

  /** The inner points are the golden points of the bracket, up to `drift`, and at most one is off. */
  ghost predicate Golden(lo: real, hi: real, c: real, d: real, drift: real) {
    var offC := c - (hi - GR * (hi - lo));
    var offD := d - (lo + GR * (hi - lo));
    && (offC == 0.0 || offD == 0.0)
    && Abs(offC) <= drift && Abs(offD) <= drift
  }

  /** A wide enough bracket with little drift has its inner points apart and inside. */
  lemma PointsApart(lo: real, hi: real, c: real, d: real, drift: real)
    requires Golden(lo, hi, c, d, drift) && hi - lo > TOL && drift <= 4.0 * MISS * LIMIT
    ensures lo < c < d < hi
    ensures d - lo <= 0.7 * (hi - lo) && hi - c <= 0.7 * (hi - lo)
    ensures Abs((d - lo) - GR * (hi - lo)) <= drift && Abs((hi - c) - GR * (hi - lo)) <= drift
  {
  }

  /** One step to either side keeps the points golden, with the drift grown by at most MISS times the width. */
  lemma StepKeepsGolden(lo: real, hi: real, c: real, d: real, drift: real)
    requires Golden(lo, hi, c, d, drift) && lo < hi
    ensures Golden(lo, d, d - GR * (d - lo), c, drift + MISS * (hi - lo))
    ensures Golden(c, hi, d, c + GR * (hi - c), drift + MISS * (hi - lo))
  {
  }

  /** With the exact ratio nothing drifts: the kept point is the other golden point of the new bracket. */
  lemma ExactRatio(g: real, lo: real, hi: real)
    requires g * g == 1.0 - g
    ensures var c, d := hi - g * (hi - lo), lo + g * (hi - lo);
      && c == lo + g * (d - lo) && d - lo == g * (hi - lo)
      && d == hi - g * (hi - c) && hi - c == g * (hi - lo)
  {
    var w := hi - lo;
    assert g * (g * w) == (g * g) * w;
    assert (1.0 - g) * w == w - g * w;
  }

  /** The width bound after k steps from width w. */
  function Shrunk(w: real, k: nat): (s: real)
    requires w >= 0.0
    ensures s >= 0.0
  {
    if k == 0 then w else 0.7 * Shrunk(w, k - 1)
  }

  lemma SevenSteps(w: real, k: nat)
    requires w >= 0.0
    ensures Shrunk(w, k + 7) <= 0.1 * Shrunk(w, k)
  {
    assert Shrunk(w, k + 7) == 0.7 * Shrunk(w, k + 6);
    assert Shrunk(w, k + 6) == 0.7 * Shrunk(w, k + 5);
    assert Shrunk(w, k + 5) == 0.7 * Shrunk(w, k + 4);
    assert Shrunk(w, k + 4) == 0.7 * Shrunk(w, k + 3);
    assert Shrunk(w, k + 3) == 0.7 * Shrunk(w, k + 2);
    assert Shrunk(w, k + 2) == 0.7 * Shrunk(w, k + 1);
  }

  function Decades(n: nat): real {
    if n == 0 then 1.0 else 0.1 * Decades(n - 1)
  }

  lemma {:induction false} ManySteps(w: real, n: nat)
    requires w >= 0.0
    ensures Shrunk(w, 7 * n) <= w * Decades(n)
  {
    if n > 0 {
      ManySteps(w, n - 1);
      SevenSteps(w, 7 * (n - 1));
      assert w * Decades(n) == 0.1 * (w * Decades(n - 1));
    }
  }

  const MAX_STEPS := 98

  /** Any covered bracket is below the tolerance after 98 steps. */
  lemma EnoughSteps(w: real)
    requires 0.0 <= w <= LIMIT
    ensures Shrunk(w, MAX_STEPS) <= TOL
  {
    ManySteps(w, 14);
    assert Decades(14) == 0.00000000000001;
  }

  /** Never more steps than the tolerance needs, and a step is only taken above the tolerance. */
  lemma StepsLeft(w: real, width: real, iter: nat)
    requires 0.0 <= w <= LIMIT && width <= Shrunk(w, iter) && width > TOL && iter <= MAX_STEPS
    ensures iter < MAX_STEPS
  {
    EnoughSteps(w);
  }

  /** What the loop keeps between steps. */
  ghost predicate Searching(f: real -> real, m: real, lo0: real, hi0: real,
                            lo: real, hi: real, c: real, d: real, drift: real, iter: nat) {
    && lo0 <= lo <= hi <= hi0 <= lo0 + LIMIT && (Unimodal(f, m, lo0, hi0) ==> Unimodal(f, m, lo, hi))
    && Golden(lo, hi, c, d, drift)
    && drift + 4.0 * MISS * (hi - lo) <= 4.0 * MISS * (hi0 - lo0)
    && hi - lo <= Shrunk(hi0 - lo0, iter) && iter <= MAX_STEPS
  }

  lemma SearchStep(f: real -> real, m: real, lo0: real, hi0: real,
                   lo: real, hi: real, c: real, d: real, drift: real, iter: nat)
    requires Searching(f, m, lo0, hi0, lo, hi, c, d, drift, iter) && hi - lo > TOL
    ensures f(c) < f(d) ==>
      Searching(f, m, lo0, hi0, lo, d, d - GR * (d - lo), c, drift + MISS * (hi - lo), iter + 1)
    ensures f(c) >= f(d) ==>
      Searching(f, m, lo0, hi0, c, hi, d, c + GR * (hi - c), drift + MISS * (hi - lo), iter + 1)
  {
    StepsLeft(hi0 - lo0, hi - lo, iter);
    PointsApart(lo, hi, c, d, drift);
    StepKeepsGolden(lo, hi, c, d, drift);
    if Unimodal(f, m, lo0, hi0) { Discard(f, m, lo, hi, c, d); }
  }

  lemma SearchStart(f: real -> real, m: real, lo0: real, hi0: real)
    requires lo0 <= hi0 <= lo0 + LIMIT
    ensures Searching(f, m, lo0, hi0, lo0, hi0, hi0 - GR * (hi0 - lo0), lo0 + GR * (hi0 - lo0), 0.0, 0)
  {
  }

  lemma SearchEnd(f: real -> real, m: real, lo0: real, hi0: real,
                  lo: real, hi: real, c: real, d: real, drift: real, iter: nat)
    requires Searching(f, m, lo0, hi0, lo, hi, c, d, drift, iter) && (hi - lo <= TOL || iter >= 200)
    ensures lo0 <= 0.5 * (lo + hi) <= hi0
    ensures Unimodal(f, m, lo0, hi0) ==> Abs(0.5 * (lo + hi) - m) <= TOL / 2.0
  {
  }

  /** The loop's variables: the two stored values are those of the inner points, and a covered search is on its way. */
  ghost predicate Underway(f: real -> real, m: real, first: real, last: real, lo: real, hi: real,
                           c: real, d: real, fc: real, fd: real, iter: nat) {
    && fc == f(c) && fd == f(d)
    && (first <= last <= first + LIMIT ==> exists drift :: Searching(f, m, first, last, lo, hi, c, d, drift, iter))
  }

  /** The first bracket with its two golden points. */
  method Open(f: real -> real, lo: real, hi: real, ghost m: real) returns (c: real, d: real, fc: real, fd: real)
    ensures Underway(f, m, lo, hi, lo, hi, c, d, fc, fd, 0)
  {
    c := hi - GR * (hi - lo);
    d := lo + GR * (hi - lo);
    fc := f(c);
    fd := f(d);
    if lo <= hi <= lo + LIMIT { SearchStart(f, m, lo, hi); }
  }

  /** One step: drop the side beyond the worse inner point, keep the better point, evaluate one new point. */
  method Narrow(f: real -> real, lo0: real, hi0: real, c0: real, d0: real, fc0: real, fd0: real,
                ghost m: real, ghost first: real, ghost last: real, ghost iter: nat)
    returns (lo: real, hi: real, c: real, d: real, fc: real, fd: real)
    requires Underway(f, m, first, last, lo0, hi0, c0, d0, fc0, fd0, iter) && hi0 - lo0 > TOL
    ensures Underway(f, m, first, last, lo, hi, c, d, fc, fd, iter + 1)
  {
    if first <= last <= first + LIMIT {
      ghost var drift :| Searching(f, m, first, last, lo0, hi0, c0, d0, drift, iter);
      SearchStep(f, m, first, last, lo0, hi0, c0, d0, drift, iter);
    }
    lo, hi, c, d, fc, fd := lo0, hi0, c0, d0, fc0, fd0;
    if fc < fd {
      hi := d;
      d := c;
      fd := fc;
      c := hi - GR * (hi - lo);
      fc := f(c);
    } else {
      lo := c;
      c := d;
      fc := fd;
      d := lo + GR * (hi - lo);
      fd := f(d);
    }
  }

  /** A time inside the bracket, reached before the cap, and within half the tolerance of a single minimum. */
  ghost predicate Close(f: real -> real, m: real, first: real, last: real, t: real, steps: nat) {
    first <= last <= first + LIMIT ==>
      && first <= t <= last && steps <= MAX_STEPS < 200
      && (Unimodal(f, m, first, last) ==> Abs(t - m) <= TOL / 2.0)
  }

  lemma UnderwayEnds(f: real -> real, m: real, first: real, last: real, lo: real, hi: real,
                     c: real, d: real, fc: real, fd: real, iter: nat)
    requires Underway(f, m, first, last, lo, hi, c, d, fc, fd, iter) && (hi - lo <= TOL || iter >= 200)
    ensures Close(f, m, first, last, 0.5 * (lo + hi), iter)
  {
    if first <= last <= first + LIMIT {
      var drift :| Searching(f, m, first, last, lo, hi, c, d, drift, iter);
      SearchEnd(f, m, first, last, lo, hi, c, d, drift, iter);
    }
  }

  /** The loop: narrow the bracket until it is within the tolerance, or 200 times. */
  method Search(f: real -> real, lo0: real, hi0: real, ghost m: real) returns (lo: real, hi: real, ghost iter: nat)
    ensures Close(f, m, lo0, hi0, 0.5 * (lo + hi), iter)
  {
    lo, hi := lo0, hi0;
    var c, d, fc, fd := Open(f, lo, hi, m);
    var n := 0;
    while hi - lo > TOL && n < 200
      invariant 0 <= n <= 200
      invariant Underway(f, m, lo0, hi0, lo, hi, c, d, fc, fd, n)
      decreases 200 - n
    {
      lo, hi, c, d, fc, fd := Narrow(f, lo, hi, c, d, fc, fd, m, lo0, hi0, n);
      n := n + 1;
    }
    iter := n;
    UnderwayEnds(f, m, lo0, hi0, lo, hi, c, d, fc, fd, n);
  }

  /**
   For any function the search ends on its tolerance, well before the cap of 200 steps, inside its bracket;
   for a bracket around a single minimum it returns a time within half the tolerance of the minimum.
   */
  method RefineTca(f: real -> real, lo0: real, hi0: real, ghost m: real) returns (tca: real, ghost steps: nat)
    ensures lo0 <= hi0 <= lo0 + LIMIT ==> lo0 <= tca <= hi0
    ensures lo0 <= hi0 <= lo0 + LIMIT ==> steps <= MAX_STEPS < 200
    ensures hi0 - lo0 <= LIMIT && Unimodal(f, m, lo0, hi0) ==> Abs(tca - m) <= TOL / 2.0
  {
    var lo, hi;
    lo, hi, steps := Search(f, lo0, hi0, m);
    tca := 0.5 * (lo + hi);
  }
}
