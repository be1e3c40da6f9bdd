/**
 The conjunction search: a coarse scan of the separation of two satellites over a window, every dip of three
 samples refined by golden section, with the lowest sample as the fallback. The separation is an arbitrary
 function of time.
 */
module Conjunction {
  import opened Basics
  import opened GoldenSection

  /** The value the smallest separations start from. */
  const HUGE := 1e300

  ghost predicate BelowHuge(f: real -> real) {
    forall x :: f(x) < HUGE
  }

  // ---- Samples ----

  /** The k-th sample of the scan. */
  function Sample(now: real, step: real, k: nat): real {
    if k == 0 then now else Sample(now, step, k - 1) + step
  }

  lemma {:induction false} SampleOrder(now: real, step: real, j: nat, k: nat)
    requires step > 0.0 && j <= k
    ensures Sample(now, step, j) <= Sample(now, step, k)
    ensures j < k ==> Sample(now, step, j) + step <= Sample(now, step, k)
    decreases k
  {
    if j < k {
      SampleOrder(now, step, j, k - 1);
    }
  }

  /** The window has samples 0 to n. */
  ghost predicate IsLast(now: real, step: real, limit: real, n: nat) {
    Sample(now, step, n) <= limit < Sample(now, step, n + 1)
  }

  /** How many steps fit before the limit; the measure of the scan. */
  function Room(t: real, limit: real, step: real): int
    requires step > 0.0
  {
    ((limit - t) / step).Floor
  }

  lemma RoomShrinks(t: real, limit: real, step: real)
    requires step > 0.0
    ensures Room(t + step, limit, step) == Room(t, limit, step) - 1
    ensures t <= limit ==> Room(t, limit, step) >= 0
  {
    var x, q := limit - t, (limit - t) / step;
    QuotientIs(x, step, q);
    assert (q - 1.0) * step == x - step == limit - (t + step);
    QuotientIs(x - step, step, q - 1.0);
  }

  lemma QuotientIs(x: real, d: real, q: real)
    requires d > 0.0
    ensures x / d == q <==> q * d == x
    ensures x >= 0.0 ==> x / d >= 0.0
  {
  }

  /** Separation at the k-th sample. */
  function At(f: real -> real, now: real, step: real, k: nat): real {
    f(Sample(now, step, k))
  }

  /** The middle of samples k - 2, k - 1, k is the lowest. */
  predicate Dip(f: real -> real, now: real, step: real, k: nat) {
    && k >= 2
    && At(f, now, step, k - 1) <= At(f, now, step, k - 2) && At(f, now, step, k - 1) <= At(f, now, step, k)
  }

  /** The separation does not rise over the first step nor fall over the last. */
  predicate Bracketed(f: real -> real, now: real, step: real, n: nat) {
    && n >= 2
    && At(f, now, step, 1) <= At(f, now, step, 0) && At(f, now, step, n - 1) <= At(f, now, step, n)
  }

  ghost predicate HasDip(f: real -> real, now: real, step: real, n: nat) {
    exists k: nat :: k <= n && Dip(f, now, step, k)
  }

  /** Whatever the separation, a window that falls first and rises last has a dip. */
  lemma {:induction false} BracketedHasDip(f: real -> real, now: real, step: real, n: nat, k: nat)
    requires 2 <= k <= n && At(f, now, step, k - 1) <= At(f, now, step, k - 2)
    requires At(f, now, step, n - 1) <= At(f, now, step, n)
    ensures HasDip(f, now, step, n)
    decreases n - k
  {
    if At(f, now, step, k - 1) <= At(f, now, step, k) {
      assert Dip(f, now, step, k);
    } else {
      BracketedHasDip(f, now, step, n, k + 1);
    }
  }

  // ---- A single minimum ----

  lemma UnimodalWithin(f: real -> real, m: real, lo: real, hi: real, a: real, b: real)
    requires Unimodal(f, m, lo, hi) && lo <= a <= m <= b <= hi
    ensures Unimodal(f, m, a, b)
  {
  }

  /** The minimum is before the later of two times if the earlier is no higher, after the earlier if the later is. */
  lemma NotFarFromMinimum(f: real -> real, m: real, lo: real, hi: real, x: real, y: real)
    requires Unimodal(f, m, lo, hi) && lo <= x < y <= hi
    ensures f(x) <= f(y) ==> m < y
    ensures f(y) <= f(x) ==> x < m
  {
    assert y <= m ==> Falls(f, x, y);
    assert m <= x ==> Rises(f, x, y);
  }

  lemma DipAround(f: real -> real, m: real, now: real, step: real, limit: real, k: nat)
    requires step > 0.0 && Unimodal(f, m, now, limit) && Dip(f, now, step, k) && Sample(now, step, k) <= limit
    ensures now <= Sample(now, step, k - 2) <= m <= Sample(now, step, k)
  {
    var a, b, c := Sample(now, step, k - 2), Sample(now, step, k - 1), Sample(now, step, k);
    SampleOrder(now, step, 0, k - 2);
    assert now <= a < b < c <= limit && f(b) <= f(a) && f(b) <= f(c);
    NotFarFromMinimum(f, m, now, limit, b, c);
    NotFarFromMinimum(f, m, now, limit, a, b);
  }

  /** The three samples of a dip enclose the minimum. */
  lemma DipHoldsMinimum(f: real -> real, m: real, now: real, step: real, limit: real, k: nat)
    requires step > 0.0 && Unimodal(f, m, now, limit) && Dip(f, now, step, k) && Sample(now, step, k) <= limit
    ensures Sample(now, step, k - 2) <= m <= Sample(now, step, k)
    ensures Unimodal(f, m, Sample(now, step, k - 2), Sample(now, step, k))
  {
    DipAround(f, m, now, step, limit, k);
    UnimodalWithin(f, m, now, limit, Sample(now, step, k - 2), Sample(now, step, k));
  }

  lemma FirstFalls(f: real -> real, m: real, now: real, step: real, limit: real, k: nat)
    requires step > 0.0 && Unimodal(f, m, now, limit) && Dip(f, now, step, k) && Sample(now, step, k) <= limit
    ensures f(now + step) <= f(now)
  {
    assert Sample(now, step, 0) == now && Sample(now, step, 1) == now + step;
    if k > 2 {
      DipAround(f, m, now, step, limit, k);
      SampleOrder(now, step, 1, k - 2);
      NotFarFromMinimum(f, m, now, limit, now, now + step);
    }
  }

  lemma LastRises(f: real -> real, m: real, now: real, step: real, limit: real, k: nat, n: nat)
    requires step > 0.0 && Unimodal(f, m, now, limit) && Dip(f, now, step, k) && k <= n
    requires Sample(now, step, n) <= limit
    ensures At(f, now, step, n - 1) <= At(f, now, step, n)
  {
    if k < n {
      SampleOrder(now, step, k, n);
      SampleOrder(now, step, k, n - 1);
      DipAround(f, m, now, step, limit, k);
      NotFarFromMinimum(f, m, now, limit, Sample(now, step, n - 1), Sample(now, step, n));
    }
  }

  lemma DipIsBracketed(f: real -> real, m: real, now: real, step: real, limit: real, n: nat)
    requires step > 0.0 && Unimodal(f, m, now, limit) && Sample(now, step, n) <= limit && HasDip(f, now, step, n)
    ensures Bracketed(f, now, step, n)
  {
    var k: nat :| k <= n && Dip(f, now, step, k);
    SampleOrder(now, step, k, n);
    FirstFalls(f, m, now, step, limit, k);
    assert Sample(now, step, 0) == now && Sample(now, step, 1) == now + step;
    LastRises(f, m, now, step, limit, k, n);
  }

  /** With a single minimum, a dip is found exactly when the window falls first and rises last. */
  lemma DipIffBracketed(f: real -> real, m: real, now: real, step: real, limit: real, n: nat)
    requires step > 0.0 && Unimodal(f, m, now, limit) && Sample(now, step, n) <= limit
    ensures HasDip(f, now, step, n) <==> Bracketed(f, now, step, n)
  {
    if Bracketed(f, now, step, n) {
      BracketedHasDip(f, now, step, n, 2);
    }
    if HasDip(f, now, step, n) {
      DipIsBracketed(f, m, now, step, limit, n);
    }
  }

  /** A minimum at least one step inside the samples is always bracketed. */
  lemma InsideIsBracketed(f: real -> real, m: real, now: real, step: real, limit: real, n: nat)
    requires step > 0.0 && Unimodal(f, m, now, limit) && n >= 2 && Sample(now, step, n) <= limit
    requires Sample(now, step, 1) <= m <= Sample(now, step, n - 1)
    ensures Bracketed(f, now, step, n)
  {
    assert Sample(now, step, 0) == now && Sample(now, step, 1) == now + step;
    SampleOrder(now, step, 0, n - 1);
    assert Falls(f, now, now + step);
    assert Rises(f, Sample(now, step, n - 1), Sample(now, step, n));
  }

  /** Sample i is the lowest of the samples before n, the first on ties. */
  ghost predicate Lowest(f: real -> real, now: real, step: real, n: nat, i: nat) {
    && i < n
    && (forall j: nat :: j < n ==> At(f, now, step, i) <= At(f, now, step, j))
    && (forall j: nat :: j < i ==> At(f, now, step, i) < At(f, now, step, j))
  }

  lemma LowestNeighbours(f: real -> real, now: real, step: real, limit: real, n: nat, i: nat, s: real)
    requires step > 0.0 && IsLast(now, step, limit, n) && Lowest(f, now, step, n + 1, i) && s == Sample(now, step, i)
    ensures now <= s <= limit
    ensures s + step <= limit ==> f(s) <= f(s + step)
    ensures s > now ==> now <= s - step && f(s) <= f(s - step)
  {
    SampleOrder(now, step, 0, i);
    SampleOrder(now, step, i, n);
    assert Sample(now, step, i + 1) == s + step;
    if i < n {
      assert At(f, now, step, i) <= At(f, now, step, i + 1) == f(s + step);
    }
    if i > 0 {
      SampleOrder(now, step, 0, i - 1);
      assert Sample(now, step, i - 1) == s - step;
      assert At(f, now, step, i) <= At(f, now, step, i - 1) == f(s - step);
    }
  }

  /** The lowest sample of the window is less than one step from a single minimum. */
  lemma LowestIsNear(f: real -> real, m: real, now: real, step: real, limit: real, n: nat, i: nat)
    requires step > 0.0 && Unimodal(f, m, now, limit) && IsLast(now, step, limit, n) && Lowest(f, now, step, n + 1, i)
    ensures Abs(Sample(now, step, i) - m) < step
  {
    var s := Sample(now, step, i);
    LowestNeighbours(f, now, step, limit, n, i, s);
    Near(f, m, now, limit, s, step);
  }

  lemma Near(f: real -> real, m: real, lo: real, hi: real, s: real, step: real)
    requires step > 0.0 && Unimodal(f, m, lo, hi) && lo <= s <= hi
    requires s + step <= hi ==> f(s) <= f(s + step)
    requires s > lo ==> lo <= s - step && f(s) <= f(s - step)
    ensures Abs(s - m) < step
  {
    if s + step <= hi { NotFarFromMinimum(f, m, lo, hi, s, s + step); }
    if s > lo { NotFarFromMinimum(f, m, lo, hi, s - step, s); }
  }

  // ---- What the scan keeps ----

  /** The smallest refined separation and the events reported. */
  datatype Tally = Tally(haveBest: bool, bestMin: real, bestT: real, events: seq<real>)

  /** A refined dip at `t` with separation `d` is noted, and reported when within the threshold. */
  function Noted(c: Tally, t: real, d: real, threshold: real): Tally {
    var b := if d < c.bestMin then c.(haveBest := true, bestMin := d, bestT := t) else c;
    if d <= threshold then b.(events := b.events + [t]) else b
  }

  /** The best is a refined separation; the events are within the threshold and none is below the best. */
  ghost predicate Fair(f: real -> real, c: Tally, threshold: real) {
    && (if c.haveBest then c.bestMin == f(c.bestT) else c.bestMin == HUGE)
    && forall e :: e in c.events ==> c.bestMin <= f(e) <= threshold || HUGE <= f(e) <= threshold
  }

  /** Until the first event the best is above the threshold; the first event is then the best. */
  ghost predicate FirstMatch(c: Tally, threshold: real) {
    && (c.events == [] && c.haveBest ==> c.bestMin > threshold)
    && (c.events != [] && threshold < HUGE ==> c.haveBest && c.events == [c.bestT])
  }

  /** Every time noted is within half the tolerance of the minimum. */
  ghost predicate Tight(c: Tally, m: real) {
    && (c.haveBest ==> Abs(c.bestT - m) <= TOL / 2.0)
    && forall e :: e in c.events ==> Abs(e - m) <= TOL / 2.0
  }

  lemma NotedKeeps(f: real -> real, c: Tally, t: real, threshold: real)
    requires Fair(f, c, threshold)
    ensures Fair(f, Noted(c, t, f(t), threshold), threshold)
    ensures FirstMatch(c, threshold) && c.events == [] ==> FirstMatch(Noted(c, t, f(t), threshold), threshold)
    ensures c.haveBest || f(t) < HUGE ==> Noted(c, t, f(t), threshold).haveBest
  {
  }

  lemma NotedTight(f: real -> real, c: Tally, t: real, threshold: real, m: real)
    requires Tight(c, m) && Abs(t - m) <= TOL / 2.0
    ensures Tight(Noted(c, t, f(t), threshold), m)
  {
  }

  // ---- The record of refinements ----

  /** The dip of samples k - 2, k - 1, k was refined to `t`. */
  datatype Refinement = Refinement(k: nat, t: real)

  /** The record has one entry for every dip before n, in order, each inside its own three samples. */
  ghost predicate Complete(f: real -> real, now: real, step: real, n: nat, log: seq<Refinement>) {
    && (forall i :: 0 <= i < |log| ==> log[i].k < n && Dip(f, now, step, log[i].k))
    && (forall i, j :: 0 <= i < j < |log| ==> log[i].k < log[j].k)
    && (forall k: nat :: k < n && Dip(f, now, step, k) ==> Recorded(log, k))
    && (forall i :: 0 <= i < |log| ==> Inside(now, step, log[i]))
  }

  ghost predicate Recorded(log: seq<Refinement>, k: nat) {
    exists i :: 0 <= i < |log| && log[i].k == k
  }

  ghost predicate Inside(now: real, step: real, r: Refinement) {
    r.k >= 2 && (2.0 * step <= LIMIT ==> Sample(now, step, r.k - 2) <= r.t <= Sample(now, step, r.k))
  }

  /** The refined times within the threshold, in order. */
  function Within(f: real -> real, log: seq<Refinement>, threshold: real): seq<real> {
    if log == [] then [] else
      var t := log[|log| - 1].t;
      Within(f, log[..|log| - 1], threshold) + if f(t) <= threshold then [t] else []
  }

  /** Entry i of the record has the smallest separation, the first on ties. */
  ghost predicate IsSmallest(f: real -> real, log: seq<Refinement>, i: nat) {
    && i < |log|
    && (forall j :: 0 <= j < |log| ==> f(log[i].t) <= f(log[j].t))
    && (forall j :: 0 <= j < i ==> f(log[i].t) < f(log[j].t))
  }

  /** The tally is that of the record: the smallest refined separation below HUGE, and the times within threshold. */
  ghost predicate Sums(f: real -> real, log: seq<Refinement>, c: Tally, threshold: real) {
    && c.events == Within(f, log, threshold)
    && (c.haveBest ==> c.bestMin == f(c.bestT) && exists i: nat :: IsSmallest(f, log, i) && c.bestT == log[i].t)
    && (!c.haveBest ==> c.bestMin == HUGE && forall i :: 0 <= i < |log| ==> f(log[i].t) >= HUGE)
  }

  lemma SumsNext(f: real -> real, log: seq<Refinement>, c: Tally, threshold: real, r: Refinement)
    requires Sums(f, log, c, threshold)
    ensures Sums(f, log + [r], Noted(c, r.t, f(r.t), threshold), threshold)
  {
    var next, d := log + [r], f(r.t);
    assert next[..|next| - 1] == log;
    if d < c.bestMin {
      if c.haveBest {
        var i: nat :| IsSmallest(f, log, i) && c.bestT == log[i].t;
        assert forall j :: 0 <= j < |log| ==> next[j] == log[j] && f(log[i].t) <= f(log[j].t);
      }
      assert IsSmallest(f, next, |log|);
    } else if c.haveBest {
      var i: nat :| IsSmallest(f, log, i) && c.bestT == log[i].t;
      assert forall j :: 0 <= j < |log| ==> next[j] == log[j];
      assert IsSmallest(f, next, i);
    }
  }

  lemma CompleteNext(f: real -> real, now: real, step: real, n: nat, log: seq<Refinement>, t: real)
    requires Complete(f, now, step, n, log)
    ensures !Dip(f, now, step, n) ==> Complete(f, now, step, n + 1, log)
    ensures Dip(f, now, step, n) && Inside(now, step, Refinement(n, t)) ==>
      Complete(f, now, step, n + 1, log + [Refinement(n, t)])
  {
    var next := log + [Refinement(n, t)];
    assert next[|log|].k == n;
    forall k: nat | Recorded(log, k) ensures Recorded(next, k) {
      var i :| 0 <= i < |log| && log[i].k == k;
      assert next[i].k == k;
    }
    assert Recorded(next, n);
  }

  /** The window holds a single minimum and its brackets are covered by the refinement. */
  ghost predicate Single(f: real -> real, m: real, now: real, step: real, limit: real) {
    Unimodal(f, m, now, limit) && 2.0 * step <= LIMIT
  }

  /** Refine the dip of samples k - 2, k - 1, k. */
  method TakeDip(f: real -> real, lo: real, hi: real,
                 ghost now: real, ghost step: real, ghost limit: real, ghost k: nat, ghost m: real)
    returns (tca: real)
    requires step > 0.0 && Dip(f, now, step, k) && lo == Sample(now, step, k - 2) && hi == Sample(now, step, k) <= limit
    ensures Good(f, m, now, step, limit, Refinement(k, tca))
  {
    ghost var steps;
    tca, steps := RefineTca(f, lo, hi, m);
    assert Sample(now, step, k) == Sample(now, step, k - 1) + step;
    if Single(f, m, now, step, limit) {
      DipHoldsMinimum(f, m, now, step, limit, k);
    }
  }

  /** A refinement inside its three samples, and close to a single minimum. */
  ghost predicate Good(f: real -> real, m: real, now: real, step: real, limit: real, r: Refinement) {
    Inside(now, step, r) && (Single(f, m, now, step, limit) ==> Abs(r.t - m) <= TOL / 2.0)
  }

  /** The two samples before the n-th, as far as there are any. */
  datatype Past = Past(have2: bool, have1: bool, t2: real, d2: real, t1: real, d1: real)

  ghost predicate Holds(f: real -> real, now: real, step: real, n: nat, p: Past) {
    && (p.have1 <==> n >= 1) && (p.have2 <==> n >= 2)
    && (n >= 1 ==> p.t1 == Sample(now, step, n - 1) && p.d1 == At(f, now, step, n - 1))
    && (n >= 2 ==> p.t2 == Sample(now, step, n - 2) && p.d2 == At(f, now, step, n - 2))
  }

  lemma HoldsNext(f: real -> real, now: real, step: real, n: nat, p: Past, t: real)
    requires Holds(f, now, step, n, p) && t == Sample(now, step, n)
    ensures Holds(f, now, step, n + 1, Past(p.have1, true, p.t1, p.d1, t, f(t)))
    ensures Sample(now, step, n + 1) == t + step
  {
  }

  datatype Low = Low(min: real, t: real)

  /** The coarse minimum of the samples before n, as the scan keeps it. */
  function CoarseOf(f: real -> real, now: real, step: real, n: nat): Low {
    if n == 0 then Low(HUGE, now) else
      var low, d := CoarseOf(f, now, step, n - 1), At(f, now, step, n - 1);
      if d < low.min then Low(d, Sample(now, step, n - 1)) else low
  }

  /** Sample i is the lowest of the samples before n and the one kept. */
  ghost predicate Keeps(f: real -> real, now: real, step: real, n: nat, low: Low, i: nat) {
    Lowest(f, now, step, n, i) && low == Low(At(f, now, step, i), Sample(now, step, i))
  }

  lemma KeepsNext(f: real -> real, now: real, step: real, n: nat, low: Low, i: nat)
    requires n > 0 && Keeps(f, now, step, n, low, i)
    ensures var d := At(f, now, step, n);
      if d < low.min then Keeps(f, now, step, n + 1, Low(d, Sample(now, step, n)), n)
      else Keeps(f, now, step, n + 1, low, i)
  {
  }

  /** The coarse minimum is the lowest sample. */
  lemma {:induction false} CoarseIs(f: real -> real, now: real, step: real, n: nat) returns (i: nat)
    requires BelowHuge(f) && n > 0
    ensures Keeps(f, now, step, n, CoarseOf(f, now, step, n), i)
    decreases n
  {
    if n == 1 {
      i := 0;
      assert CoarseOf(f, now, step, 0) == Low(HUGE, now);
    } else {
      i := CoarseIs(f, now, step, n - 1);
      KeepsNext(f, now, step, n - 1, CoarseOf(f, now, step, n - 1), i);
      if At(f, now, step, n - 1) < CoarseOf(f, now, step, n - 1).min {
        i := n - 1;
      }
    }
  }

  /** What holds of the tally after the samples before n. */
  ghost predicate Scanned(f: real -> real, m: real, now: real, step: real, limit: real, n: nat, c: Tally,
                          threshold: real, all: bool) {
    && Fair(f, c, threshold)
    && (Single(f, m, now, step, limit) ==> Tight(c, m))
    && (!all ==> FirstMatch(c, threshold))
    && (c.haveBest || c.events != [] ==> n > 0 && HasDip(f, now, step, n - 1))
    && (BelowHuge(f) && n > 0 && HasDip(f, now, step, n - 1) ==> c.haveBest)
  }

  lemma ScannedNext(f: real -> real, m: real, now: real, step: real, limit: real, n: nat, c: Tally, next: Tally,
                    threshold: real, all: bool)
    requires Scanned(f, m, now, step, limit, n, c, threshold, all)
    requires if Dip(f, now, step, n) then
               && Fair(f, next, threshold) && (Single(f, m, now, step, limit) ==> Tight(next, m))
               && (!all ==> FirstMatch(next, threshold)) && (BelowHuge(f) ==> next.haveBest)
             else next == c
    ensures Scanned(f, m, now, step, limit, n + 1, next, threshold, all)
  {
    if HasDip(f, now, step, n) && !Dip(f, now, step, n) {
      var k: nat :| k <= n && Dip(f, now, step, k);
      assert n > 0 && k <= n - 1;
    }
    if n > 0 && HasDip(f, now, step, n - 1) {
      var k: nat :| k <= n - 1 && Dip(f, now, step, k);
      assert k <= n && Dip(f, now, step, k);
    }
  }

  /** The record is complete up to n and the tally is its sum. */
  ghost predicate Kept(f: real -> real, now: real, step: real, n: nat, log: seq<Refinement>, c: Tally,
                       threshold: real) {
    Complete(f, now, step, n, log) && Sums(f, log, c, threshold)
  }

  ghost predicate HasRecord(f: real -> real, now: real, step: real, n: nat, c: Tally, threshold: real) {
    exists log :: Kept(f, now, step, n, log, c, threshold)
  }

  lemma RecordStart(f: real -> real, now: real, step: real, threshold: real)
    ensures HasRecord(f, now, step, 0, Tally(false, HUGE, now, []), threshold)
  {
    assert Kept(f, now, step, 0, [], Tally(false, HUGE, now, []), threshold);
  }

  lemma RecordNext(f: real -> real, now: real, step: real, n: nat, c: Tally, next: Tally, threshold: real, t: real)
    requires HasRecord(f, now, step, n, c, threshold)
    requires if Dip(f, now, step, n) then next == Noted(c, t, f(t), threshold) && Inside(now, step, Refinement(n, t))
             else next == c
    ensures HasRecord(f, now, step, n + 1, next, threshold)
  {
    var log :| Kept(f, now, step, n, log, c, threshold);
    CompleteNext(f, now, step, n, log, t);
    SumsNext(f, log, c, threshold, Refinement(n, t));
    assert Kept(f, now, step, n + 1, if Dip(f, now, step, n) then log + [Refinement(n, t)] else log, next, threshold);
  }

  /** The tally of a scan that refined the dip at each sample k, if there is one, to times[k]. */
  function Tallied(f: real -> real, now: real, step: real, times: seq<real>, threshold: real): Tally {
    if times == [] then Tally(false, HUGE, now, []) else
      var n, t := |times| - 1, times[|times| - 1];
      var c := Tallied(f, now, step, times[..n], threshold);
      if Dip(f, now, step, n) then Noted(c, t, f(t), threshold) else c
  }

  /** Each of those times is a good refinement of its dip. */
  ghost predicate Placed(f: real -> real, m: real, now: real, step: real, limit: real, times: seq<real>) {
    times == [] ||
    (var n := |times| - 1;
     && Placed(f, m, now, step, limit, times[..n])
     && (Dip(f, now, step, n) ==> Good(f, m, now, step, limit, Refinement(n, times[n]))))
  }

  lemma {:induction false} RecordOf(f: real -> real, m: real, now: real, step: real, limit: real, times: seq<real>,
                                    threshold: real)
    requires Placed(f, m, now, step, limit, times)
    ensures HasRecord(f, now, step, |times|, Tallied(f, now, step, times, threshold), threshold)
    decreases |times|
  {
    if times == [] {
      RecordStart(f, now, step, threshold);
    } else {
      var n := |times| - 1;
      RecordOf(f, m, now, step, limit, times[..n], threshold);
      RecordNext(f, now, step, n, Tallied(f, now, step, times[..n], threshold), Tallied(f, now, step, times, threshold),
                 threshold, times[n]);
    }
  }

  /** One by one the samples keep what `Scanned` says, up to a first event when one is enough. */
  lemma {:induction false} ScannedOf(f: real -> real, m: real, now: real, step: real, limit: real, times: seq<real>,
                                     threshold: real, all: bool)
    requires Placed(f, m, now, step, limit, times)
    requires !all && times != [] ==> Tallied(f, now, step, times[..|times| - 1], threshold).events == []
    ensures Scanned(f, m, now, step, limit, |times|, Tallied(f, now, step, times, threshold), threshold, all)
    decreases |times|
  {
    if times != [] {
      var n := |times| - 1;
      var c := Tallied(f, now, step, times[..n], threshold);
      if n > 0 {
        assert c.events == [] ==> Tallied(f, now, step, times[..n][..n - 1], threshold).events == [];
      }
      ScannedOf(f, m, now, step, limit, times[..n], threshold, all);
      ScannedStep(f, m, now, step, limit, n, c, times[n], threshold, all);
    }
  }

  lemma ScannedStep(f: real -> real, m: real, now: real, step: real, limit: real, n: nat, c: Tally, t: real,
                    threshold: real, all: bool)
    requires Scanned(f, m, now, step, limit, n, c, threshold, all) && (!all ==> c.events == [])
    requires Dip(f, now, step, n) ==> Good(f, m, now, step, limit, Refinement(n, t))
    ensures Scanned(f, m, now, step, limit, n + 1,
                    if Dip(f, now, step, n) then Noted(c, t, f(t), threshold) else c, threshold, all)
  {
    var next := if Dip(f, now, step, n) then Noted(c, t, f(t), threshold) else c;
    if Dip(f, now, step, n) {
      NotedKeeps(f, c, t, threshold);
      if Single(f, m, now, step, limit) {
        NotedTight(f, c, t, threshold, m);
      }
    }
    ScannedNext(f, m, now, step, limit, n, c, next, threshold, all);
  }

  lemma TalliedNext(f: real -> real, m: real, now: real, step: real, limit: real, times: seq<real>, threshold: real,
                    t: real)
    requires Placed(f, m, now, step, limit, times)
    requires Dip(f, now, step, |times|) ==> Good(f, m, now, step, limit, Refinement(|times|, t))
    ensures var c, more := Tallied(f, now, step, times, threshold), times + [t];
      && Placed(f, m, now, step, limit, more)
      && Tallied(f, now, step, more, threshold)
         == (if Dip(f, now, step, |times|) then Noted(c, t, f(t), threshold) else c)
      && more[..|more| - 1] == times
  {
    var more := times + [t];
    assert more[..|times|] == times && more[|times|] == t;
  }

  /** One sample of the scan: the tally after it. */
  method TakeSample(f: real -> real, t: real, d: real, p: Past, c: Tally, threshold: real,
                    ghost now: real, ghost step: real, ghost limit: real, ghost m: real, ghost times: seq<real>)
    returns (next: Tally, ghost tca: real)
    requires step > 0.0 && t == Sample(now, step, |times|) <= limit && d == f(t)
    requires Holds(f, now, step, |times|, p)
    requires Placed(f, m, now, step, limit, times) && c == Tallied(f, now, step, times, threshold)
    ensures Placed(f, m, now, step, limit, times + [tca])
    ensures next == Tallied(f, now, step, times + [tca], threshold) && (times + [tca])[..|times|] == times
  {
    next, tca := c, 0.0;
    if p.have2 && p.have1 && p.d1 <= p.d2 && p.d1 <= d {
      var time := TakeDip(f, p.t2, t, now, step, limit, |times|, m);
      next := Noted(c, time, f(time), threshold);
      tca := time;
    }
    TalliedNext(f, m, now, step, limit, times, threshold, tca);
  }

  /** Where the search says the satellites come closest, and whether that was refined. */
  datatype Answer = Answer(refined: bool, t: real, events: seq<real>)

  /**
   What the answer means for a single minimum: refined exactly when the window falls first and rises last, and then
   within half the tolerance of the minimum, as is every event; otherwise the lowest sample, less than a step away.
   */
  ghost predicate Answers(f: real -> real, m: real, now: real, step: real, limit: real, a: Answer) {
    && (forall n: nat :: IsLast(now, step, limit, n) ==> (a.refined <==> Bracketed(f, now, step, n)))
    && (if a.refined then Abs(a.t - m) <= TOL / 2.0 else Abs(a.t - m) < step)
    && forall e :: e in a.events ==> Abs(e - m) <= TOL / 2.0
  }

  lemma NotAfterLast(now: real, step: real, limit: real, k: nat, n: nat)
    requires step > 0.0 && Sample(now, step, k) <= limit && IsLast(now, step, limit, n)
    ensures k <= n
  {
    if n < k {
      SampleOrder(now, step, n + 1, k);
    }
  }

  /** What the scan has when it stops after samples 0 to n: at the window's end, or at a first event. */
  ghost predicate Stopped(now: real, step: real, limit: real, n: nat, c: Tally, all: bool) {
    Sample(now, step, n) <= limit && (IsLast(now, step, limit, n) || (!all && c.events != []))
  }

  lemma RefinedIffBracketed(f: real -> real, m: real, now: real, step: real, limit: real, n: nat, c: Tally,
                            threshold: real, all: bool, last: nat)
    requires step > 0.0 && BelowHuge(f) && Single(f, m, now, step, limit) && IsLast(now, step, limit, last)
    requires Scanned(f, m, now, step, limit, n + 1, c, threshold, all) && Stopped(now, step, limit, n, c, all)
    ensures c.haveBest <==> Bracketed(f, now, step, last)
  {
    NotAfterLast(now, step, limit, n, last);
    DipIffBracketed(f, m, now, step, limit, last);
    if HasDip(f, now, step, n) {
      var k: nat :| k <= n && Dip(f, now, step, k);
      assert k <= last && Dip(f, now, step, k);
    }
    if IsLast(now, step, limit, n) {
      NotAfterLast(now, step, limit, last, n);
    } else {
      assert HasDip(f, now, step, n);
    }
  }

  lemma ScanAnswers(f: real -> real, m: real, now: real, step: real, limit: real, n: nat, c: Tally,
                    threshold: real, all: bool)
    requires step > 0.0 && BelowHuge(f) && Single(f, m, now, step, limit)
    requires Scanned(f, m, now, step, limit, n + 1, c, threshold, all) && Stopped(now, step, limit, n, c, all)
    ensures var low := CoarseOf(f, now, step, n + 1).t;
      Answers(f, m, now, step, limit, Answer(c.haveBest, if c.haveBest then c.bestT else low, c.events))
  {
    forall last: nat | IsLast(now, step, limit, last) ensures c.haveBest <==> Bracketed(f, now, step, last) {
      RefinedIffBracketed(f, m, now, step, limit, n, c, threshold, all, last);
    }
    if !c.haveBest {
      var i := CoarseIs(f, now, step, n + 1);
      LowestIsNear(f, m, now, step, limit, n, i);
    }
  }

  /** The scan has looked at sample |times| - 1 last: at the window's end, or at a first event. */
  ghost predicate Ended(f: real -> real, now: real, step: real, limit: real, times: seq<real>, threshold: real,
                        all: bool) {
    && times != [] && Sample(now, step, |times| - 1) <= limit
    && (!all ==> Tallied(f, now, step, times[..|times| - 1], threshold).events == [])
    && (|| limit < Sample(now, step, |times|)
        || (!all && Tallied(f, now, step, times, threshold).events != []))
  }

  /** The coarse scan itself. */
  method Scan(f: real -> real, now: real, step: real, limit: real, threshold: real, all: bool, ghost m: real)
    returns (c: Tally, low: Low, ghost times: seq<real>)
    requires step > 0.0 && now <= limit
    ensures Placed(f, m, now, step, limit, times) && Ended(f, now, step, limit, times, threshold, all)
    ensures c == Tallied(f, now, step, times, threshold) && low == CoarseOf(f, now, step, |times|)
  {
    var past := Past(false, false, 0.0, 0.0, 0.0, 0.0);
    c := Tally(false, HUGE, now, []);
    low := Low(HUGE, now);
    times := [];
    var t := now;
    while t <= limit
      invariant t == Sample(now, step, |times|) && Holds(f, now, step, |times|, past)
      invariant times != [] ==> Sample(now, step, |times| - 1) <= limit
      invariant low == CoarseOf(f, now, step, |times|)
      invariant Placed(f, m, now, step, limit, times) && c == Tallied(f, now, step, times, threshold)
      invariant !all ==> c.events == []
      invariant !all && times != [] ==> Tallied(f, now, step, times[..|times| - 1], threshold).events == []
      decreases Room(t, limit, step) + 1
    {
      RoomShrinks(t, limit, step);
      var d := f(t);
      if d < low.min {
        low := Low(d, t);
      }
      ghost var tca;
      HoldsNext(f, now, step, |times|, past, t);
      c, tca := TakeSample(f, t, d, past, c, threshold, now, step, limit, m, times);
      times := times + [tca];
      if !all && c.events != [] {
        return;
      }
      past := Past(past.have1, true, past.t1, past.d1, t, d);
      t := t + step;
    }
  }

  /**
   The answer of a scan of samples 0 to n with a given record: the times within the threshold are the events, and the
   closest is the smallest refined separation, the first on ties, or without any dip the lowest sample.
   */
  ghost predicate Reports(f: real -> real, now: real, step: real, n: nat, log: seq<Refinement>, threshold: real,
                          a: Answer) {
    && Complete(f, now, step, n + 1, log)
    && a.events == Within(f, log, threshold)
    && (BelowHuge(f) ==> (a.refined <==> log != []))
    && (a.refined ==> exists i: nat :: IsSmallest(f, log, i) && a.t == log[i].t)
    && (BelowHuge(f) && !a.refined ==> exists i: nat :: Lowest(f, now, step, n + 1, i) && a.t == Sample(now, step, i))
  }

  lemma KeptReports(f: real -> real, now: real, step: real, n: nat, log: seq<Refinement>, c: Tally, threshold: real)
    requires Kept(f, now, step, n + 1, log, c, threshold)
    ensures var low := CoarseOf(f, now, step, n + 1).t;
      Reports(f, now, step, n, log, threshold, Answer(c.haveBest, if c.haveBest then c.bestT else low, c.events))
  {
    if BelowHuge(f) {
      var i := CoarseIs(f, now, step, n + 1);
    }
    assert !c.haveBest && log != [] ==> f(log[0].t) >= HUGE;
  }

  /**
   The closest approach over a window, with the record of every dip refined. The whole window is scanned, or up to
   the first event when one is enough; the answer is the one `Reports` describes. Looking for the first match only,
   it is the event reported. Over a window with a single minimum it is what `Answers` says.
   */
  method ClosestApproach(f: real -> real, now: real, days: real, stepSec: real, threshold: real, all: bool,
                         ghost m: real)
    returns (a: Answer, ghost n: nat, ghost log: seq<Refinement>)
    requires days > 0.0 && stepSec > 0.0
    ensures Reports(f, now, stepSec / 86400.0, n, log, threshold, a)
    ensures var step := stepSec / 86400.0;
      IsLast(now, step, now + days + 0.5 * step, n) || (!all && a.events != [])
    ensures forall e :: e in a.events ==> f(e) <= threshold && ((a.refined && f(a.t) <= f(e)) || HUGE <= f(e))
    ensures !all && a.events != [] && threshold < HUGE ==> a.refined && a.events == [a.t]
    ensures var step := stepSec / 86400.0; var limit := now + days + 0.5 * step;
      BelowHuge(f) && Single(f, m, now, step, limit) ==> Answers(f, m, now, step, limit, a)
  {
    var step := stepSec / 86400.0;
    var limit := now + days + 0.5 * step;
    var c, low;
    ghost var times;
    c, low, times := Scan(f, now, step, limit, threshold, all, m);
    n := |times| - 1;
    RecordOf(f, m, now, step, limit, times, threshold);
    ScannedOf(f, m, now, step, limit, times, threshold, all);
    log :| Kept(f, now, step, n + 1, log, c, threshold);
    if BelowHuge(f) && Single(f, m, now, step, limit) {
      ScanAnswers(f, m, now, step, limit, n, c, threshold, all);
    }
    KeptReports(f, now, step, n, log, c, threshold);
    a := Answer(c.haveBest, if c.haveBest then c.bestT else low.t, c.events);
  }
}
