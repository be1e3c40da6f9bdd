/**
 Finding a pass over the station: bisection of a horizon crossing and the 30-second scan around it,
 over an arbitrary elevation function of time (in days).
 */
module Passes {

  const DAY := 86400.0
  const STEP := 30.0 / DAY
  const PEAK_STEP := 5.0 / DAY

  type Elevation = real -> real

  /** The elevation has opposite signs (negative or not) at the two times. */
  predicate Straddles(el: Elevation, a: real, b: real) {
    (el(a) < 0.0) != (el(b) < 0.0)
  }

  function Halved(w: real, k: nat): real {
    if k == 0 then w else Halved(w, k - 1) / 2.0
  }

  lemma {:induction false} HalvedShrinks(w: real, j: nat, k: nat)
    requires w >= 0.0 && j <= k
    ensures 0.0 <= Halved(w, k) <= Halved(w, j)
    decreases k
  {
    if j < k {
      HalvedShrinks(w, j, k - 1);
    } else if k > 0 {
      HalvedShrinks(w, k - 1, k - 1);
    }
  }

  lemma SixHalvings(w: real)
    requires 0.0 <= w <= STEP
    ensures Halved(w, 6) * DAY <= 0.5
  {
    assert Halved(w, 6) == Halved(w, 5) / 2.0;
    assert Halved(w, 5) == Halved(w, 4) / 2.0;
    assert Halved(w, 4) == Halved(w, 3) / 2.0;
    assert Halved(w, 3) == Halved(w, 2) / 2.0;
    assert Halved(w, 2) == Halved(w, 1) / 2.0;
  }

  datatype Bracket = Bracket(lo: real, hi: real)

  function Middle(b: Bracket): real {
    0.5 * (b.lo + b.hi)
  }

  /** The bracket that at most `left` halvings of [lo, hi] end with. */
  function Bisected(el: Elevation, lo: real, hi: real, left: nat): Bracket
    decreases left, lo
  {
    if left == 0 || (hi - lo) * DAY <= 0.5 then Bracket(lo, hi) else
      var tm := 0.5 * (lo + hi);
      if (el(tm) < 0.0) == (el(lo) < 0.0) then Bisected(el, tm, hi, left - 1) else Bisected(el, lo, tm, left - 1)
  }

  /** The bracket the refinement of a crossing in [lo, hi] ends with. */
  function Refined(el: Elevation, lo: real, hi: real): Bracket {
    Bisected(el, lo, hi, 48)
  }

  /**
   Bisection of a bracketed crossing: the midpoint of a bracket inside the given one, below the horizon at
   its start exactly when the given one is, that still straddles zero if the given one did, and that is at
   most half a second wide when the given one is at most 30 seconds.
   */
  method RefineCross(el: Elevation, lo0: real, hi0: real) returns (r: real, ghost a: real, ghost b: real)
    requires lo0 <= hi0
    ensures r == Middle(Refined(el, lo0, hi0))
    ensures Bracket(a, b) == Refined(el, lo0, hi0)
    ensures lo0 <= a <= r <= b <= hi0
    ensures el(a) < 0.0 <==> el(lo0) < 0.0
    ensures Straddles(el, lo0, hi0) ==> Straddles(el, a, b) && (el(b) < 0.0 <==> el(hi0) < 0.0)
    ensures hi0 - lo0 <= STEP ==> (b - a) * DAY <= 0.5
  {
    var lo, hi := lo0, hi0;
    var eLo := el(lo);
    var i := 0;
    while i < 48 && (hi - lo) * DAY > 0.5
      invariant 0 <= i <= 48 && lo0 <= lo <= hi <= hi0 && hi - lo == Halved(hi0 - lo0, i)
      invariant (eLo < 0.0 <==> el(lo0) < 0.0) && (el(lo) < 0.0 <==> el(lo0) < 0.0)
      invariant Straddles(el, lo0, hi0) ==> (el(hi) < 0.0 <==> el(hi0) < 0.0)
      invariant Bisected(el, lo, hi, 48 - i) == Refined(el, lo0, hi0)
    {
      var tm := 0.5 * (lo + hi);
      var e := el(tm);
      if (e < 0.0) == (eLo < 0.0) {
        lo, eLo := tm, e;
      } else {
        hi := tm;
      }
      i := i + 1;
    }
    if hi0 - lo0 <= STEP && i == 48 {
      SixHalvings(hi0 - lo0);
      HalvedShrinks(hi0 - lo0, 6, 48);
    }
    a, b, r := lo, hi, 0.5 * (lo + hi);
  }

  // ---- Scanning ----

  /** The sample k steps of 30 seconds after `t`. */
  function Sample(t: real, k: int): real {
    t + k as real * STEP
  }

  lemma SampleOrder(t: real, j: int, k: int)
    ensures Sample(t, j + 1) == Sample(t, j) + STEP
    ensures Sample(t, j) <= Sample(t, k) <==> j <= k
  {
  }

  /** How many steps fit before a limit; the measure of the scans. */
  function Room(t: real, end: real): int {
    ((end - t) / STEP).Floor
  }

  lemma RoomShrinks(t: real, end: real)
    ensures Room(t + STEP, end) == Room(t, end) - 1
  {
    assert (end - (t + STEP)) / STEP == (end - t) / STEP - 1.0;
  }

  lemma RoomBack(limit: real, t: real)
    ensures Room(limit, t - STEP) == Room(limit, t) - 1
  {
    assert (t - STEP - limit) / STEP == (t - limit) / STEP - 1.0;
  }

  /** How a scan of an up satellite ended: at its limit, or at a crossing bracketed to half a second. */
  datatype Ending = AtLimit | Crossing(a: real, b: real)

  /** Step forward while the satellite is up and the window lasts: n steps, up at all of them but perhaps the last. */
  method ScanForward(el: Elevation, start: real, up: real, end: real) returns (t: real, e: real, ghost n: nat)
    requires up >= 0.0
    ensures t == Sample(start, n) && (if n == 0 then e == up else e == el(t))
    ensures e < 0.0 ==> n > 0 && Sample(start, n - 1) < end
    ensures e >= 0.0 ==> t >= end
    ensures forall k :: 0 < k < n ==> el(Sample(start, k)) >= 0.0
  {
    t, e, n := start, up, 0;
    while e >= 0.0 && t < end
      invariant t == Sample(start, n) && (if n == 0 then e == up else e == el(t))
      invariant e < 0.0 ==> n > 0 && Sample(start, n - 1) < end
      invariant forall k :: 0 < k < n ==> el(Sample(start, k)) >= 0.0
      decreases if e >= 0.0 then Room(t, end) + 1 else 0
    {
      RoomShrinks(t, end);
      SampleOrder(start, n, n);
      t := t + STEP;
      e := el(t);
      n := n + 1;
    }
  }

  /** A scan that starts at `start` below the horizon, inside the window, and is down again at its first step. */
  predicate LostAtOnce(el: Elevation, start: real, end: real) {
    el(start) < 0.0 && start < end && el(start + STEP) < 0.0
  }

  /** Up at every 30-second sample from `from` to before `t`, `from` itself aside. */
  ghost predicate UpUntil(el: Elevation, from: real, t: real) {
    forall k: nat :: k > 0 && Sample(from, k) < t ==> el(Sample(from, k)) >= 0.0
  }

  /** Up at every 30-second sample back from `now` to after `t`. */
  ghost predicate UpSince(el: Elevation, t: real, now: real) {
    forall k :: k <= 0 && t < Sample(now, k) ==> el(Sample(now, k)) >= 0.0
  }

  /** Down at every 30-second sample from `now` to `t`. */
  ghost predicate DownUntil(el: Elevation, now: real, t: real) {
    forall k: nat :: Sample(now, k) <= t ==> el(Sample(now, k)) < 0.0
  }

  /** A rise in [a, b], at most half a second wide and straddling the horizon. */
  predicate Rising(el: Elevation, a: real, b: real) {
    (b - a) * DAY <= 0.5 && el(a) < 0.0 && el(b) >= 0.0
  }

  /** A set in [a, b], at most half a second wide and straddling the horizon. */
  predicate Setting(el: Elevation, a: real, b: real) {
    (b - a) * DAY <= 0.5 && el(a) >= 0.0 && el(b) < 0.0
  }

  /**
   Step forward while the satellite is up and the window lasts, then refine the crossing. The samples before
   the set are up, and the set straddles the horizon exactly when the satellite was not lost at once.
   */
  method FindSet(el: Elevation, start: real, up: real, end: real) returns (los: real, ghost how: Ending)
    requires up >= 0.0
    ensures start <= los
    ensures UpUntil(el, start, los)
    ensures how.AtLimit? ==> los >= end && (los == start || el(los) >= 0.0)
    ensures how.Crossing? ==> how.a <= los <= how.b && (how.b - how.a) * DAY <= 0.5
    ensures how.Crossing? ==> (Setting(el, how.a, how.b) <==> !LostAtOnce(el, start, end))
    ensures LostAtOnce(el, start, end) ==>
      how.Crossing? && start <= how.a && how.b <= start + STEP && el(how.a) < 0.0
  {
    ghost var n: nat;
    var t, e;
    t, e, n := ScanForward(el, start, up, end);
    SampleOrder(start, n - 1, n);
    SampleOrder(start, 0, n);
    if e < 0.0 {
      ghost var a, b;
      SampleOrder(start, 0, n - 1);
      los, a, b := RefineCross(el, t - STEP, t);
      how := Crossing(a, b);
    } else {
      los := t;
      how := AtLimit;
    }
    forall k: nat | k > 0 && Sample(start, k) < los ensures el(Sample(start, k)) >= 0.0 {
      SampleOrder(start, k, n);
    }
  }

  /** Step backward while the satellite is up, for at most 40 minutes: up at all of -n steps but perhaps the last. */
  method ScanBack(el: Elevation, now: real) returns (t: real, e: real, ghost n: int)
    requires el(now) >= 0.0
    ensures n <= 0 && t == Sample(now, n) && e == el(t)
    ensures e >= 0.0 ==> t <= now - 40.0 / 1440.0
    ensures e < 0.0 ==> n < 0
    ensures forall k :: n < k <= 0 ==> el(Sample(now, k)) >= 0.0
  {
    t, e, n := now, el(now), 0;
    var backLimit := now - 40.0 / 1440.0;
    while e >= 0.0 && t > backLimit
      invariant n <= 0 && t == Sample(now, n) && e == el(t) && (n == 0 ==> e >= 0.0)
      invariant forall k :: n < k <= 0 ==> el(Sample(now, k)) >= 0.0
      decreases if e >= 0.0 then Room(backLimit, t) + 1 else 0
    {
      RoomBack(backLimit, t);
      SampleOrder(now, n - 1, 0);
      t := t - STEP;
      e := el(t);
      n := n - 1;
    }
  }

  /** The backward scan with its crossing refined. The satellite is up at every sample after the rise. */
  method FindRise(el: Elevation, now: real) returns (aos: real, ghost how: Ending)
    requires el(now) >= 0.0
    ensures aos <= now
    ensures UpSince(el, aos, now)
    ensures how.AtLimit? ==> aos <= now - 40.0 / 1440.0 && el(aos) >= 0.0
    ensures how.Crossing? ==>
      how.a <= aos <= how.b <= now && Rising(el, how.a, how.b)
  {
    ghost var n;
    var tb, eb;
    tb, eb, n := ScanBack(el, now);
    SampleOrder(now, n, 0);
    if eb < 0.0 {
      ghost var a, b;
      SampleOrder(now, n + 1, 0);
      aos, a, b := RefineCross(el, tb, tb + STEP);
      how := Crossing(a, b);
    } else {
      aos := tb;
      how := AtLimit;
    }
    forall k | k <= 0 && aos < Sample(now, k) ensures el(Sample(now, k)) >= 0.0 {
      SampleOrder(now, k, n);
    }
  }

  datatype Found = NoPass | Pass(inPass: bool, aos: real, los: real, maxEl: real)

  /** Every 30-second sample the scan looks at is below the horizon: now, and one step after each in the window. */
  ghost predicate AllDown(el: Elevation, now: real, end: real) {
    el(now) < 0.0 && forall k: nat :: k > 0 && Sample(now, k) - STEP < end ==> el(Sample(now, k)) < 0.0
  }

  /** Sample k is the last of the window's samples, from the first on, that are all below the horizon. */
  predicate RisesAfter(el: Elevation, now: real, end: real, k: nat) {
    && Sample(now, k) < end && el(Sample(now, k + 1)) >= 0.0
    && forall j :: 0 <= j <= k ==> el(Sample(now, j)) < 0.0
  }

  /** The rise as refined in the step after sample k. */
  function RiseAt(el: Elevation, now: real, k: nat): Bracket {
    Refined(el, Sample(now, k), Sample(now, k + 1))
  }

  /** The time to which the first rise of the window is refined. */
  ghost predicate FirstRise(el: Elevation, now: real, end: real, aos: real) {
    exists k: nat :: RisesAfter(el, now, end, k) && aos == Middle(RiseAt(el, now, k))
  }

  lemma FirstRiseIsUnique(el: Elevation, now: real, end: real, t: real, t': real)
    requires FirstRise(el, now, end, t) && FirstRise(el, now, end, t')
    ensures t == t'
  {
    var j: nat :| RisesAfter(el, now, end, j) && t == Middle(RiseAt(el, now, j));
    var k: nat :| RisesAfter(el, now, end, k) && t' == Middle(RiseAt(el, now, k));
    assert j < k ==> el(Sample(now, j + 1)) < 0.0;
    assert k < j ==> el(Sample(now, k + 1)) < 0.0;
  }

  /** After a run of down samples up to n, every sample before the next one is down. */
  lemma DownBefore(el: Elevation, now: real, n: nat, t: real)
    requires t < Sample(now, n + 1) && forall k :: 0 <= k <= n ==> el(Sample(now, k)) < 0.0
    ensures DownUntil(el, now, t)
  {
    forall k: nat | Sample(now, k) <= t ensures el(Sample(now, k)) < 0.0 {
      SampleOrder(now, n + 1, k);
    }
  }

  lemma DownToTheEnd(el: Elevation, now: real, n: nat, end: real)
    requires Sample(now, n) >= end && forall k :: 0 <= k <= n ==> el(Sample(now, k)) < 0.0
    ensures AllDown(el, now, end)
  {
    assert el(Sample(now, 0)) < 0.0 && Sample(now, 0) == now;
    forall k: nat | k > 0 && Sample(now, k) - STEP < end ensures el(Sample(now, k)) < 0.0 {
      SampleOrder(now, k - 1, n);
      SampleOrder(now, n, k - 1);
    }
  }

  /** Refine the rise in the step after sample n. */
  method RefineRise(el: Elevation, now: real, end: real, t: real, ghost n: nat)
    returns (aos: real, ghost a: real, ghost b: real)
    requires RisesAfter(el, now, end, n) && t == Sample(now, n)
    ensures FirstRise(el, now, end, aos) && now <= a <= aos <= b && Rising(el, a, b)
    ensures DownUntil(el, now, aos)
  {
    SampleOrder(now, n, 0);
    aos, a, b := RefineCross(el, t, t + STEP);
    assert aos == Middle(RiseAt(el, now, n));
    DownBefore(el, now, n, aos);
  }

  /** Scan forward for the first 30-second step that ends above the horizon. */
  method FindNextRise(el: Elevation, now: real, end: real)
    returns (found: bool, aos: real, ghost a: real, ghost b: real)
    requires el(now) < 0.0
    ensures found <==> !AllDown(el, now, end)
    ensures found ==> FirstRise(el, now, end, aos) && now <= a <= aos <= b && Rising(el, a, b)
    ensures found ==> DownUntil(el, now, aos)
  {
    var t, ePrev := now, el(now);
    ghost var n: nat := 0;
    while t < end
      invariant t == Sample(now, n) && ePrev == el(t) < 0.0
      invariant forall k :: 0 <= k <= n ==> el(Sample(now, k)) < 0.0
      decreases Room(t, end) + 1
    {
      RoomShrinks(t, end);
      SampleOrder(now, n, n);
      var e := el(t + STEP);
      if ePrev < 0.0 && e >= 0.0 {
        aos, a, b := RefineRise(el, now, end, t, n);
        RiseIsNotDown(el, now, end, n);
        return true, aos, a, b;
      }
      ePrev := e;
      t := t + STEP;
      n := n + 1;
    }
    DownToTheEnd(el, now, n, end);
    found, aos, a, b := false, 0.0, 0.0, 0.0;
  }

  lemma RiseIsNotDown(el: Elevation, now: real, end: real, n: nat)
    requires RisesAfter(el, now, end, n)
    ensures !AllDown(el, now, end)
  {
    SampleOrder(now, n, n);
  }

  function PeakSample(aos: real, k: nat): real {
    aos + k as real * PEAK_STEP
  }

  lemma PeakOrder(aos: real, los: real, tt: real, n: nat, k: nat)
    ensures PeakSample(aos, n + 1) == PeakSample(aos, n) + PEAK_STEP
    ensures PeakSample(aos, k) < PeakSample(aos, n) <==> k < n
    ensures ((los - (tt + PEAK_STEP)) / PEAK_STEP).Floor == ((los - tt) / PEAK_STEP).Floor - 1
  {
    assert (los - (tt + PEAK_STEP)) / PEAK_STEP == (los - tt) / PEAK_STEP - 1.0;
  }

  /** The largest elevation at 5-second samples of the pass, but at least -90. */
  ghost predicate IsPeak(el: Elevation, aos: real, los: real, maxEl: real) {
    && -90.0 <= maxEl
    && (forall k: nat :: PeakSample(aos, k) <= los ==> el(PeakSample(aos, k)) <= maxEl)
    && (maxEl > -90.0 ==> exists k: nat :: PeakSample(aos, k) <= los && el(PeakSample(aos, k)) == maxEl)
  }

  method Peak(el: Elevation, aos: real, los: real) returns (maxEl: real)
    ensures IsPeak(el, aos, los, maxEl)
  {
    maxEl := -90.0;
    var tt := aos;
    ghost var n: nat := 0;
    while tt <= los
      invariant tt == PeakSample(aos, n) && -90.0 <= maxEl
      invariant forall k: nat :: k < n ==> el(PeakSample(aos, k)) <= maxEl
      invariant maxEl > -90.0 ==> exists k: nat :: k < n && PeakSample(aos, k) <= los && el(PeakSample(aos, k)) == maxEl
      decreases ((los - tt) / PEAK_STEP).Floor + 1
    {
      PeakOrder(aos, los, tt, n, n);
      var e := el(tt);
      if e > maxEl { maxEl := e; }
      tt := tt + PEAK_STEP;
      n := n + 1;
    }
    forall k: nat | PeakSample(aos, k) <= los ensures el(PeakSample(aos, k)) <= maxEl {
      PeakOrder(aos, los, tt, n, k);
    }
  }

  /**
   The satellite is down now, and the refined first rise is a time at which it is still down and that is
   followed, one step later, by another. The set is then sought in a step that need not straddle the horizon.
   */
  ghost predicate ShortPass(el: Elevation, now: real, end: real) {
    el(now) < 0.0 && exists t :: FirstRise(el, now, end, t) && LostAtOnce(el, t, end)
  }

  /** A bracketed rise, or the backward scan's cap. */
  ghost predicate RiseFound(el: Elevation, now: real, aos: real, rise: Ending) {
    match rise
    case AtLimit => aos <= now - 40.0 / 1440.0
    case Crossing(a, b) => a <= aos <= b && Rising(el, a, b)
  }

  /**
   A bracket of half a second for the set, or the window's end. The bracket straddles the horizon exactly when the
   pass is not a short one.
   */
  ghost predicate SetFound(el: Elevation, now: real, end: real, los: real, set_: Ending) {
    match set_
    case AtLimit => los >= end && !ShortPass(el, now, end)
    case Crossing(a, b) => a <= los <= b && (b - a) * DAY <= 0.5 && (Setting(el, a, b) <==> !ShortPass(el, now, end))
  }

  /**
   The current pass, or the first to come: rise before set, around `now` when the satellite is up; every sample
   between now and a future rise is down, every sample between rise and set is up.
   */
  ghost predicate IsPass(el: Elevation, now: real, end: real, p: Found, rise: Ending, set_: Ending) {
    && p.Pass? && p.aos <= p.los && (p.inPass <==> el(now) >= 0.0)
    && (p.inPass ==> p.aos <= now <= p.los && UpSince(el, p.aos, now) && UpUntil(el, now, p.los))
    && (!p.inPass ==> now <= p.aos && rise.Crossing? && DownUntil(el, now, p.aos) && UpUntil(el, p.aos, p.los))
    && RiseFound(el, now, p.aos, rise) && SetFound(el, now, end, p.los, set_)
    && IsPeak(el, p.aos, p.los, p.maxEl)
  }

  /** The pass the satellite is in. */
  method CurrentPass(el: Elevation, now: real, end: real) returns (p: Found, ghost rise: Ending, ghost set_: Ending)
    requires el(now) >= 0.0
    ensures IsPass(el, now, end, p, rise, set_)
  {
    var aos, los;
    aos, rise := FindRise(el, now);
    los, set_ := FindSet(el, now, el(now), end);
    var maxEl := Peak(el, aos, los);
    p := Pass(true, aos, los, maxEl);
  }

  /** The first pass to come. */
  method NextPass(el: Elevation, now: real, end: real) returns (p: Found, ghost rise: Ending, ghost set_: Ending)
    requires el(now) < 0.0
    ensures p.NoPass? <==> AllDown(el, now, end)
    ensures p.Pass? ==> IsPass(el, now, end, p, rise, set_)
  {
    var found, aos;
    ghost var a, b;
    found, aos, a, b := FindNextRise(el, now, end);
    rise, set_ := Crossing(a, b), AtLimit;
    if !found {
      return NoPass, rise, set_;
    }
    var los;
    los, set_ := FindSet(el, aos, 1.0, end);
    ShortPassIs(el, now, end, aos);
    var maxEl := Peak(el, aos, los);
    p := Pass(false, aos, los, maxEl);
  }

  lemma ShortPassIs(el: Elevation, now: real, end: real, aos: real)
    requires el(now) < 0.0 && FirstRise(el, now, end, aos)
    ensures ShortPass(el, now, end) <==> LostAtOnce(el, aos, end)
  {
    forall t | FirstRise(el, now, end, t) ensures t == aos {
      FirstRiseIsUnique(el, now, end, t, aos);
    }
  }

  /** The current or next pass; none is reported exactly when every sample of the window is below the horizon. */
  method FindPass(el: Elevation, now: real, windowMin: real)
    returns (p: Found, ghost rise: Ending, ghost set_: Ending)
    ensures p.NoPass? <==> AllDown(el, now, now + windowMin / 1440.0)
    ensures p.Pass? ==> IsPass(el, now, now + windowMin / 1440.0, p, rise, set_)
  {
    var end := now + windowMin / 1440.0;
    if el(now) >= 0.0 {
      p, rise, set_ := CurrentPass(el, now, end);
    } else {
      p, rise, set_ := NextPass(el, now, end);
    }
  }

  // ---- Short passes ----

  /** Whenever the satellite rises between two times at most half a second apart, it is up 30 s after their middle. */
  ghost predicate PassesLast(el: Elevation) {
    forall a, b :: a <= b && Rising(el, a, b) ==> el(Middle(Bracket(a, b)) + STEP) >= 0.0
  }

  lemma {:induction false} BisectedBrackets(el: Elevation, lo: real, hi: real, left: nat, k: nat)
    requires lo <= hi && el(lo) < 0.0 && el(hi) >= 0.0
    requires hi - lo <= Halved(STEP, k) && left + k >= 6
    ensures var r := Bisected(el, lo, hi, left);
      lo <= r.lo <= r.hi <= hi && Rising(el, r.lo, r.hi)
    decreases left
  {
    if left == 0 {
      SixHalvings(STEP);
      HalvedShrinks(STEP, 6, k);
    } else if (hi - lo) * DAY > 0.5 {
      var tm := 0.5 * (lo + hi);
      if el(tm) < 0.0 {
        BisectedBrackets(el, tm, hi, left - 1, k + 1);
      } else {
        BisectedBrackets(el, lo, tm, left - 1, k + 1);
      }
    }
  }

  /** The refined rise of a step that rises straddles the horizon, within half a second. */
  lemma RiseIsRising(el: Elevation, now: real, end: real, k: nat)
    requires RisesAfter(el, now, end, k)
    ensures var r := RiseAt(el, now, k); r.lo <= r.hi && Rising(el, r.lo, r.hi)
  {
    SampleOrder(now, k, k);
    BisectedBrackets(el, Sample(now, k), Sample(now, k + 1), 48, 0);
  }

  lemma FirstRiseLasts(el: Elevation, now: real, end: real, t: real)
    requires PassesLast(el) && FirstRise(el, now, end, t)
    ensures el(t + STEP) >= 0.0
  {
    var k: nat :| RisesAfter(el, now, end, k) && t == Middle(RiseAt(el, now, k));
    RiseIsRising(el, now, end, k);
    var r := RiseAt(el, now, k);
    assert Middle(Bracket(r.lo, r.hi)) == t;
  }

  /** Passes of more than half a minute are never short ones, whatever the time and the window. */
  lemma LongPassesAreNotShort(el: Elevation, now: real, end: real)
    requires PassesLast(el)
    ensures !ShortPass(el, now, end)
  {
    forall t | FirstRise(el, now, end, t) ensures el(t + STEP) >= 0.0 {
      FirstRiseLasts(el, now, end, t);
    }
  }

  /** A satellite that is up for 0.4 s, from 29.8 s after `now` on. */
  function Blip(now: real): Elevation {
    t => if 29.8 <= (t - now) * DAY <= 30.2 then 1.0 else -1.0
  }

  lemma BlipHalving(now: real, lo: real, hi: real, left: nat)
    requires 0.5 < hi - lo && left > 0 && hi + lo < 59.6
    ensures Bisected(Blip(now), now + lo / DAY, now + hi / DAY, left) ==
      Bisected(Blip(now), now + (lo + hi) / 2.0 / DAY, now + hi / DAY, left - 1)
  {
    var a, b := now + lo / DAY, now + hi / DAY;
    assert 0.5 * (a + b) == now + (lo + hi) / 2.0 / DAY;
  }

  lemma BlipRefined(now: real, left: nat)
    requires left >= 6
    ensures Bisected(Blip(now), now, now + 30.0 / DAY, left) == Bracket(now + 29.53125 / DAY, now + 30.0 / DAY)
  {
    BlipHalving(now, 0.0, 30.0, left);
    BlipHalving(now, 15.0, 30.0, left - 1);
    BlipHalving(now, 22.5, 30.0, left - 2);
    BlipHalving(now, 26.25, 30.0, left - 3);
    BlipHalving(now, 28.125, 30.0, left - 4);
    BlipHalving(now, 29.0625, 30.0, left - 5);
  }

  /** The rise of the blip is refined to a time before it; every window of a minute or more has the short pass. */
  lemma BlipIsShort(now: real, end: real)
    requires end >= now + 1.0 / 1440.0
    ensures ShortPass(Blip(now), now, end)
  {
    var el, r := Blip(now), RiseAt(Blip(now), now, 0);
    assert RisesAfter(el, now, end, 0);
    assert r == Bracket(now + 29.53125 / DAY, now + 30.0 / DAY) by { BlipRefined(now, 48); }
    assert FirstRise(el, now, end, Middle(r)) && LostAtOnce(el, Middle(r), end);
  }
}
