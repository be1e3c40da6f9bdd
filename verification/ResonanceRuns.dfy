/**
 Sequences of calls to the resonance integrator: when is stepping incrementally from the stored point
 the same as integrating afresh from the epoch?
 */
module ResonanceRuns {
  import opened Basics
  import opened Resonance

  lemma {:induction false} WalkTime(m: Rates, o: Orbit, p: Point, up: bool, k: nat)
    ensures Walk(m, o, p, up, k).atime == p.atime + Over(k as real, up)
    decreases k
  {
    if k > 0 {
      WalkTime(m, o, Step(m, o, p, up), up, k - 1);
    }
  }

  lemma {:induction false} WalkOn(m: Rates, o: Orbit, p: Point, up: bool, j: nat, k: nat)
    ensures Walk(m, o, Walk(m, o, p, up, j), up, k) == Walk(m, o, p, up, j + k)
    decreases j
  {
    if j > 0 {
      WalkOn(m, o, Step(m, o, p, up), up, j - 1, k);
    }
  }

  /** The last grid point at or before `t` on its side of the epoch. */
  function GridTime(t: real): real {
    Over(Steps(t) as real, Outward(t))
  }

  lemma GridTimeOnGrid(t: real)
    ensures OnGrid(GridTime(t)) && Steps(GridTime(t)) == Steps(t) && SameSide(GridTime(t), t)
  {
    StepsOnGrid(Steps(t), GridTime(t));
  }

  /** A call leaves the stored time at the grid point of its argument, whatever was stored before. */
  lemma AdvanceTime(m: Rates, o: Orbit, p: Point, t: real)
    requires OnGrid(p.atime)
    ensures Advance(m, o, p, t).atime == GridTime(t)
  {
    var here, there := Steps(p.atime), Steps(t);
    WalkTime(m, o, Epoch(o), Outward(t), there);
    if !Restarts(p.atime, t) {
      if here <= there {
        WalkTime(m, o, p, Outward(t), there - here);
      } else {
        WalkTime(m, o, p, !Outward(t), here - there);
      }
    }
  }

  /** The stored point after a run of calls that began right after initialisation. */
  function Run(m: Rates, o: Orbit, ts: seq<real>): Point {
    if ts == [] then Epoch(o) else Advance(m, o, Run(m, o, ts[..|ts| - 1]), ts[|ts| - 1])
  }

  /** The stored time after a run: a function of the last argument alone. */
  function Stored(ts: seq<real>): real {
    if ts == [] then 0.0 else GridTime(ts[|ts| - 1])
  }

  /** How many steps back the run has made since it last (re)started at the epoch. */
  function StepsBack(ts: seq<real>): nat {
    if ts == [] then 0 else
      var before, t := ts[..|ts| - 1], ts[|ts| - 1];
      var here, there := Steps(Stored(before)), Steps(t);
      if Restarts(Stored(before), t) || there == 0 then 0
      else if here <= there then StepsBack(before)
      else StepsBack(before) + here - there
  }

  lemma RunTime(m: Rates, o: Orbit, ts: seq<real>)
    ensures Run(m, o, ts).atime == Stored(ts) && OnGrid(Stored(ts))
  {
    if ts == [] {
      StepsOnGrid(0, 0.0);
    } else {
      RunTime(m, o, ts[..|ts| - 1]);
      AdvanceTime(m, o, Run(m, o, ts[..|ts| - 1]), ts[|ts| - 1]);
      GridTimeOnGrid(ts[|ts| - 1]);
    }
  }

  /** A run that has not stepped back holds exactly what plain integration from epoch gives. */
  lemma {:induction false} NoStepBack(m: Rates, o: Orbit, ts: seq<real>)
    requires StepsBack(ts) == 0
    ensures Run(m, o, ts) == Walk(m, o, Epoch(o), Outward(Stored(ts)), Steps(Stored(ts)))
    ensures ts != [] ==> Run(m, o, ts) == FromEpoch(m, o, ts[|ts| - 1])
  {
    if ts == [] {
      StepsOnGrid(0, 0.0);
    } else {
      var before, t := ts[..|ts| - 1], ts[|ts| - 1];
      RunTime(m, o, before);
      GridTimeOnGrid(t);
      if !Restarts(Stored(before), t) && Steps(t) != 0 {
        NoStepBack(m, o, before);
        WalkOn(m, o, Epoch(o), Outward(t), Steps(Stored(before)), Steps(t) - Steps(Stored(before)));
      }
    }
  }

  // ---- What a step computes ----

  /** The rate of the mean longitude. */
  function Xldot(o: Orbit, p: Point): real {
    p.xni + o.xfact
  }

  /** The second-order expansion of longitude and mean motion over a time h. */
  function Taylor(p: Point, xldot: real, xndot: real, xnddt: real, h: real): Point {
    Point(p.xli + xldot * h + xndot * (h * h / 2.0), p.xni + xndot * h + xnddt * (h * h / 2.0), p.atime + h)
  }

  /** A step is the second-order Taylor expansion over its signed length. */
  lemma StepIsTaylor(m: Rates, o: Orbit, p: Point, up: bool, h: real)
    requires h == Delta(up)
    ensures var d, v := DotsAt(m, o, p), Xldot(o, p); Step(m, o, p, up) == Taylor(p, v, d.xndot, d.curvature * v, h)
  {
    var d, v := DotsAt(m, o, p), Xldot(o, p);
    SignedStep(v, h);
    SignedStep(d.xndot, h);
    assert h * h / 2.0 == STEP2;
  }

  /** The dot terms are the same everywhere: an acceleration c and no second-order part. */
  ghost predicate Uniform(m: Rates, o: Orbit, c: real) {
    forall p {:trigger DotsAt(m, o, p)} :: DotsAt(m, o, p) == Dots(c, 0.0)
  }

  /** Where uniform acceleration takes a longitude and its rate in time t. */
  function Longitude(x: real, v: real, c: real, t: real): real {
    x + v * t + c * (t * t / 2.0)
  }

  function Rate(v: real, c: real, t: real): real {
    v + c * t
  }

  /** Moving for s and then for t is moving for s + t. */
  lemma MotionsCompose(x: real, v: real, c: real, s: real, t: real)
    ensures Rate(Rate(v, c, s), c, t) == Rate(v, c, s + t)
    ensures Longitude(Longitude(x, v, c, s), Rate(v, c, s), c, t) == Longitude(x, v, c, s + t)
  {
    assert c * (s + t) == c * s + c * t;
    assert v * (s + t) == v * s + v * t;
    assert (s + t) * (s + t) == s * s + 2.0 * (s * t) + t * t;
    assert c * ((s + t) * (s + t) / 2.0) == c * (s * s / 2.0) + c * (s * t) + c * (t * t / 2.0);
    assert (c * s) * t == c * (s * t);
    assert (v + c * s) * t == v * t + (c * s) * t;
  }

  lemma NoSecondOrder(p: Point, v: real, c: real, b: real, h: real)
    requires b == 0.0
    ensures Taylor(p, v, c, b, h).xli == Longitude(p.xli, v, c, h) && Taylor(p, v, c, b, h).xni == Rate(p.xni, c, h)
  {
    assert 0.0 * (h * h / 2.0) == 0.0;
  }

  lemma StepIsExact(m: Rates, o: Orbit, c: real, p: Point, up: bool, h: real)
    requires Uniform(m, o, c) && h == Delta(up)
    ensures var r := Step(m, o, p, up);
      r.xli == Longitude(p.xli, Xldot(o, p), c, h) && Xldot(o, r) == Rate(Xldot(o, p), c, h)
  {
    var d, v := DotsAt(m, o, p), Xldot(o, p);
    StepIsTaylor(m, o, p, up, h);
    NoSecondOrder(p, v, d.xndot, d.curvature * v, h);
  }

  /** Under uniform acceleration a walk is exact, however many steps it makes and in which direction. */
  lemma {:induction false} WalkIsExact(m: Rates, o: Orbit, c: real, p: Point, up: bool, k: nat)
    requires Uniform(m, o, c)
    ensures var q, t := Walk(m, o, p, up, k), Over(k as real, up);
      && q.xli == Longitude(p.xli, Xldot(o, p), c, t) && Xldot(o, q) == Rate(Xldot(o, p), c, t)
      && q.atime == p.atime + t
    decreases k
  {
    var t := Over(k as real, up);
    WalkTime(m, o, p, up, k);
    if k > 0 {
      var h, r, s := Delta(up), Step(m, o, p, up), Over((k - 1) as real, up);
      WalkIsExact(m, o, c, r, up, k - 1);
      StepIsExact(m, o, c, p, up, h);
      assert h + s == t;
      MotionsCompose(p.xli, Xldot(o, p), c, h, s);
    }
  }

  /** Under uniform acceleration every run, with steps back or not, holds the exact point of its last grid time. */
  lemma {:induction false} RunIsExact(m: Rates, o: Orbit, c: real, ts: seq<real>)
    requires Uniform(m, o, c)
    ensures var q, t := Run(m, o, ts), Stored(ts);
      && q.xli == Longitude(o.xlamo, o.xnq + o.xfact, c, t) && Xldot(o, q) == Rate(o.xnq + o.xfact, c, t)
      && q.atime == t
  {
    RunTime(m, o, ts);
    if ts != [] {
      var before, t := ts[..|ts| - 1], ts[|ts| - 1];
      RunIsExact(m, o, c, before);
      RunTime(m, o, before);
      AdvanceIsExact(m, o, c, Run(m, o, before), t);
    }
  }

  ghost predicate Exact(o: Orbit, c: real, q: Point) {
    && q.xli == Longitude(o.xlamo, o.xnq + o.xfact, c, q.atime)
    && Xldot(o, q) == Rate(o.xnq + o.xfact, c, q.atime)
  }

  lemma AdvanceIsExact(m: Rates, o: Orbit, c: real, p: Point, t: real)
    requires Uniform(m, o, c) && Exact(o, c, p)
    ensures Exact(o, c, Advance(m, o, p, t))
  {
    var here, there := Steps(p.atime), Steps(t);
    WalkIsExact(m, o, c, Epoch(o), Outward(t), there);
    if !Restarts(p.atime, t) {
      var up := if here <= there then Outward(t) else !Outward(t);
      var k := if here <= there then there - here else here - there;
      WalkIsExact(m, o, c, p, up, k);
      MotionsCompose(o.xlamo, o.xnq + o.xfact, c, p.atime, Over(k as real, up));
    }
  }

  // ---- Orbits on which a step back shows ----

  /** `x` doubled k times. */
  function Doubled(x: real, k: nat): real {
    if k == 0 then x else 2.0 * Doubled(x, k - 1)
  }

  lemma {:induction false} DoubledOn(x: real, j: nat, k: nat)
    ensures Doubled(Doubled(x, j), k) == Doubled(x, j + k)
    decreases k
  {
    if k > 0 {
      DoubledOn(x, j, k - 1);
    }
  }

  lemma {:induction false} DoubledMoves(x: real, k: nat)
    requires x != 0.0
    ensures x > 0.0 ==> Doubled(x, k) >= x
    ensures x < 0.0 ==> Doubled(x, k) <= x
    ensures k > 0 ==> Doubled(x, k) != x
  {
    if k > 0 {
      DoubledMoves(x, k - 1);
    }
  }

  /** From the epoch on, every step, out or back, doubles the rate of the mean longitude; `good` has the points met. */
  ghost predicate Doubles(m: Rates, o: Orbit, good: iset<Point>) {
    && Epoch(o) in good
    && forall p: Point, up: bool {:trigger Step(m, o, p, up)} :: p in good ==>
         Step(m, o, p, up) in good && Xldot(o, Step(m, o, p, up)) == 2.0 * Xldot(o, p)
  }

  lemma {:induction false} WalkDoubles(m: Rates, o: Orbit, good: iset<Point>, p: Point, up: bool, k: nat)
    requires Doubles(m, o, good) && p in good
    ensures Walk(m, o, p, up, k) in good && Xldot(o, Walk(m, o, p, up, k)) == Doubled(Xldot(o, p), k)
    decreases k
  {
    if k > 0 {
      WalkDoubles(m, o, good, Step(m, o, p, up), up, k - 1);
      DoubledOn(Xldot(o, p), 1, k - 1);
    }
  }

  /** All steps of a run since it last (re)started at the epoch, out and back. */
  function StepsMade(ts: seq<real>): nat {
    Steps(Stored(ts)) + 2 * StepsBack(ts)
  }

  lemma AdvanceDoubles(m: Rates, o: Orbit, good: iset<Point>, p: Point, t: real)
    requires Doubles(m, o, good) && p in good && OnGrid(p.atime)
    ensures Advance(m, o, p, t) in good
    ensures var here, there := Steps(p.atime), Steps(t);
      Xldot(o, Advance(m, o, p, t))
      == if Restarts(p.atime, t) || there == 0 then Doubled(Xldot(o, Epoch(o)), there)
         else Doubled(Xldot(o, p), if here <= there then there - here else here - there)
  {
    var here, there := Steps(p.atime), Steps(t);
    WalkDoubles(m, o, good, Epoch(o), Outward(t), there);
    if here <= there {
      WalkDoubles(m, o, good, p, Outward(t), there - here);
    } else {
      WalkDoubles(m, o, good, p, !Outward(t), here - there);
    }
  }

  lemma {:induction false} RunDoubles(m: Rates, o: Orbit, good: iset<Point>, ts: seq<real>)
    requires Doubles(m, o, good)
    ensures Run(m, o, ts) in good
    ensures Xldot(o, Run(m, o, ts)) == Doubled(Xldot(o, Epoch(o)), StepsMade(ts))
  {
    if ts == [] {
      StepsOnGrid(0, 0.0);
    } else {
      var before, t := ts[..|ts| - 1], ts[|ts| - 1];
      var here, there := Steps(Stored(before)), Steps(t);
      RunDoubles(m, o, good, before);
      RunTime(m, o, before);
      GridTimeOnGrid(t);
      AdvanceDoubles(m, o, good, Run(m, o, before), t);
      DoubledOn(Xldot(o, Epoch(o)), StepsMade(before), if here <= there then there - here else here - there);
    }
  }

  /**
   On doubling rates a run ends at the right time, but with the rate of the mean longitude doubled twice too often
   for every step back: once by that step and once by the outward step it should have undone.
   */
  lemma StepsBackShow(m: Rates, o: Orbit, good: iset<Point>, ts: seq<real>)
    requires Doubles(m, o, good) && ts != []
    ensures var p, q := Run(m, o, ts), FromEpoch(m, o, ts[|ts| - 1]);
      && p in good && q in good && p.atime == q.atime
      && Xldot(o, p) == Doubled(Xldot(o, q), 2 * StepsBack(ts))
  {
    var t := ts[|ts| - 1];
    RunDoubles(m, o, good, ts);
    RunTime(m, o, ts);
    GridTimeOnGrid(t);
    WalkDoubles(m, o, good, Epoch(o), Outward(t), Steps(t));
    WalkTime(m, o, Epoch(o), Outward(t), Steps(t));
    DoubledOn(Xldot(o, Epoch(o)), Steps(t), 2 * StepsBack(ts));
  }

  lemma StepsBackDiffer(m: Rates, o: Orbit, good: iset<Point>, ts: seq<real>)
    requires Doubles(m, o, good) && Xldot(o, Epoch(o)) != 0.0 && ts != [] && StepsBack(ts) > 0
    ensures Run(m, o, ts).xni != FromEpoch(m, o, ts[|ts| - 1]).xni
  {
    StepsBackShow(m, o, good, ts);
    var t := ts[|ts| - 1];
    WalkDoubles(m, o, good, Epoch(o), Outward(t), Steps(t));
    DoubledMoves(Xldot(o, Epoch(o)), Steps(t));
    DoubledMoves(Xldot(o, FromEpoch(m, o, t)), 2 * StepsBack(ts));
  }

  // ---- Sine and cosine ----

  predicate OnCircle(sin: real -> real, cos: real -> real, x: real) {
    sin(x) * sin(x) + cos(x) * cos(x) == 1.0
  }

  predicate Adds(sin: real -> real, cos: real -> real, x: real, y: real) {
    && sin(x + y) == sin(x) * cos(y) + cos(x) * sin(y)
    && cos(x + y) == cos(x) * cos(y) - sin(x) * sin(y)
  }

  /** The circle and the addition theorems. */
  ghost predicate ObeysLaws(sin: real -> real, cos: real -> real) {
    (forall x :: OnCircle(sin, cos, x)) && forall x, y :: Adds(sin, cos, x, y)
  }

  /** A number of full turns, possibly none. */
  predicate FullTurn(sin: real -> real, cos: real -> real, x: real) {
    sin(x) == 0.0 && cos(x) == 1.0
  }

  /** A sine and its cosine: they obey the laws and come back after some turn. */
  ghost predicate Trigonometric(sin: real -> real, cos: real -> real) {
    ObeysLaws(sin, cos) && exists turn :: turn != 0.0 && FullTurn(sin, cos, turn)
  }

  lemma ZeroIsFullTurn(sin: real -> real, cos: real -> real)
    requires ObeysLaws(sin, cos)
    ensures FullTurn(sin, cos, 0.0)
  {
    assert OnCircle(sin, cos, 0.0) && Adds(sin, cos, 0.0, 0.0);
    var s, c := sin(0.0), cos(0.0);
    assert 0.0 + 0.0 == 0.0;
    assert s == s * c + c * s && c == c * c - s * s && s * s + c * c == 1.0;
    OnlyUnit(s, c);
  }

  lemma OnlyUnit(s: real, c: real)
    requires s == s * c + c * s && c == c * c - s * s && s * s + c * c == 1.0
    ensures s == 0.0 && c == 1.0
  {
    assert s * (1.0 - 2.0 * c) == 0.0;
    assert s == 0.0 || c == 0.5;
    assert c == 0.5 ==> c * c == 0.25 && s * s == 0.75;
  }

  lemma TurnsAdd(sin: real -> real, cos: real -> real, x: real, y: real)
    requires ObeysLaws(sin, cos) && FullTurn(sin, cos, x) && FullTurn(sin, cos, y)
    ensures FullTurn(sin, cos, x + y) && FullTurn(sin, cos, x - y)
  {
    assert Adds(sin, cos, x, y);
    ZeroIsFullTurn(sin, cos);
    assert Adds(sin, cos, y, -y) && y + -y == 0.0;
    assert sin(-y) == 0.0 && cos(-y) == 1.0;
    assert Adds(sin, cos, x, -y) && x + -y == x - y;
  }

  // ---- An orbit of the code's own sums that doubles ----

  /** One nonzero coefficient, in either resonance, with the mean longitude at the phase of its term. */
  predicate OneTerm(o: Orbit) {
    || (o.terms == OneDay(SyncTerms(1.0 / STEP2, 0.0, 0.0)) && o.xlamo == 0.13130908)
    || (&& o.terms == HalfDay(HalfDayTerms(1.0 / STEP2, 0.0, 0.0, 0.0, 0.0, 0.0, 0.0, 0.0, 0.0, 0.0))
        && o.xlamo == 5.7686396 && o.omegaq == 0.0 && o.omgdot == 0.0)
  }

  /** Points a number of full turns from the epoch, whose next step is a number of full turns. */
  ghost function WholeTurns(sin: real -> real, cos: real -> real, o: Orbit): iset<Point> {
    iset p: Point | FullTurn(sin, cos, p.xli - o.xlamo) && FullTurn(sin, cos, STEP * Xldot(o, p))
  }

  lemma SyncAtPhase(sin: real -> real, cos: real -> real, xli: real)
    requires FullTurn(sin, cos, xli - 0.13130908)
    ensures SyncDots(sin, cos, SyncTerms(1.0 / STEP2, 0.0, 0.0), xli) == Dots(0.0, 1.0 / STEP2)
  {
    var a, b, d := xli - 0.13130908, 2.0 * (xli - 2.8843198), 3.0 * (xli - 0.37448087);
    assert 1.0 / STEP2 * sin(a) == 0.0 && 0.0 * sin(b) == 0.0 && 0.0 * sin(d) == 0.0;
    assert 1.0 / STEP2 * cos(a) == 1.0 / STEP2 && 2.0 * 0.0 * cos(b) == 0.0 && 3.0 * 0.0 * cos(d) == 0.0;
  }

  lemma HalfDayAtPhase(f: real -> real, xli: real, phase: real)
    requires phase == xli - 5.7686396
    ensures var c := HalfDayTerms(1.0 / STEP2, 0.0, 0.0, 0.0, 0.0, 0.0, 0.0, 0.0, 0.0, 0.0);
      HalfDaySum(f, c, 0.0, xli) == 1.0 / STEP2 * f(phase) && HalfDayDoubleSum(f, c, 0.0, xli) == 0.0
  {
    assert 0.0 + 0.0 + xli - 5.7686396 == phase;
  }

  /** There the sine of the term is zero and its cosine one. */
  lemma OneTermDots(sin: real -> real, cos: real -> real, o: Orbit, p: Point)
    requires OneTerm(o) && FullTurn(sin, cos, p.xli - o.xlamo)
    ensures DotsAt(TrigRates(sin, cos), o, p) == Dots(0.0, 1.0 / STEP2)
  {
    if o.terms.OneDay? {
      SyncAtPhase(sin, cos, p.xli);
    } else {
      assert o.omegaq + o.omgdot * p.atime == 0.0;
      HalfDayAtPhase(sin, p.xli, p.xli - o.xlamo);
      HalfDayAtPhase(cos, p.xli, p.xli - o.xlamo);
    }
  }

  lemma StepFrom(m: Rates, o: Orbit, p: Point, up: bool)
    requires DotsAt(m, o, p) == Dots(0.0, 1.0 / STEP2)
    ensures Xldot(o, Step(m, o, p, up)) == 2.0 * Xldot(o, p)
    ensures Step(m, o, p, up).xli == p.xli + Over(Xldot(o, p), up)
  {
    assert 1.0 / STEP2 * Xldot(o, p) * STEP2 == Xldot(o, p);
  }

  /** With one nonzero coefficient and a first step of a full turn, the code's sums double the rate at every step. */
  lemma OneTermDoubles(sin: real -> real, cos: real -> real, o: Orbit)
    requires ObeysLaws(sin, cos) && OneTerm(o) && FullTurn(sin, cos, STEP * Xldot(o, Epoch(o)))
    ensures Doubles(TrigRates(sin, cos), o, WholeTurns(sin, cos, o))
  {
    var m, good := TrigRates(sin, cos), WholeTurns(sin, cos, o);
    ZeroIsFullTurn(sin, cos);
    assert Epoch(o).xli - o.xlamo == 0.0;
    forall p: Point, up: bool | p in good
      ensures Step(m, o, p, up) in good && Xldot(o, Step(m, o, p, up)) == 2.0 * Xldot(o, p)
    {
      OneTermSteps(sin, cos, o, p, up);
    }
  }

  lemma OneTermSteps(sin: real -> real, cos: real -> real, o: Orbit, p: Point, up: bool)
    requires ObeysLaws(sin, cos) && OneTerm(o) && p in WholeTurns(sin, cos, o)
    ensures var q := Step(TrigRates(sin, cos), o, p, up);
      q in WholeTurns(sin, cos, o) && Xldot(o, q) == 2.0 * Xldot(o, p)
  {
    var m, v := TrigRates(sin, cos), Xldot(o, p);
    OneTermDots(sin, cos, o, p);
    StepFrom(m, o, p, up);
    var q := Step(m, o, p, up);
    TurnsAdd(sin, cos, p.xli - o.xlamo, STEP * v);
    TurnsAdd(sin, cos, STEP * v, STEP * v);
    assert q.xli - o.xlamo == if up then p.xli - o.xlamo + STEP * v else p.xli - o.xlamo - STEP * v;
    assert STEP * Xldot(o, q) == STEP * v + STEP * v;
  }

  /** The stored point agrees with plain integration from epoch. */
  ghost predicate AgreesWithEpoch(m: Rates, o: Orbit, ts: seq<real>)
    requires ts != []
  {
    Run(m, o, ts) == FromEpoch(m, o, ts[|ts| - 1])
  }

  /** The stored point agrees for every orbit, under the code's sums over a given sine and cosine. */
  ghost predicate AlwaysAgrees(sin: real -> real, cos: real -> real, ts: seq<real>)
    requires ts != []
  {
    forall o: Orbit :: AgreesWithEpoch(TrigRates(sin, cos), o, ts)
  }

  /** A run that stepped back differs from integration from epoch on some orbit, whatever the sine and cosine. */
  lemma SomeOrbitDiffers(sin: real -> real, cos: real -> real, ts: seq<real>)
    requires Trigonometric(sin, cos) && ts != [] && StepsBack(ts) > 0
    ensures exists o :: !AgreesWithEpoch(TrigRates(sin, cos), o, ts)
  {
    var turn :| turn != 0.0 && FullTurn(sin, cos, turn);
    var o := Orbit(0.13130908, turn / STEP, 0.0, OneDay(SyncTerms(1.0 / STEP2, 0.0, 0.0)), 0.0, 0.0);
    assert STEP * Xldot(o, Epoch(o)) == turn;
    OneTermDoubles(sin, cos, o);
    StepsBackDiffer(TrigRates(sin, cos), o, WholeTurns(sin, cos, o), ts);
    assert !AgreesWithEpoch(TrigRates(sin, cos), o, ts);
  }

  /**
   The incremental integrator agrees with integration from scratch on every orbit exactly when the
   run has made no step back since it last passed the epoch. Both halves hold for the code's own sums over
   every sine and cosine; without a step back the points agree for any dot terms whatever.
   */
  lemma IncrementalAgreesIffNoStepBack(sin: real -> real, cos: real -> real, ts: seq<real>)
    requires Trigonometric(sin, cos) && ts != []
    ensures AlwaysAgrees(sin, cos, ts) <==> StepsBack(ts) == 0
    ensures (forall m: Rates, o: Orbit :: AgreesWithEpoch(m, o, ts)) <==> StepsBack(ts) == 0
  {
    if StepsBack(ts) == 0 {
      forall m: Rates, o: Orbit ensures AgreesWithEpoch(m, o, ts) {
        NoStepBack(m, o, ts);
      }
    } else {
      SomeOrbitDiffers(sin, cos, ts);
    }
  }

  /** Going out two steps and asking for one is a step back, and it shows. */
  lemma StepBackHappens(sin: real -> real, cos: real -> real)
    requires Trigonometric(sin, cos)
    ensures StepsBack([1440.0, 720.0]) == 1
    ensures exists o :: !AgreesWithEpoch(TrigRates(sin, cos), o, [1440.0, 720.0])
  {
    StepsOnGrid(2, 1440.0);
    StepsOnGrid(1, 720.0);
    var ts := [1440.0, 720.0];
    assert ts[..1] == [1440.0] && [1440.0][..0] == [];
    assert GridTime(1440.0) == 1440.0;
    assert StepsBack([1440.0]) == 0;
    SomeOrbitDiffers(sin, cos, ts);
  }

  /** Times on one side of the epoch, moving away from it. */
  ghost predicate MovesOutward(ts: seq<real>) {
    forall i, j :: 0 <= i < j < |ts| ==> (ts[i] >= 0.0 <==> ts[j] >= 0.0) && Abs(ts[i]) <= Abs(ts[j])
  }

  lemma StepsMonotone(a: real, b: real)
    requires Abs(a) <= Abs(b)
    ensures Steps(a) <= Steps(b)
  {
  }

  /** Stepping ever further from the epoch, on one side of it, is always the same as starting afresh. */
  lemma {:induction false} OutwardRunsAreFromEpoch(m: Rates, o: Orbit, ts: seq<real>)
    requires ts != [] && MovesOutward(ts)
    ensures StepsBack(ts) == 0
    ensures Run(m, o, ts) == FromEpoch(m, o, ts[|ts| - 1])
  {
    var before, t := ts[..|ts| - 1], ts[|ts| - 1];
    if before != [] {
      OutwardRunsAreFromEpoch(m, o, before);
      var u := before[|before| - 1];
      assert u == ts[|ts| - 2];
      GridTimeOnGrid(u);
      StepsMonotone(u, t);
    }
    NoStepBack(m, o, ts);
  }
}
