/**
 What the resonant branch of the deep-space propagator means: the interpolation continues the integrator's
 steps, and without resonance terms it gives the plain secular mean anomaly back.
 */
module SecularDrift {
  import opened Basics
  import opened Resonance
  import opened ResonanceRuns
  import opened Ephemeris

  /** The point interpolated over a reach. */
  function Reached(p: Point, r: Reach): Point {
    Taylor(p, r.xldot, r.dots.xndot, r.xnddt, r.ft)
  }

  lemma HalfSquare(a: real, x: real)
    ensures a * x * x * 0.5 == a * (x * x / 2.0)
  {
  }

  /** The mean anomaly is the longitude less node and, in the one-day band, perigee, turned by the Earth's angle. */
  lemma ResonateIs(o: Orbit, p: Point, r: Reach, thgr: real, t: real, w: Work)
    ensures var v := Resonate(o, p, r, thgr, t, w);
      var earth := Rate(thgr, THDT, t);
      && v.xn == Reached(p, r).xni
      && (o.terms.OneDay? ==> v.xll + w.omgadf + w.xnode - earth == Reached(p, r).xli)
      && (o.terms.HalfDay? ==> v.xll + 2.0 * w.xnode - 2.0 * earth == Reached(p, r).xli)
      && v == w.(xn := v.xn, xll := v.xll)
  {
    HalfSquare(r.dots.xndot, r.ft);
    HalfSquare(r.xnddt, r.ft);
  }

  /** Interpolating over a whole step from one grid point is starting at the next: nothing jumps at a grid time. */
  lemma GridPointsJoin(f: Formulas, tle: Tle, p: Point, up: bool, t: real, w: Work)
    requires t == p.atime + Delta(up)
    ensures ResonateAt(f, tle, p, t, w) == ResonateAt(f, tle, Step(f.rates, OrbitOf(f, tle), p, up), t, w)
  {
    var o := OrbitOf(f, tle);
    var q := Step(f.rates, o, p, up);
    var r, r' := ReachAt(f.rates, o, p, t), ReachAt(f.rates, o, q, t);
    var thgr := f.sidereal(Ds50(tle.epoch));
    ResonateIs(o, p, r, thgr, t, w);
    ResonateIs(o, q, r', thgr, t, w);
    StepMeets(f.rates, o, p, up, t);
  }

  lemma StepMeets(m: Rates, o: Orbit, p: Point, up: bool, t: real)
    requires t == p.atime + Delta(up)
    ensures var q := Step(m, o, p, up);
      Reached(p, ReachAt(m, o, p, t)) == q && Reached(q, ReachAt(m, o, q, t)) == q
  {
    var q := Step(m, o, p, up);
    var r := ReachAt(m, o, p, t);
    StepIsTaylor(m, o, p, up, Delta(up));
    assert r.ft == Delta(up);
    NoReach(q, ReachAt(m, o, q, t));
  }

  lemma NoReach(q: Point, r: Reach)
    requires r.ft == 0.0
    ensures Reached(q, r) == q
  {
    NoTime(q, r.xldot, r.dots.xndot, r.xnddt);
  }

  lemma NoTime(q: Point, v: real, a: real, b: real)
    ensures Taylor(q, v, a, b, 0.0) == q
  {
    assert v * 0.0 == 0.0 && a * 0.0 == 0.0 && b * 0.0 == 0.0 && 0.0 * 0.0 / 2.0 == 0.0;
  }

  /** Under uniform acceleration the interpolation from any exact point is exact at every time. */
  lemma ReachIsExact(m: Rates, o: Orbit, c: real, p: Point, t: real)
    requires Uniform(m, o, c) && Exact(o, c, p)
    ensures var r := ReachAt(m, o, p, t);
      && Reached(p, r).xli == Longitude(o.xlamo, o.xnq + o.xfact, c, t)
      && Reached(p, r).xni == Rate(o.xnq, c, t)
  {
    var r := ReachAt(m, o, p, t);
    var v := o.xnq + o.xfact;
    assert r.dots == Dots(c, 0.0) && r.xnddt == 0.0 * r.xldot == 0.0;
    assert r.xnddt * (r.ft * r.ft / 2.0) == 0.0;
    MotionsCompose(o.xlamo, v, c, p.atime, r.ft);
    assert p.atime + r.ft == t;
    assert Reached(p, r).xli == Longitude(p.xli, Xldot(o, p), c, r.ft);
    assert p.xni + c * r.ft + o.xfact == Rate(Xldot(o, p), c, r.ft) == Rate(v, c, t);
  }

  /** Node and perigee drift with their own rates and those of sun and moon. */
  ghost predicate Drifted(f: Formulas, tle: Tle, t: real, w: Work) {
    var deep, s := f.deep(tle), SecularOf(f, tle);
    w.xnode == Rate(tle.xnodeo, deep.xnodot + s.ssh, t) && w.omgadf == Rate(tle.omegao, deep.omgdot + s.ssg, t)
  }

  /** The rate of the resonant longitude is that of the angles it is made of, less the Earth's. */
  lemma OrbitRate(f: Formulas, tle: Tle)
    ensures var o, deep, s := OrbitOf(f, tle), f.deep(tle), SecularOf(f, tle);
      var thgr := f.sidereal(Ds50(tle.epoch));
      && o.xnq == deep.xnodp
      && (o.terms.OneDay? ==>
            && o.xlamo == tle.xmo + tle.omegao + tle.xnodeo - thgr
            && o.xnq + o.xfact == (deep.xmdot + s.ssl) + (deep.omgdot + s.ssg) + (deep.xnodot + s.ssh) - THDT)
      && (o.terms.HalfDay? ==>
            && o.xlamo == tle.xmo + 2.0 * tle.xnodeo - 2.0 * thgr
            && o.xnq + o.xfact == (deep.xmdot + s.ssl) + 2.0 * (deep.xnodot + s.ssh) - 2.0 * THDT)
  {
  }

  lemma OneDayAnomaly(xmo: real, om: real, no: real, thgr: real, n: real, og: real, nd: real, c: real, t: real)
    ensures Longitude(xmo + om + no - thgr, n + og + nd - THDT, c, t)
         == Longitude(xmo, n, c, t) + Rate(om, og, t) + Rate(no, nd, t) - Rate(thgr, THDT, t)
  {
    assert (n + og + nd - THDT) * t == n * t + og * t + nd * t - THDT * t;
  }

  lemma HalfDayAnomaly(xmo: real, no: real, thgr: real, n: real, nd: real, c: real, t: real)
    ensures Longitude(xmo + 2.0 * no - 2.0 * thgr, n + 2.0 * nd - 2.0 * THDT, c, t)
         == Longitude(xmo, n, c, t) + 2.0 * Rate(no, nd, t) - 2.0 * Rate(thgr, THDT, t)
  {
    assert (n + 2.0 * nd - 2.0 * THDT) * t == n * t + 2.0 * (nd * t) - 2.0 * (THDT * t);
  }

  /** The longitude reached under uniform acceleration, taken apart into the angles it is made of. */
  lemma LongitudeParts(f: Formulas, tle: Tle, c: real, t: real, w: Work, long: real)
    requires Drifted(f, tle, t, w)
    requires var o := OrbitOf(f, tle); long == Longitude(o.xlamo, o.xnq + o.xfact, c, t)
    ensures var anomaly := Longitude(tle.xmo, f.deep(tle).xmdot + SecularOf(f, tle).ssl, c, t);
      var earth := Rate(f.sidereal(Ds50(tle.epoch)), THDT, t);
      && (OrbitOf(f, tle).terms.OneDay? ==> long == anomaly + w.omgadf + w.xnode - earth)
      && (OrbitOf(f, tle).terms.HalfDay? ==> long == anomaly + 2.0 * w.xnode - 2.0 * earth)
  {
    var o, deep, s, thgr := OrbitOf(f, tle), f.deep(tle), SecularOf(f, tle), f.sidereal(Ds50(tle.epoch));
    OrbitRate(f, tle);
    var n, og, nd := deep.xmdot + s.ssl, deep.omgdot + s.ssg, deep.xnodot + s.ssh;
    if o.terms.OneDay? {
      assert o.xlamo == tle.xmo + tle.omegao + tle.xnodeo - thgr && o.xnq + o.xfact == n + og + nd - THDT;
      OneDayAnomaly(tle.xmo, tle.omegao, tle.xnodeo, thgr, n, og, nd, c, t);
    } else {
      assert o.xlamo == tle.xmo + 2.0 * tle.xnodeo - 2.0 * thgr && o.xnq + o.xfact == n + 2.0 * nd - 2.0 * THDT;
      HalfDayAnomaly(tle.xmo, tle.xnodeo, thgr, n, nd, c, t);
    }
  }

  /**
   In either band, for every time and after any run of calls: when the dot terms are a uniform acceleration c, the
   reported mean anomaly is the secular one, from the element's own rate and those of sun and moon, plus c t^2 / 2,
   and the mean motion is the element's plus c t. With no resonance terms at all, c = 0, the resonant branch
   returns the plain secular values.
   */
  lemma ResonantAnomaly(f: Formulas, tle: Tle, c: real, ts: seq<real>, t: real, w: Work)
    requires Uniform(f.rates, OrbitOf(f, tle), c) && Drifted(f, tle, t, w)
    ensures var v := ResonateAt(f, tle, Run(f.rates, OrbitOf(f, tle), ts), t, w);
      && v.xll == Longitude(tle.xmo, f.deep(tle).xmdot + SecularOf(f, tle).ssl, c, t)
      && v.xn == Rate(f.deep(tle).xnodp, c, t)
  {
    var o := OrbitOf(f, tle);
    var p := Run(f.rates, o, ts);
    RunIsExact(f.rates, o, c, ts);
    AnomalyFrom(f, tle, c, p, t, w, ReachAt(f.rates, o, p, t));
  }

  lemma AnomalyFrom(f: Formulas, tle: Tle, c: real, p: Point, t: real, w: Work, r: Reach)
    requires Uniform(f.rates, OrbitOf(f, tle), c) && Drifted(f, tle, t, w) && Exact(OrbitOf(f, tle), c, p)
    requires r == ReachAt(f.rates, OrbitOf(f, tle), p, t)
    ensures var v := Resonate(OrbitOf(f, tle), p, r, f.sidereal(Ds50(tle.epoch)), t, w);
      && v.xll == Longitude(tle.xmo, f.deep(tle).xmdot + SecularOf(f, tle).ssl, c, t)
      && v.xn == Rate(f.deep(tle).xnodp, c, t)
  {
    ReachIsExact(f.rates, OrbitOf(f, tle), c, p, t);
    ResonateIs(OrbitOf(f, tle), p, r, f.sidereal(Ds50(tle.epoch)), t, w);
    LongitudeParts(f, tle, c, t, w, Reached(p, r).xli);
    OrbitRate(f, tle);
  }
}
