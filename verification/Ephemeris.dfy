/**
 What the two propagators compute, with no flag, no static variable and no cache: the state of a
 satellite as a function of its elements and the time since epoch. The coefficient formulas are
 uninterpreted functions of exactly the values they read; the data flow between them is the source's.
 */
module Ephemeris {
  import opened Basics
  import opened Resonance
  import Calendar

  /** The elements the propagators read. */
  datatype Tle = Tle(
    epoch: real, xndt2o: real, xndd6o: real, bstar: real, xincl: real,
    xnodeo: real, eo: real, omegao: real, xmo: real, xno: real)

  datatype State = State(pos: Vector, vel: Vector)

  /** Near-earth constants that are always derived. */
  datatype NearTerms = NearTerms(
    aodp: real, aycof: real, c1: real, c4: real, c5: real, cosio: real, delmo: real, omgcof: real,
    eta: real, omgdot: real, sinio: real, xnodp: real, sinmo: real, t2cof: real, x1mth2: real,
    x3thm1: real, x7thm1: real, xmcof: real, xmdot: real, xnodcf: real, xnodot: real, xlcof: real)

  /** Near-earth drag constants, derived only when the perigee is high enough. */
  datatype DragTerms = DragTerms(d2: real, d3: real, d4: real, t3cof: real, t4cof: real, t5cof: real)

  /** Deep-space constants of the orbit itself. */
  datatype DeepTerms = DeepTerms(
    x3thm1: real, c1: real, x1mth2: real, c4: real, xnodcf: real, t2cof: real, xlcof: real, aycof: real,
    x7thm1: real, eosq: real, sinio: real, cosio: real, betao: real, aodp: real, theta2: real, sing: real,
    cosg: real, betao2: real, xmdot: real, omgdot: real, xnodot: real, xnodp: real)

  /** Lunar and solar geometry of a day. */
  datatype Moon = Moon(
    zcosil: real, zsinil: real, zsinhl: real, zcoshl: real, zmol: real, zcosgl: real, zsingl: real, zmos: real)

  /** Direction and strength of one perturbing body. */
  datatype Body = Body(
    zcosg: real, zsing: real, zcosi: real, zsini: real, zcosh: real, zsinh: real, cc: real, zn: real, ze: real)

  /** What one pass over a body yields: five secular rates and twelve periodic coefficients. */
  datatype Pass = Pass(
    se: real, si: real, sl: real, sgh: real, sh: real,
    e2: real, e3: real, i2: real, i3: real, l2: real, l3: real, l4: real,
    gh2: real, gh3: real, gh4: real, h2: real, h3: real)

  datatype Secular = Secular(sse: real, ssi: real, ssl: real, ssg: real, ssh: real)

  /** Lunar-solar periodics at one time. */
  datatype Periodics = Periodics(pe: real, pinc: real, pl: real, sghs: real, sghl: real, shs: real, sh1: real)

  /** The argument block handed between the deep-space entries. */
  datatype Work = Work(xll: real, omgadf: real, xnode: real, em: real, xinc: real, xn: real)

  datatype Formulas = Formulas(
    rates: Rates,
    quot: (real, real) -> real,
    isDeep: Tle -> bool,
    near: Tle -> NearTerms,
    lowPerigee: Tle -> bool,
    drag: Tle -> DragTerms,
    nearSimple: (real, Tle, NearTerms) -> State,
    nearFull: (real, Tle, NearTerms, DragTerms) -> State,
    deep: Tle -> DeepTerms,
    sidereal: real -> real,
    moon: real -> Moon,
    sunBody: Tle -> Body,
    moonBody: (Moon, Tle) -> Body,
    pass: (Body, Tle, DeepTerms) -> Pass,
    oneDay: (Tle, DeepTerms) -> SyncTerms,
    halfDay: (Tle, DeepTerms) -> HalfDayTerms,
    drift: (real, Tle, DeepTerms, Secular) -> Work,
    decay: (real, Tle, DeepTerms, Work) -> Work,
    periodics: (real, Moon, Pass, Pass) -> Periodics,
    perturb: (Tle, DeepTerms, Periodics, Work) -> Work,
    finish: (real, Tle, DeepTerms, Work) -> State)

  const THDT := 0.0043752691

  // ---- Near earth ----

  function NearState(f: Formulas, tle: Tle, t: real): State {
    if f.lowPerigee(tle) then f.nearSimple(t, tle, f.near(tle))
    else f.nearFull(t, tle, f.near(tle), f.drag(tle))
  }

  // ---- Deep space ----

  /** Days since 1950 of an epoch field. */
  function Ds50(epoch: real): real {
    Calendar.JulianDateOfEpoch(epoch) - 2433281.5
  }

  /** Days since 1900 January 0.5, the key of the lunar cache. */
  function LunarDay(tle: Tle): real {
    Ds50(tle.epoch) + 18261.5
  }

  /** Secular rates of a first body. */
  function FirstBody(f: Formulas, deep: DeepTerms, p: Pass): Secular {
    var ssh := f.quot(p.sh, deep.sinio);
    Secular(p.se, p.si, p.sl, p.sgh - deep.cosio * ssh, ssh)
  }

  /** Secular rates with a further body added. */
  function AddBody(f: Formulas, deep: DeepTerms, s: Secular, p: Pass): Secular {
    Secular(s.sse + p.se, s.ssi + p.si, s.ssl + p.sl,
            s.ssg + p.sgh - f.quot(deep.cosio, deep.sinio) * p.sh,
            s.ssh + f.quot(p.sh, deep.sinio))
  }

  function Sun(f: Formulas, tle: Tle): Pass {
    f.pass(f.sunBody(tle), tle, f.deep(tle))
  }

  function Luna(f: Formulas, tle: Tle): Pass {
    f.pass(f.moonBody(f.moon(LunarDay(tle)), tle), tle, f.deep(tle))
  }

  /** Solar plus lunar rates. */
  function SecularOf(f: Formulas, tle: Tle): Secular {
    AddBody(f, f.deep(tle), FirstBody(f, f.deep(tle), Sun(f, tle)), Luna(f, tle))
  }

  predicate IsOneDay(xnq: real) {
    xnq < 0.0052359877 && xnq > 0.0034906585
  }

  predicate IsHalfDay(xnq: real, eq: real) {
    !IsOneDay(xnq) && !(xnq < 0.00826 || xnq > 0.00924) && !(eq < 0.5)
  }

  predicate IsResonant(f: Formulas, tle: Tle) {
    IsOneDay(f.deep(tle).xnodp) || IsHalfDay(f.deep(tle).xnodp, tle.eo)
  }

  function OneDayOrbit(f: Formulas, tle: Tle, deep: DeepTerms, s: Secular, thgr: real): Orbit {
    Orbit(tle.xmo + tle.xnodeo + tle.omegao - thgr,
          deep.xnodp,
          deep.xmdot + (deep.omgdot + deep.xnodot) - THDT + s.ssl + s.ssg + s.ssh - deep.xnodp,
          OneDay(f.oneDay(tle, deep)), tle.omegao, deep.omgdot)
  }

  function HalfDayOrbit(f: Formulas, tle: Tle, deep: DeepTerms, s: Secular, thgr: real): Orbit {
    Orbit(tle.xmo + tle.xnodeo + tle.xnodeo - thgr - thgr,
          deep.xnodp,
          deep.xmdot + deep.xnodot + deep.xnodot - THDT - THDT + s.ssl + s.ssh + s.ssh - deep.xnodp,
          HalfDay(f.halfDay(tle, deep)), tle.omegao, deep.omgdot)
  }

  function OrbitOf(f: Formulas, tle: Tle): Orbit {
    var deep, thgr, s := f.deep(tle), f.sidereal(Ds50(tle.epoch)), SecularOf(f, tle);
    if IsOneDay(deep.xnodp) then OneDayOrbit(f, tle, deep, s, thgr) else HalfDayOrbit(f, tle, deep, s, thgr)
  }

  /** What the secular entry leaves for the interpolation: derivatives at the grid point and the time past it. */
  datatype Reach = Reach(dots: Dots, xldot: real, xnddt: real, ft: real)

  function ReachAt(m: Rates, o: Orbit, p: Point, t: real): Reach {
    var d, xldot := DotsAt(m, o, p), p.xni + o.xfact;
    Reach(d, xldot, d.curvature * xldot, t - p.atime)
  }

  /** The mean longitude and motion interpolated over `r` from the integrator's point. */
  function Resonate(o: Orbit, p: Point, r: Reach, thgr: real, t: real, w: Work): Work {
    var xl := p.xli + r.xldot * r.ft + r.dots.xndot * r.ft * r.ft * 0.5;
    var temp := -w.xnode + thgr + t * THDT;
    w.(xn := p.xni + r.dots.xndot * r.ft + r.xnddt * r.ft * r.ft * 0.5,
       xll := if o.terms.OneDay? then xl - w.omgadf + temp else xl + temp + temp)
  }

  function ResonateAt(f: Formulas, tle: Tle, p: Point, t: real, w: Work): Work {
    var o := OrbitOf(f, tle);
    Resonate(o, p, ReachAt(f.rates, o, p, t), f.sidereal(Ds50(tle.epoch)), t, w)
  }

  /** The secular drift at `t`, with the resonance interpolated from the integrator's point when it applies. */
  function Swept(f: Formulas, tle: Tle, p: Point, t: real): Work {
    var w := f.drift(t, tle, f.deep(tle), SecularOf(f, tle));
    if IsResonant(f, tle) then ResonateAt(f, tle, p, t, w) else w
  }

  /** Drag, periodics and the transformation to position and velocity. */
  function Concluded(f: Formulas, tle: Tle, per: Periodics, t: real, w: Work): State {
    var deep := f.deep(tle);
    f.finish(t, tle, deep, f.perturb(tle, deep, per, f.decay(t, tle, deep, w)))
  }

  /** Deep-space state at `t` from the integrator's point and a set of periodics. */
  function DeepState(f: Formulas, tle: Tle, p: Point, per: Periodics, t: real): State {
    Concluded(f, tle, per, t, Swept(f, tle, p, t))
  }

  function PeriodicsAt(f: Formulas, tle: Tle, t: real): Periodics {
    f.periodics(t, f.moon(LunarDay(tle)), Sun(f, tle), Luna(f, tle))
  }

  /** Deep-space state with the integrator started at epoch and the periodics taken at `t`. */
  function FreshDeepState(f: Formulas, tle: Tle, t: real): State {
    DeepState(f, tle, FromEpoch(f.rates, OrbitOf(f, tle), t), PeriodicsAt(f, tle, t), t)
  }

  // ---- Elements as read, and their one conversion ----

  const DE2RA := 0.0174532925
  const MINUTES_PER_DAY := 1440.0
  const EARTH_RADIUS := 6378.135
  const SECONDS_PER_DAY := 86400.0

  /** Degrees and revolutions per day to radians and radians per minute. */
  function Converted(tle: Tle): Tle {
    var temp := TWO_PI / MINUTES_PER_DAY / MINUTES_PER_DAY;
    tle.(xnodeo := tle.xnodeo * DE2RA, omegao := tle.omegao * DE2RA, xmo := tle.xmo * DE2RA,
         xincl := tle.xincl * DE2RA, xno := tle.xno * temp * MINUTES_PER_DAY,
         xndt2o := tle.xndt2o * temp, xndd6o := tle.xndd6o * temp / MINUTES_PER_DAY,
         bstar := tle.bstar / 1.0)
  }

  /**
   A day of converted motion is as many turns as it had revolutions, and so for its two derivatives; each angle
   in degrees becomes the same angle in radians; epoch, eccentricity and drag stay.
   */
  lemma ConversionUnits(tle: Tle)
    ensures var c := Converted(tle);
      && c.xno * 1440.0 == TWO_PI * tle.xno
      && c.xndt2o * 1440.0 * 1440.0 == TWO_PI * tle.xndt2o
      && c.xndd6o * 1440.0 * 1440.0 * 1440.0 == TWO_PI * tle.xndd6o
      && c.xincl * 180.0 == 3.1415926500 * tle.xincl && c.xnodeo * 180.0 == 3.1415926500 * tle.xnodeo
      && c.omegao * 180.0 == 3.1415926500 * tle.omegao && c.xmo * 180.0 == 3.1415926500 * tle.xmo
      && c.epoch == tle.epoch && c.eo == tle.eo && c.bstar == tle.bstar
  {
  }

  /** An earth radius is 6378.135 km, and what is covered in a minute is covered in sixty seconds. */
  lemma KilometreUnits(s: State)
    ensures var k := ToKilometres(s);
      k.pos == Scale(6378.135, s.pos) && Scale(60.0, k.vel) == Scale(6378.135, s.vel)
  {
  }

  /** Days are counted from 1950 January 0.0, and the cache key from noon of 1900 January 0. */
  lemma DayCounts(tle: Tle)
    ensures Ds50(tle.epoch) == Calendar.JulianDateOfEpoch(tle.epoch) - Calendar.JulianDateOfYear(1950)
    ensures LunarDay(tle) == Calendar.JulianDateOfEpoch(tle.epoch) - (Calendar.JulianDateOfYear(1900) + 0.5)
  {
    Calendar.YearFormula(1950);
    Calendar.YearFormula(1900);
  }

  /** The quotient formula is division, as in the code. */
  ghost predicate Divides(f: Formulas) {
    forall a, b :: b != 0.0 ==> f.quot(a, b) == a / b
  }

  /** The secular rates are solar plus lunar, each as the body's own; the node's share is taken out of the perigee's. */
  lemma SolarPlusLunar(f: Formulas, tle: Tle)
    requires Divides(f) && f.deep(tle).sinio != 0.0
    ensures var s, sun, luna, deep := SecularOf(f, tle), Sun(f, tle), Luna(f, tle), f.deep(tle);
      && s.sse == sun.se + luna.se && s.ssi == sun.si + luna.si && s.ssl == sun.sl + luna.sl
      && s.ssh * deep.sinio == sun.sh + luna.sh
      && s.ssg + deep.cosio * s.ssh == sun.sgh + luna.sgh
  {
    var sun, luna, deep := Sun(f, tle), Luna(f, tle), f.deep(tle);
    NodeShare(sun.sh, luna.sh, deep.cosio, deep.sinio);
  }

  lemma NodeShare(a: real, b: real, c: real, s: real)
    requires s != 0.0
    ensures (a / s + b / s) * s == a + b
    ensures c / s * b == c * (b / s)
  {
  }

  /** The order of the bodies does not matter. */
  lemma BodiesCommute(f: Formulas, deep: DeepTerms, a: Pass, b: Pass)
    requires Divides(f) && deep.sinio != 0.0
    ensures AddBody(f, deep, FirstBody(f, deep, a), b) == AddBody(f, deep, FirstBody(f, deep, b), a)
  {
    NodeShare(a.sh, b.sh, deep.cosio, deep.sinio);
    NodeShare(b.sh, a.sh, deep.cosio, deep.sinio);
  }

  /** A second conversion is harmless only for elements that are all zero. */
  lemma ConversionIsNotRepeatable(tle: Tle)
    ensures Converted(Converted(tle)) == Converted(tle) <==>
      && tle.xnodeo == 0.0 && tle.omegao == 0.0 && tle.xmo == 0.0 && tle.xincl == 0.0
      && tle.xno == 0.0 && tle.xndt2o == 0.0 && tle.xndd6o == 0.0
  {
  }

  /** Earth radii and radii per minute to kilometres and kilometres per second. */
  function ToKilometres(s: State): State {
    State(Scale(EARTH_RADIUS, s.pos), Scale(EARTH_RADIUS * MINUTES_PER_DAY / SECONDS_PER_DAY, s.vel))
  }

  /** What a process that has propagated nothing else reports for elements `raw` at a Julian date. */
  function FreshReport(f: Formulas, raw: Tle, jul: real): State {
    var tle := Converted(raw);
    var t := (jul - Calendar.JulianDateOfEpoch(tle.epoch)) * 1440.0;
    ToKilometres(if f.isDeep(tle) then FreshDeepState(f, tle, t) else NearState(f, tle, t))
  }

  /** A Julian date t / 1440 after the epoch is t minutes after it. */
  lemma ReportAtMinutes(f: Formulas, raw: Tle, t: real)
    ensures var tle := Converted(raw);
      FreshReport(f, raw, Calendar.JulianDateOfEpoch(raw.epoch) + t / 1440.0)
      == ToKilometres(if f.isDeep(tle) then FreshDeepState(f, tle, t) else NearState(f, tle, t))
  {
    var epoch := Calendar.JulianDateOfEpoch(raw.epoch);
    assert (epoch + t / 1440.0 - epoch) * 1440.0 == t;
  }

  /** With a low perigee the higher drag constants do not matter. */
  lemma LowPerigeeIsSimple(f: Formulas, drag: Tle -> DragTerms, tle: Tle, t: real)
    requires f.lowPerigee(tle)
    ensures NearState(f.(drag := drag), tle, t) == NearState(f, tle, t)
  {
  }

  /** Every epoch field of the format has a nonzero cache key, so the zeroed cache of a new process is never hit. */
  lemma LunarDayIsPositive(tle: Tle)
    requires 0.0 <= tle.epoch < 100000.0
    ensures LunarDay(tle) > 0.0
  {
    var yy := Trunc(tle.epoch * 0.001);
    Calendar.FloorIs(tle.epoch * 0.001, yy);
    var year := if yy < 57 then yy + 2000 else yy + 1900;
    Calendar.YearFormula(year);
  }
}
