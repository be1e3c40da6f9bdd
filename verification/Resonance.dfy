/**
 The deep-space resonance integrator: the secular entry of the deep-space routine. It keeps a
 point (xli, xni, atime) between calls and moves it in 720-minute steps toward the requested time.
 */
module Resonance {
  import opened Basics
  import opened Flags

  const STEP := 720.0
  const STEP2 := 259200.0

  /** Coefficients of the one-day (synchronous) resonance. */
  datatype SyncTerms = SyncTerms(del1: real, del2: real, del3: real)

  /** Coefficients of the half-day resonance. */
  datatype HalfDayTerms = HalfDayTerms(
    d2201: real, d2211: real, d3210: real, d3222: real, d4410: real,
    d4422: real, d5220: real, d5232: real, d5421: real, d5433: real)

  /** The two trigonometric sums of the dot terms: xndot, and the factor that xldot multiplies into xnddt. */
  datatype Dots = Dots(xndot: real, curvature: real)

  /** The dot-term formulas: any functions of the values the code's sums read. */
  datatype Rates = Rates(
    sync: (SyncTerms, real) -> Dots,
    halfDay: (HalfDayTerms, real, real) -> Dots)

  datatype Terms = OneDay(sync: SyncTerms) | HalfDay(halfDay: HalfDayTerms)

  /** What initialisation leaves behind for the integrator. */
  datatype Orbit = Orbit(xlamo: real, xnq: real, xfact: real, terms: Terms, omegaq: real, omgdot: real)

  /** The state carried from call to call. */
  datatype Point = Point(xli: real, xni: real, atime: real)

  function DotsAt(m: Rates, o: Orbit, p: Point): Dots {
    match o.terms
    case OneDay(sync) => m.sync(sync, p.xli)
    case HalfDay(halfDay) => m.halfDay(halfDay, o.omegaq + o.omgdot * p.atime, p.xli)
  }

  /** The dot terms of the one-day resonance as sums of sines and cosines. */
  function SyncDots(sin: real -> real, cos: real -> real, c: SyncTerms, xli: real): Dots {
    var a, b, d := xli - 0.13130908, 2.0 * (xli - 2.8843198), 3.0 * (xli - 0.37448087);
    Dots(c.del1 * sin(a) + c.del2 * sin(b) + c.del3 * sin(d),
         c.del1 * cos(a) + 2.0 * c.del2 * cos(b) + 3.0 * c.del3 * cos(d))
  }

  /** The single-longitude and the double-longitude sums of the half-day resonance, for one function. */
  function HalfDaySum(f: real -> real, c: HalfDayTerms, xomi: real, xli: real): real {
    var g22, g32, g52 := 5.7686396, 0.95240898, 1.0508330;
    c.d2201 * f(xomi + xomi + xli - g22) + c.d2211 * f(xli - g22) +
    c.d3210 * f(xomi + xli - g32) + c.d3222 * f(-xomi + xli - g32) +
    c.d5220 * f(xomi + xli - g52) + c.d5232 * f(-xomi + xli - g52)
  }

  function HalfDayDoubleSum(f: real -> real, c: HalfDayTerms, xomi: real, xli: real): real {
    var g44, g54 := 1.8014998, 4.4108898;
    c.d4410 * f(xomi + xomi + (xli + xli) - g44) + c.d4422 * f(xli + xli - g44) +
    c.d5421 * f(xomi + (xli + xli) - g54) + c.d5433 * f(-xomi + (xli + xli) - g54)
  }

  /** The dot-term formulas of the code, over a sine and a cosine. */
  function TrigRates(sin: real -> real, cos: real -> real): Rates {
    Rates((c: SyncTerms, xli: real) => SyncDots(sin, cos, c, xli),
          (c: HalfDayTerms, xomi: real, xli: real) =>
            Dots(HalfDaySum(sin, c, xomi, xli) + HalfDayDoubleSum(sin, c, xomi, xli),
                 HalfDaySum(cos, c, xomi, xli) + 2.0 * HalfDayDoubleSum(cos, c, xomi, xli)))
  }

  /** The signed step: forward in time or backward. */
  function Delta(up: bool): real {
    if up then STEP else -STEP
  }

  /** `x` times the signed step. */
  function Over(x: real, up: bool): real {
    if up then STEP * x else -(STEP * x)
  }

  lemma SignedStep(x: real, delt: real)
    requires delt == STEP || delt == -STEP
    ensures x * delt == Over(x, delt == STEP)
  {
    if delt == STEP {
      assert x * delt == STEP * x;
    } else {
      assert x * delt == -(STEP * x);
    }
  }

  /** One Taylor step, forward or backward in time. */
  function Step(m: Rates, o: Orbit, p: Point, up: bool): (q: Point)
    ensures q.atime == p.atime + Delta(up)
  {
    var d := DotsAt(m, o, p);
    var xldot := p.xni + o.xfact;
    Point(p.xli + Over(xldot, up) + d.xndot * STEP2,
          p.xni + Over(d.xndot, up) + d.curvature * xldot * STEP2,
          p.atime + Delta(up))
  }

  function Epoch(o: Orbit): Point {
    Point(o.xlamo, o.xnq, 0.0)
  }

  function Walk(m: Rates, o: Orbit, p: Point, up: bool, k: nat): Point
    decreases k
  {
    if k == 0 then p else Walk(m, o, Step(m, o, p, up), up, k - 1)
  }

  /** Number of whole 720-minute steps in a time. */
  function Steps(t: real): (k: nat)
    ensures k as real * STEP <= Abs(t) < (k + 1) as real * STEP
  {
    (Abs(t) / STEP).Floor
  }

  /** `atime` is a multiple of 720. */
  predicate OnGrid(atime: real) {
    Abs(atime) == Steps(atime) as real * STEP
  }

  /** The direction that leads away from the epoch toward `t`. */
  predicate Outward(t: real) {
    t >= 0.0
  }

  /** Plain integration from epoch to the last grid point before `t`. */
  function FromEpoch(m: Rates, o: Orbit, t: real): Point {
    Walk(m, o, Epoch(o), Outward(t), Steps(t))
  }

  /** The stored time is unusable for `t`: it is the epoch itself or lies on its other side. */
  predicate Restarts(atime: real, t: real) {
    atime == 0.0 || (t >= 0.0 && atime < 0.0) || (t < 0.0 && atime >= 0.0)
  }

  /** Where one call moves the stored point, with no loop and no flag. */
  function Advance(m: Rates, o: Orbit, p: Point, t: real): Point {
    var here := Steps(p.atime);
    var there := Steps(t);
    if Restarts(p.atime, t) then FromEpoch(m, o, t)
    else if here <= there then Walk(m, o, p, Outward(t), there - here)
    else if there == 0 then Epoch(o)
    else Walk(m, o, p, !Outward(t), here - there)
  }

  lemma StepsOnGrid(k: nat, t: real)
    requires Abs(t) == k as real * STEP
    ensures Steps(t) == k && OnGrid(t)
  {
    var j := Steps(t);
    assert j as real <= k as real < (j + 1) as real;
  }

  /** The stored time is zero or on the same side of the epoch as `t`. */
  predicate SameSide(atime: real, t: real) {
    atime == 0.0 || (atime > 0.0 <==> t >= 0.0)
  }

  /** A step back from beyond `t` comes one grid point closer and does not change where the call ends. */
  lemma BackStep(m: Rates, o: Orbit, p: Point, t: real)
    requires OnGrid(p.atime) && !Restarts(p.atime, t) && Steps(t) < Steps(p.atime)
    ensures Abs(t) < Abs(p.atime)
    ensures var q := Step(m, o, p, !Outward(t));
      OnGrid(q.atime) && Steps(q.atime) == Steps(p.atime) - 1 && Advance(m, o, q, t) == Advance(m, o, p, t)
  {
    var q := Step(m, o, p, !Outward(t));
    var here, there := Steps(p.atime), Steps(t);
    StepsOnGrid(here - 1, q.atime);
    if there == 0 && here == 1 {
      assert Walk(m, o, Epoch(o), Outward(t), 0) == Epoch(o);
    } else if there == here - 1 {
      assert Walk(m, o, p, !Outward(t), 1) == Walk(m, o, q, !Outward(t), 0);
    }
  }

  /** From a grid point not beyond `t`, a further step is due exactly while `t` is a whole step away. */
  lemma OutStep(atime: real, t: real)
    requires OnGrid(atime) && SameSide(atime, t) && Steps(atime) <= Steps(t)
    ensures Abs(atime) <= Abs(t)
    ensures Abs(t - atime) >= STEP <==> Steps(atime) < Steps(t)
    ensures Steps(atime) < Steps(t) ==>
      var next := atime + Delta(Outward(t));
      OnGrid(next) && SameSide(next, t) && Steps(next) == Steps(atime) + 1
  {
    if Steps(atime) < Steps(t) {
      StepsOnGrid(Steps(atime) + 1, atime + Delta(Outward(t)));
    }
  }

  class Integrator {
    const flags: FlagWord
    const rates: Rates
    var xli: real
    var xni: real
    var atime: real

    constructor (flags: FlagWord, rates: Rates)
      ensures this.flags == flags && this.rates == rates
      ensures Here() == Point(0.0, 0.0, 0.0)
    {
      this.flags, this.rates := flags, rates;
      xli, xni, atime := 0.0, 0.0, 0.0;
    }

    function Here(): Point
      reads this
    {
      Point(xli, xni, atime)
    }

    method Reset(o: Orbit)
      modifies this
      ensures Here() == Epoch(o)
    {
      xli, xni, atime := o.xlamo, o.xnq, 0.0;
    }

    /** The epoch test at the head of the outer do/while, and the direction it chooses. */
    method Orient(o: Orbit, t: real, direction: real) returns (delt: real)
      requires OnGrid(atime)
      modifies this
      ensures OnGrid(atime) && SameSide(atime, t) && Steps(atime) <= old(Steps(atime))
      ensures Here() == if old(Restarts(atime, t)) then Epoch(o) else old(Here())
      ensures Steps(atime) <= Steps(t) ==> delt == Delta(Outward(t))
      ensures Advance(rates, o, Here(), t) == Advance(rates, o, old(Here()), t)
      ensures Steps(atime) <= Steps(t) ==>
        Advance(rates, o, Here(), t) == Walk(rates, o, Here(), Outward(t), Steps(t) - Steps(atime))
    {
      delt := direction;
      if atime == 0.0 || (t >= 0.0 && atime < 0.0) || (t < 0.0 && atime >= 0.0) {
        delt := if t >= 0.0 then STEP else -STEP;
        atime := 0.0;
        xni := o.xnq;
        xli := o.xlamo;
        StepsOnGrid(0, atime);
      } else if Abs(t) >= Abs(atime) {
        delt := if t > 0.0 then STEP else -STEP;
      }
    }

    /** The head of the inner do/while: is a step due, and does it lead back toward the epoch? */
    method Aim(t: real, delt0: real, ft0: real) returns (delt: real, ft: real)
      modifies flags`doLoop, flags`epochRestart
      ensures flags.doLoop == (Abs(t - atime) >= STEP || Abs(t) < Abs(atime))
      ensures flags.epochRestart ==
        (Abs(t) < Abs(atime) || (Abs(t - atime) < STEP && old(flags.epochRestart)))
      ensures ft == if Abs(t - atime) < STEP then t - atime else ft0
      ensures delt == if Abs(t) < Abs(atime) then Delta(!Outward(t)) else delt0
    {
      delt, ft := delt0, ft0;
      if Abs(t - atime) >= STEP {
        flags.doLoop := true;
        flags.epochRestart := false;
      } else {
        ft := t - atime;
        flags.doLoop := false;
      }
      if Abs(t) < Abs(atime) {
        delt := if t >= 0.0 then -STEP else STEP;
        flags.doLoop, flags.epochRestart := true, true;
      }
    }

    /** The dot terms at the stored point. */
    predicate AreDotTerms(o: Orbit, d: Dots, xldot: real, xnddt: real)
      reads this
    {
      d == DotsAt(rates, o, Here()) && xldot == xni + o.xfact && xnddt == d.curvature * xldot
    }

    method DotTerms(o: Orbit) returns (d: Dots, xldot: real, xnddt: real)
      ensures AreDotTerms(o, d, xldot, xnddt)
    {
      d := DotsAt(rates, o, Here());
      xldot := xni + o.xfact;
      xnddt := d.curvature * xldot;
    }

    /** The three assignments of one integrator step, from dot terms taken at the stored point. */
    method TakeStep(o: Orbit, delt: real, d: Dots, xldot: real, xnddt: real)
      requires AreDotTerms(o, d, xldot, xnddt)
      requires delt == STEP || delt == -STEP
      modifies this
      ensures Here() == Step(rates, o, old(Here()), delt == STEP)
    {
      SignedStep(xldot, delt);
      SignedStep(d.xndot, delt);
      assert xnddt * STEP2 == d.curvature * xldot * STEP2;
      xli := xli + xldot * delt + d.xndot * STEP2;
      xni := xni + d.xndot * delt + xnddt * STEP2;
      atime := atime + delt;
    }

    /**
     The inner do/while. From a point not beyond `t` it steps out to the last grid point before `t`;
     from a point beyond `t` it makes one step back and asks for the epoch test again.
     */
    method Approach(o: Orbit, t: real, direction: real)
      returns (d: Dots, xldot: real, xnddt: real, ft: real, delt: real)
      requires OnGrid(atime) && SameSide(atime, t)
      requires Steps(atime) <= Steps(t) ==> direction == Delta(Outward(t))
      modifies this, flags`doLoop, flags`epochRestart
      ensures old(Steps(atime)) <= Steps(t) ==>
        && Here() == Walk(rates, o, old(Here()), Outward(t), Steps(t) - old(Steps(atime)))
        && OnGrid(atime) && SameSide(atime, t) && Steps(atime) == Steps(t)
        && !flags.doLoop && ft == t - atime && Abs(ft) < STEP
        && AreDotTerms(o, d, xldot, xnddt)
      ensures Steps(t) < old(Steps(atime)) ==>
        && Here() == Step(rates, o, old(Here()), !Outward(t))
        && flags.doLoop && flags.epochRestart
    {
      ghost var back := Steps(t) < Steps(atime);
      ghost var goal := if back then Here() else Walk(rates, o, Here(), Outward(t), Steps(t) - Steps(atime));
      delt, ft := direction, 0.0;
      while true
        invariant OnGrid(atime) && SameSide(atime, t)
        invariant back ==> Here() == old(Here())
        invariant !back ==> Steps(atime) <= Steps(t) && delt == Delta(Outward(t))
        invariant !back ==> Walk(rates, o, Here(), Outward(t), Steps(t) - Steps(atime)) == goal
        decreases Steps(t) - Steps(atime)
      {
        if !back { OutStep(atime, t); }
        delt, ft := Aim(t, delt, ft);
        d, xldot, xnddt := DotTerms(o);
        if flags.doLoop {
          TakeStep(o, delt, d, xldot, xnddt);
        }
        if !(flags.doLoop && !flags.epochRestart) { break; }
      }
    }

    /**
     The whole loop nest of the secular entry: it terminates for every `t` and every leftover value of
     the two loop flags, and lands where `Advance` says.
     */
    method Integrate(o: Orbit, t: real) returns (d: Dots, xldot: real, xnddt: real, ft: real)
      requires OnGrid(atime)
      modifies this, flags`doLoop, flags`epochRestart
      ensures Here() == Advance(rates, o, old(Here()), t)
      ensures OnGrid(atime) && Steps(atime) == Steps(t) && SameSide(atime, t)
      ensures ft == t - atime && Abs(ft) < STEP
      ensures AreDotTerms(o, d, xldot, xnddt)
      ensures !flags.doLoop
    {
      var delt := 0.0;
      while true
        invariant OnGrid(atime)
        invariant Advance(rates, o, Here(), t) == Advance(rates, o, old(Here()), t)
        decreases Steps(atime)
      {
        delt := Orient(o, t, delt);
        if Steps(t) < Steps(atime) { BackStep(rates, o, Here(), t); }
        d, xldot, xnddt, ft, delt := Approach(o, t, delt);
        if !(flags.doLoop && flags.epochRestart) { break; }
      }
    }
  }
}
