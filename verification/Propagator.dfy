/**
 The propagators as the process runs them: one set of static variables, one flag word and three
 caches, shared by every satellite in the process.
 */
module Propagator {
  import opened Basics
  import opened Flags
  import opened Resonance
  import opened Ephemeris
  import Calendar

  /** The value that marks the periodics cache as empty. */
  const NEVER := 100000000000000000000.0

  const CACHE_MINUTES := 30.0

  function NoPass(): Pass {
    Pass(0.0, 0.0, 0.0, 0.0, 0.0, 0.0, 0.0, 0.0, 0.0, 0.0, 0.0, 0.0, 0.0, 0.0, 0.0, 0.0, 0.0)
  }

  /** The near-earth propagator and its static constants. */
  class NearPropagator {
    const f: Formulas
    const flags: FlagWord
    var near: NearTerms
    var drag: DragTerms

    // the elements the constants were derived from
    ghost var owner: Tle

    /** A new process: every static variable is zero. */
    constructor (f: Formulas, flags: FlagWord)
      requires flags.AllDown()
      ensures this.f == f && this.flags == flags && Valid()
    {
      this.f, this.flags := f, flags;
      near := NearTerms(0.0, 0.0, 0.0, 0.0, 0.0, 0.0, 0.0, 0.0, 0.0, 0.0, 0.0,
                        0.0, 0.0, 0.0, 0.0, 0.0, 0.0, 0.0, 0.0, 0.0, 0.0, 0.0);
      drag := DragTerms(0.0, 0.0, 0.0, 0.0, 0.0, 0.0);
    }

    /** Once initialised, the constants that are read belong to the owner. */
    ghost predicate Valid()
      reads this, flags`sgp4Initialized, flags`simple
    {
      flags.sgp4Initialized ==>
        && near == f.near(owner)
        && flags.simple == f.lowPerigee(owner)
        && (!flags.simple ==> drag == f.drag(owner))
    }

    method Sgp4(t: real, tle: Tle) returns (s: State)
      requires Valid()
      requires flags.sgp4Initialized ==> owner == tle
      modifies this, flags`sgp4Initialized, flags`simple
      ensures Valid() && flags.sgp4Initialized && owner == tle
      ensures s == NearState(f, tle, t)
    {
      if !flags.sgp4Initialized {
        flags.sgp4Initialized := true;
        owner := tle;
        near := f.near(tle);
        flags.simple := f.lowPerigee(tle);
        if !flags.simple {
          drag := f.drag(tle);
        }
      }
      s := if flags.simple then f.nearSimple(t, tle, near) else f.nearFull(t, tle, near, drag);
    }
  }

  /** The deep-space propagator, its static constants and its caches. */
  class DeepPropagator {
    const f: Formulas
    const flags: FlagWord
    const integrator: Integrator
    var deep: DeepTerms
    var work: Work
    var thgr: real
    var preep: real
    var moon: Moon
    var sun: Pass
    var luna: Pass
    var secular: Secular
    var xlamo: real
    var xfact: real
    var sync: SyncTerms
    var halfDay: HalfDayTerms
    var savtsn: real
    var periodics: Periodics

    // the elements the constants were derived from
    ghost var owner: Tle

    /** A new process: every static variable is zero. */
    constructor (f: Formulas, flags: FlagWord)
      requires flags.AllDown()
      ensures this.f == f && this.flags == flags && fresh(integrator) && Valid()
      ensures preep == 0.0
    {
      this.f, this.flags := f, flags;
      integrator := new Integrator(flags, f.rates);
      deep := DeepTerms(0.0, 0.0, 0.0, 0.0, 0.0, 0.0, 0.0, 0.0, 0.0, 0.0, 0.0,
                        0.0, 0.0, 0.0, 0.0, 0.0, 0.0, 0.0, 0.0, 0.0, 0.0, 0.0);
      work := Work(0.0, 0.0, 0.0, 0.0, 0.0, 0.0);
      thgr, preep, xlamo, xfact, savtsn := 0.0, 0.0, 0.0, 0.0, 0.0;
      moon := Moon(0.0, 0.0, 0.0, 0.0, 0.0, 0.0, 0.0, 0.0);
      sun := NoPass();
      luna := NoPass();
      secular := Secular(0.0, 0.0, 0.0, 0.0, 0.0);
      sync := SyncTerms(0.0, 0.0, 0.0);
      halfDay := HalfDayTerms(0.0, 0.0, 0.0, 0.0, 0.0, 0.0, 0.0, 0.0, 0.0, 0.0);
      periodics := Periodics(0.0, 0.0, 0.0, 0.0, 0.0, 0.0, 0.0);
      StepsOnGrid(0, 0.0);
    }

    function OrbitNow(tle: Tle): Orbit
      reads `deep, `xlamo, `xfact, `sync, `halfDay, flags`synchronous
    {
      Orbit(xlamo, deep.xnodp, xfact, if flags.synchronous then OneDay(sync) else HalfDay(halfDay),
            tle.omegao, deep.omgdot)
    }

    /** The constants that are read after initialisation belong to `tle`. */
    ghost predicate Ready(tle: Tle)
      reads `deep, `thgr, `moon, `sun, `luna, `secular, `xlamo, `xfact, `sync, `halfDay,
        flags`resonance, flags`synchronous
    {
      && deep == f.deep(tle)
      && thgr == f.sidereal(Ds50(tle.epoch))
      && moon == f.moon(LunarDay(tle))
      && sun == Sun(f, tle) && luna == Luna(f, tle)
      && secular == SecularOf(f, tle)
      && flags.resonance == IsResonant(f, tle)
      && (flags.resonance ==> OrbitNow(tle) == OrbitOf(f, tle))
    }

    /** The cached periodics are those of the cached time, unless the cache is marked empty. */
    ghost predicate CacheValid(tle: Tle)
      reads `savtsn, `periodics
    {
      savtsn == NEVER || periodics == PeriodicsAt(f, tle, savtsn)
    }

    /** The parts that every initialisation can build on. */
    ghost predicate BaseValid()
      reads `preep, `moon, integrator
    {
      && integrator.flags == flags && integrator.rates == f.rates
      && OnGrid(integrator.atime)
      && (preep != 0.0 ==> moon == f.moon(preep))
    }

    /** What every call keeps, whoever the caller is. */
    ghost predicate Valid()
      reads this, integrator,
        flags`sdp4Initialized, flags`lunarTermsDone, flags`resonance, flags`synchronous
    {
      && BaseValid()
      && (flags.lunarTermsDone ==> flags.sdp4Initialized)
      && (flags.synchronous ==> flags.resonance)
      && (flags.resonance ==> flags.sdp4Initialized)
      && (flags.sdp4Initialized && LunarDay(owner) != 0.0 ==> Ready(owner) && CacheValid(owner))
    }

    /**
     The endless loop of the deep-space initialisation. With the lunar flag down it makes two passes and
     sums sun and moon; with the flag left up it would make one and add the sun to the old sums.
     */
    method SumBodies(tle: Tle) returns (ghost passes: nat)
      modifies this`sun, this`luna, this`secular, flags`lunarTermsDone
      ensures flags.lunarTermsDone
      ensures !old(flags.lunarTermsDone) ==>
        && passes == 2
        && sun == f.pass(f.sunBody(tle), tle, deep)
        && luna == f.pass(f.moonBody(moon, tle), tle, deep)
        && secular == AddBody(f, deep, FirstBody(f, deep, sun), luna)
      ensures old(flags.lunarTermsDone) ==>
        && passes == 1
        && sun == old(sun)
        && luna == f.pass(f.sunBody(tle), tle, deep)
        && secular == AddBody(f, deep, old(secular), luna)
    {
      passes := 0;
      var body := f.sunBody(tle);
      while true
        invariant passes == 0 ==>
          && body == f.sunBody(tle) && secular == old(secular) && sun == old(sun)
          && flags.lunarTermsDone == old(flags.lunarTermsDone)
        invariant passes != 0 ==>
          && passes == 1 && flags.lunarTermsDone && !old(flags.lunarTermsDone) && body == f.moonBody(moon, tle)
          && sun == f.pass(f.sunBody(tle), tle, deep) && secular == FirstBody(f, deep, sun)
        decreases !flags.lunarTermsDone
      {
        luna := f.pass(body, tle, deep);
        if flags.lunarTermsDone { break; }
        secular := FirstBody(f, deep, luna);
        sun := luna;
        body := f.moonBody(moon, tle);
        flags.lunarTermsDone := true;
        passes := passes + 1;
      }
      passes := passes + 1;
      secular := AddBody(f, deep, secular, luna);
    }

    /** Choice and initialisation of the resonance, with its two early returns. */
    method SetResonance(tle: Tle)
      modifies this`sync, this`halfDay, this`xlamo, this`xfact, flags`resonance, flags`synchronous, integrator
      ensures flags.resonance == (IsOneDay(deep.xnodp) || IsHalfDay(deep.xnodp, tle.eo))
      ensures flags.synchronous == IsOneDay(deep.xnodp)
      ensures flags.resonance ==>
        var o := if IsOneDay(deep.xnodp) then OneDayOrbit(f, tle, deep, secular, thgr)
                 else HalfDayOrbit(f, tle, deep, secular, thgr);
        OrbitNow(tle) == o && integrator.Here() == Epoch(o)
      ensures !flags.resonance ==> integrator.Here() == old(integrator.Here())
    {
      flags.resonance := false;
      flags.synchronous := false;
      var xnq := deep.xnodp;
      var bfact;
      if !(xnq < 0.0052359877 && xnq > 0.0034906585) {
        if xnq < 0.00826 || xnq > 0.00924 { return; }
        if tle.eo < 0.5 { return; }
        flags.resonance := true;
        halfDay := f.halfDay(tle, deep);
        xlamo := tle.xmo + tle.xnodeo + tle.xnodeo - thgr - thgr;
        bfact := deep.xmdot + deep.xnodot + deep.xnodot - THDT - THDT;
        bfact := bfact + secular.ssl + secular.ssh + secular.ssh;
      } else {
        flags.resonance := true;
        flags.synchronous := true;
        sync := f.oneDay(tle, deep);
        xlamo := tle.xmo + tle.xnodeo + tle.omegao - thgr;
        var xpidot := deep.omgdot + deep.xnodot;
        bfact := deep.xmdot + xpidot - THDT;
        bfact := bfact + secular.ssl + secular.ssg + secular.ssh;
      }
      xfact := bfact - xnq;
      integrator.Reset(OrbitNow(tle));
    }

    /** The deep-space initialisation entry. */
    method DeepInit(tle: Tle)
      requires BaseValid()
      requires deep == f.deep(tle) && !flags.lunarTermsDone
      modifies this`thgr, this`preep, this`moon, this`savtsn, this`sun, this`luna, this`secular,
        this`sync, this`halfDay, this`xlamo, this`xfact,
        flags`lunarTermsDone, flags`resonance, flags`synchronous, integrator
      ensures BaseValid()
      ensures flags.synchronous ==> flags.resonance
      ensures LunarDay(tle) != 0.0 ==> Ready(tle)
      ensures savtsn == NEVER
      ensures flags.resonance == IsResonant(f, tle)
      ensures LunarDay(tle) != 0.0 && flags.resonance ==> integrator.Here() == Epoch(OrbitOf(f, tle))
    {
      LoadGeometry(tle);
      savtsn := NEVER;
      ghost var passes := SumBodies(tle);
      assert LunarDay(tle) != 0.0 ==> secular == SecularOf(f, tle);
      SetResonance(tle);
      StepsOnGrid(0, 0.0);
    }

    /** Sidereal time of the epoch, and the lunar geometry of its day unless it is the day in the cache. */
    method LoadGeometry(tle: Tle)
      requires preep != 0.0 ==> moon == f.moon(preep)
      modifies this`thgr, this`preep, this`moon
      ensures thgr == f.sidereal(Ds50(tle.epoch)) && preep == LunarDay(tle)
      ensures preep != 0.0 ==> moon == f.moon(preep)
    {
      thgr := f.sidereal(Ds50(tle.epoch));
      var day := Ds50(tle.epoch) + 18261.5;
      if day != preep {
        preep := day;
        moon := f.moon(day);
      }
    }

    /**
     The lunar-solar periodics entry. Afterwards the cached time is less than 30 minutes from `t`, and cached
     periodics that belonged to the cached time still do; the cache is refilled only when it has to be.
     */
    method Perturb(tle: Tle, t: real)
      modifies this`work, this`savtsn, this`periodics
      ensures Abs(savtsn - t) < CACHE_MINUTES
      ensures old(periodics) == f.periodics(old(savtsn), moon, sun, luna) ==>
        periodics == f.periodics(savtsn, moon, sun, luna)
      ensures Abs(old(savtsn) - t) >= CACHE_MINUTES ==> savtsn == t && periodics == f.periodics(t, moon, sun, luna)
      ensures Abs(old(savtsn) - t) < CACHE_MINUTES ==> savtsn == old(savtsn) && periodics == old(periodics)
      ensures work == f.perturb(tle, deep, periodics, old(work))
    {
      if Abs(savtsn - t) >= CACHE_MINUTES {
        savtsn := t;
        periodics := f.periodics(t, moon, sun, luna);
      }
      work := f.perturb(tle, deep, periodics, work);
    }

    /** The secular entry: drift, and the resonance integrator when it applies. */
    method Advance(tle: Tle, t: real)
      requires BaseValid()
      requires LunarDay(tle) != 0.0 ==> Ready(tle)
      modifies this`work, integrator, flags`doLoop, flags`epochRestart
      ensures BaseValid()
      ensures !flags.resonance ==> integrator.Here() == old(integrator.Here())
      ensures LunarDay(tle) != 0.0 ==>
        && work == Swept(f, tle, integrator.Here(), t)
        && (flags.resonance ==>
              integrator.Here() == Resonance.Advance(f.rates, OrbitOf(f, tle), old(integrator.Here()), t))
    {
      work := f.drift(t, tle, deep, secular);
      if flags.resonance {
        var o := OrbitNow(tle);
        var d, xldot, xnddt, ft := integrator.Integrate(o, t);
        var r := Reach(d, xldot, xnddt, ft);
        assert r == ReachAt(f.rates, o, integrator.Here(), t);
        work := Resonate(o, integrator.Here(), r, thgr, t, work);
      }
    }

    /** Deep-space initialisation, once after the flags were cleared. */
    method EnsureDeep(tle: Tle)
      requires Valid()
      requires flags.sdp4Initialized ==> owner == tle
      modifies this, integrator, flags`sdp4Initialized, flags`lunarTermsDone, flags`resonance, flags`synchronous,
        flags`doLoop, flags`epochRestart
      ensures Valid() && flags.sdp4Initialized && owner == tle
      ensures savtsn == (if old(flags.sdp4Initialized) then old(savtsn) else NEVER) && periodics == old(periodics)
      ensures LunarDay(tle) != 0.0 && IsResonant(f, tle) ==>
        integrator.Here() == if old(flags.sdp4Initialized) then old(integrator.Here()) else Epoch(OrbitOf(f, tle))
    {
      if !flags.sdp4Initialized {
        flags.sdp4Initialized := true;
        owner := tle;
        deep := f.deep(tle);
        DeepInit(tle);
      }
    }

    /** Everything after initialisation. */
    method Evaluate(t: real, tle: Tle) returns (s: State)
      requires Valid() && flags.sdp4Initialized && owner == tle
      modifies this`work, this`savtsn, this`periodics, integrator, flags`doLoop, flags`epochRestart
      ensures BaseValid() && (LunarDay(tle) != 0.0 ==> Ready(tle) && CacheValid(tle))
      ensures LunarDay(tle) != 0.0 ==> s == DeepState(f, tle, integrator.Here(), periodics, t)
      ensures LunarDay(tle) != 0.0 && IsResonant(f, tle) ==>
        integrator.Here() == Resonance.Advance(f.rates, OrbitOf(f, tle), old(integrator.Here()), t)
      ensures savtsn == if Abs(old(savtsn) - t) >= CACHE_MINUTES then t else old(savtsn)
      ensures Abs(old(savtsn) - t) >= CACHE_MINUTES && LunarDay(tle) != 0.0 ==> periodics == PeriodicsAt(f, tle, t)
      ensures Abs(old(savtsn) - t) < CACHE_MINUTES ==> periodics == old(periodics)
    {
      Advance(tle, t);
      s := Conclude(t, tle);
    }

    /** Drag, periodics and the transformation to position and velocity. */
    method Conclude(t: real, tle: Tle) returns (s: State)
      requires LunarDay(tle) != 0.0 ==> Ready(tle) && CacheValid(tle)
      modifies this`work, this`savtsn, this`periodics
      ensures LunarDay(tle) != 0.0 ==> s == Concluded(f, tle, periodics, t, old(work)) && CacheValid(tle)
      ensures savtsn == if Abs(old(savtsn) - t) >= CACHE_MINUTES then t else old(savtsn)
      ensures Abs(old(savtsn) - t) >= CACHE_MINUTES && LunarDay(tle) != 0.0 ==> periodics == PeriodicsAt(f, tle, t)
      ensures Abs(old(savtsn) - t) < CACHE_MINUTES ==> periodics == old(periodics)
    {
      work := f.decay(t, tle, deep, work);
      Perturb(tle, t);
      s := f.finish(t, tle, deep, work);
    }

    /**
     The deep-space propagator: the state is the plain computation from the integrator's point and the
     cached periodics, the point is moved by `Advance`, and the cache is refilled 30 minutes on.
     */
    method Sdp4(t: real, tle: Tle) returns (s: State)
      requires Valid()
      requires flags.sdp4Initialized ==> owner == tle
      modifies this, integrator, flags`sdp4Initialized, flags`lunarTermsDone, flags`resonance, flags`synchronous,
        flags`doLoop, flags`epochRestart
      ensures Valid() && flags.sdp4Initialized && owner == tle
      ensures LunarDay(tle) != 0.0 ==> s == DeepState(f, tle, integrator.Here(), periodics, t)
      ensures LunarDay(tle) != 0.0 && IsResonant(f, tle) ==>
        var o := OrbitOf(f, tle);
        var start := if old(flags.sdp4Initialized) then old(integrator.Here()) else Epoch(o);
        integrator.Here() == Resonance.Advance(f.rates, o, start, t)
      ensures var cached := if old(flags.sdp4Initialized) then old(savtsn) else NEVER;
        && savtsn == (if Abs(cached - t) >= CACHE_MINUTES then t else cached)
        && (Abs(cached - t) >= CACHE_MINUTES && LunarDay(tle) != 0.0 ==> periodics == PeriodicsAt(f, tle, t))
        && (Abs(cached - t) < CACHE_MINUTES ==> periodics == old(periodics))
    {
      EnsureDeep(tle);
      s := Evaluate(t, tle);
    }
  }

  /** The library of one process. */
  class Library {
    const f: Formulas
    const flags: FlagWord
    const near: NearPropagator
    const deep: DeepPropagator

    constructor (f: Formulas)
      ensures Valid() && this.f == f && flags.AllDown()
      ensures fresh(flags) && fresh(near) && fresh(deep) && fresh(deep.integrator)
    {
      this.f := f;
      var word := new FlagWord();
      flags := word;
      near := new NearPropagator(f, word);
      deep := new DeepPropagator(f, word);
    }

    ghost predicate Valid()
      reads near, deep, flags, deep.integrator
    {
      && near.f == f && near.flags == flags && deep.f == f && deep.flags == flags
      && near.Valid() && deep.Valid()
    }
  }

  /** One satellite of a process, with its elements converted once. */
  class SatObject {
    var tle: Tle
    var tleReady: Tle
    var deepSpace: bool
    var epochJul: real
    ghost var raw: Tle

    constructor (loaded: Tle)
      ensures tle == loaded
    {
      tle := loaded;
      tleReady := loaded;
      deepSpace := false;
      epochJul := 0.0;
      raw := loaded;
    }

    /** Set up once from the elements `raw`. */
    ghost predicate Ready(f: Formulas)
      reads `tleReady, `deepSpace, `epochJul, `raw
    {
      && tleReady == Converted(raw)
      && deepSpace == f.isDeep(tleReady)
      && epochJul == Calendar.JulianDateOfEpoch(tleReady.epoch)
    }

    /** Convert the loaded elements, once, and note the verdict. */
    method Setup(lib: Library)
      requires lib.Valid()
      modifies this, lib.flags
      ensures Ready(lib.f) && raw == old(tle)
      ensures lib.Valid()
    {
      lib.flags.ClearAll();
      raw := tle;
      tle := Converted(tle);
      lib.flags.deepSpaceEphem := lib.f.isDeep(tle);
      deepSpace := lib.flags.deepSpaceEphem;
      tleReady := tle;
      epochJul := Calendar.JulianDateOfEpoch(tleReady.epoch);
    }

    /** Give the propagators to this satellite. */
    method Prepare(lib: Library)
      requires lib.Valid() && Ready(lib.f)
      modifies this`tle, lib.flags
      ensures lib.Valid() && Ready(lib.f)
      ensures tle == tleReady
      ensures !lib.flags.sgp4Initialized && !lib.flags.sdp4Initialized
      ensures lib.flags.deepSpaceEphem == deepSpace
    {
      tle := tleReady;
      lib.flags.ClearAll();
      if deepSpace {
        lib.flags.deepSpaceEphem := true;
      }
    }

    /** Minutes from the epoch to a Julian date. */
    function Since(jul: real): real
      reads `epochJul
    {
      (jul - epochJul) * 1440.0
    }

    /** State `t` minutes after the epoch, from propagators that have just been given to this satellite. */
    method Propagate(lib: Library, t: real) returns (s: State)
      requires lib.Valid() && Ready(lib.f) && tle == tleReady
      requires !lib.flags.sgp4Initialized && !lib.flags.sdp4Initialized
      modifies lib.near, lib.deep, lib.flags, lib.deep.integrator
      ensures lib.Valid()
      ensures !deepSpace || LunarDay(tle) != 0.0 ==> s == CachedState(lib.f, tle, old(lib.deep.periodics), t)
      ensures deepSpace && LunarDay(tle) != 0.0 && Abs(NEVER - t) >= CACHE_MINUTES ==>
        lib.deep.periodics == PeriodicsAt(lib.f, tle, t)
    {
      if deepSpace {
        s := lib.deep.Sdp4(t, tle);
        if LunarDay(tle) != 0.0 {
          FromEpochAdvance(lib.f, tle, lib.deep.integrator.Here(), lib.deep.periodics, t);
        }
      } else {
        s := lib.near.Sgp4(t, tle);
      }
    }

    /**
     State at a Julian date, safe to interleave with other satellites: the report of a fresh process, or for a
     time within 30 minutes of the empty-cache mark the report with the periodics that were left in the cache.
     */
    method StateAt(lib: Library, jul: real) returns (s: State)
      requires lib.Valid() && Ready(lib.f)
      modifies this`tle, lib.near, lib.deep, lib.flags, lib.deep.integrator
      ensures lib.Valid() && Ready(lib.f)
      ensures Isolated(raw, lib.f, jul) ==> s == FreshReport(lib.f, raw, jul)
      ensures tle == tleReady
      ensures !deepSpace || LunarDay(tle) != 0.0 ==>
        s == ToKilometres(CachedState(lib.f, tle, old(lib.deep.periodics), Since(jul)))
      ensures deepSpace && LunarDay(tle) != 0.0 && Abs(NEVER - Since(jul)) >= CACHE_MINUTES ==>
        lib.deep.periodics == PeriodicsAt(lib.f, tle, Since(jul))
    {
      Prepare(lib);
      var state := Propagate(lib, Since(jul));
      ReportIs(lib.f, raw, jul, tle, old(lib.deep.periodics), Since(jul));
      s := ToKilometres(state);
    }
  }

  /**
   What propagators that have just been given to a satellite compute when the periodics cache holds `per`: the
   state of a fresh process, except that near the empty-cache mark the cache passes for filled.
   */
  function CachedState(f: Formulas, tle: Tle, per: Periodics, t: real): State {
    if !f.isDeep(tle) then NearState(f, tle, t)
    else if Abs(NEVER - t) >= CACHE_MINUTES then FreshDeepState(f, tle, t)
    else DeepState(f, tle, FromEpoch(f.rates, OrbitOf(f, tle), t), per, t)
  }

  lemma ReportIs(f: Formulas, raw: Tle, jul: real, tle: Tle, per: Periodics, t: real)
    requires tle == Converted(raw) && t == (jul - Calendar.JulianDateOfEpoch(tle.epoch)) * 1440.0
    ensures Isolated(raw, f, jul) ==> !f.isDeep(tle) || LunarDay(tle) != 0.0
    ensures Isolated(raw, f, jul) ==> FreshReport(f, raw, jul) == ToKilometres(CachedState(f, tle, per, t))
  {
  }

  /** Started at the epoch, the integrator's point does not depend on anything before; nor does it without resonance. */
  lemma FromEpochAdvance(f: Formulas, tle: Tle, p: Point, per: Periodics, t: real)
    requires IsResonant(f, tle) ==> p == Resonance.Advance(f.rates, OrbitOf(f, tle), Epoch(OrbitOf(f, tle)), t)
    ensures DeepState(f, tle, p, per, t) == DeepState(f, tle, FromEpoch(f.rates, OrbitOf(f, tle), t), per, t)
  {
  }

  /**
   What the caches need of a request: the cache key of the epoch is not the zero that a new process
   starts with, and the time is not within 30 minutes of the empty-cache mark.
   */
  predicate Isolated(raw: Tle, f: Formulas, jul: real) {
    var tle := Converted(raw);
    var t := (jul - Calendar.JulianDateOfEpoch(tle.epoch)) * 1440.0;
    f.isDeep(tle) ==> LunarDay(tle) != 0.0 && Abs(NEVER - t) >= CACHE_MINUTES
  }
}
