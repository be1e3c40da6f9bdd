/**
 Several satellites in one process: what the callers of the propagators rely on.
 */
module SharedProcess {
  import opened Basics
  import opened Resonance
  import opened ResonanceRuns
  import opened Ephemeris
  import opened Propagator

  /** Ask for the state of one of the satellites at a Julian date. */
  datatype Request = Request(index: nat, jul: real)

  /** A report is that of a process which has propagated nothing else. */
  ghost predicate Faithful(f: Formulas, raw: Tle, jul: real, s: State) {
    Isolated(raw, f, jul) ==> s == FreshReport(f, raw, jul)
  }

  /** Every satellite has been set up from its elements `raws`. */
  ghost predicate AllReady(f: Formulas, objects: seq<SatObject>, raws: seq<Tle>)
    reads objects
  {
    |raws| == |objects| && forall k :: 0 <= k < |objects| ==> objects[k].Ready(f) && objects[k].raw == raws[k]
  }

  /** One request, to any of the satellites. */
  method Answer(lib: Library, objects: seq<SatObject>, ghost raws: seq<Tle>, q: Request) returns (s: State)
    requires lib.Valid() && AllReady(lib.f, objects, raws) && q.index < |objects|
    modifies lib.near, lib.deep, lib.flags, lib.deep.integrator, objects`tle
    ensures lib.Valid() && AllReady(lib.f, objects, raws)
    ensures Faithful(lib.f, raws[q.index], q.jul, s)
  {
    s := objects[q.index].StateAt(lib, q.jul);
  }

  /**
   Any interleaving of state requests over any satellites, each set up once, reports for every request
   what a process propagating that satellite alone would report.
   */
  method Interleave(lib: Library, objects: seq<SatObject>, ghost raws: seq<Tle>, script: seq<Request>)
    returns (out: seq<State>)
    requires lib.Valid() && AllReady(lib.f, objects, raws)
    requires forall i :: 0 <= i < |script| ==> script[i].index < |objects|
    modifies lib.near, lib.deep, lib.flags, lib.deep.integrator, objects`tle
    ensures lib.Valid() && AllReady(lib.f, objects, raws)
    ensures |out| == |script|
    ensures forall i :: 0 <= i < |script| ==> Faithful(lib.f, raws[script[i].index], script[i].jul, out[i])
  {
    out := [];
    for i := 0 to |script|
      invariant lib.Valid() && AllReady(lib.f, objects, raws)
      invariant |out| == i
      invariant forall j :: 0 <= j < i ==> Faithful(lib.f, raws[script[j].index], script[j].jul, out[j])
    {
      var s := Answer(lib, objects, raws, script[i]);
      out := out + [s];
    }
  }

  // ---- Evaluations of the orbit fit ----

  /** The fit's six mean elements, in its own order, as an element set at its epoch. */
  function EpochTle(incl: real, raan: real, ecc: real, argp: real, ma: real, n: real): Tle {
    Tle(0.0, 0.0, 0.0, 0.0, incl, raan, if ecc < 0.000001 then 0.000001 else ecc, argp, ma, n)
  }

  /** Each of the six elements is in its own field, the drag terms are off, and a circular orbit is nudged off zero. */
  lemma EpochTleFields(incl: real, raan: real, ecc: real, argp: real, ma: real, n: real)
    ensures var e := EpochTle(incl, raan, ecc, argp, ma, n);
      && e.xincl == incl && e.xnodeo == raan && e.omegao == argp && e.xmo == ma && e.xno == n
      && e.eo >= 0.000001 && (ecc >= 0.000001 ==> e.eo == ecc)
      && e.bstar == 0.0 && e.xndt2o == 0.0 && e.xndd6o == 0.0
  {
  }

  /** State at epoch, or none for a period the near-earth propagator does not cover. */
  function EpochState(f: Formulas, incl: real, raan: real, ecc: real, argp: real, ma: real, n: real): Option<State> {
    if n <= 0.0 || TWO_PI / n >= 225.0 then None
    else Some(ToKilometres(NearState(f, EpochTle(incl, raan, ecc, argp, ma, n), 0.0)))
  }

  /** The fit's evaluation is a function of the elements alone, whatever the library did before. */
  method EvaluateAtEpoch(lib: Library, incl: real, raan: real, ecc: real, argp: real, ma: real, n: real)
    returns (s: Option<State>)
    requires lib.Valid()
    modifies lib.near, lib.deep, lib.flags, lib.deep.integrator
    ensures lib.Valid()
    ensures s == EpochState(lib.f, incl, raan, ecc, argp, ma, n)
  {
    if n <= 0.0 {
      return None;
    }
    if TWO_PI / n >= 225.0 {
      return None;
    }
    lib.flags.ClearAll();
    var state := lib.near.Sgp4(0.0, EpochTle(incl, raan, ecc, argp, ma, n));
    s := Some(ToKilometres(state));
  }

  // ---- Tracking one satellite call after call ----

  /** The time whose periodics are in use after a run of calls that began with an empty cache. */
  function CacheTime(ts: seq<real>): real {
    if ts == [] then NEVER
    else
      var cached, t := CacheTime(ts[..|ts| - 1]), ts[|ts| - 1];
      if Abs(cached - t) >= CACHE_MINUTES then t else cached
  }

  /** The periodics in use are less than 30 minutes old, in either direction. */
  lemma {:induction false} CacheIsRecent(ts: seq<real>)
    requires ts != []
    ensures Abs(CacheTime(ts) - ts[|ts| - 1]) < CACHE_MINUTES
    ensures CacheTime(ts) == NEVER || CacheTime(ts) in ts
  {
    var before, t := ts[..|ts| - 1], ts[|ts| - 1];
    if before != [] {
      CacheIsRecent(before);
      assert CacheTime(before) in before ==> CacheTime(before) in ts;
    }
    assert t in ts;
  }

  /** Tracking state after a run of calls on one satellite. */
  function TrackedState(f: Formulas, tle: Tle, ts: seq<real>): State
    requires ts != []
  {
    DeepState(f, tle, Run(f.rates, OrbitOf(f, tle), ts), PeriodicsAt(f, tle, CacheTime(ts)), ts[|ts| - 1])
  }

  /** Every request of a run avoids the two cache marks. */
  predicate KeepsClear(tle: Tle, ts: seq<real>) {
    LunarDay(tle) != 0.0 && forall i :: 0 <= i < |ts| ==> Abs(NEVER - ts[i]) >= CACHE_MINUTES
  }

  /** The library has been given to a satellite and has since been called at the times `ts`. */
  ghost predicate Following(lib: Library, o: SatObject, ts: seq<real>)
    reads lib.near, lib.deep, lib.flags, lib.deep.integrator, o
  {
    && lib.Valid() && o.Ready(lib.f)
    && o.tle == o.tleReady && lib.flags.deepSpaceEphem == o.deepSpace
    && (lib.flags.sgp4Initialized ==> lib.near.owner == o.tle)
    && (lib.flags.sdp4Initialized ==> lib.deep.owner == o.tle)
    && (o.deepSpace && KeepsClear(o.tle, ts) ==>
          && lib.flags.sdp4Initialized == (ts != [])
          && (ts != [] ==> lib.deep.savtsn == CacheTime(ts) != NEVER)
          && (ts != [] && IsResonant(lib.f, o.tle) ==>
                lib.deep.integrator.Here() == Run(lib.f.rates, OrbitOf(lib.f, o.tle), ts)))
  }

  lemma NextRun(m: Rates, o: Orbit, ts: seq<real>, t: real)
    ensures Run(m, o, ts + [t]) == Advance(m, o, Run(m, o, ts), t)
    ensures var c := CacheTime(ts); CacheTime(ts + [t]) == if Abs(c - t) >= CACHE_MINUTES then t else c
  {
    var next := ts + [t];
    assert next[..|next| - 1] == ts && next[|next| - 1] == t;
  }

  lemma KeepsClearPrefix(tle: Tle, ts: seq<real>, t: real)
    requires KeepsClear(tle, ts + [t])
    ensures KeepsClear(tle, ts) && Abs(NEVER - t) >= CACHE_MINUTES
  {
    var next := ts + [t];
    assert next[|ts|] == t;
    assert forall i :: 0 <= i < |ts| ==> next[i] == ts[i];
  }

  /** One tracking update: propagate by the deep-space flag, with no reset. */
  method Update(lib: Library, o: SatObject, ghost ts: seq<real>, t: real) returns (s: State)
    requires Following(lib, o, ts)
    modifies lib.near, lib.deep, lib.flags, lib.deep.integrator
    ensures Following(lib, o, ts + [t])
    ensures !o.deepSpace ==> s == NearState(lib.f, o.tle, t)
    ensures o.deepSpace && KeepsClear(o.tle, ts + [t]) ==> s == TrackedState(lib.f, o.tle, ts + [t])
  {
    if lib.flags.deepSpaceEphem {
      NextRun(lib.f.rates, OrbitOf(lib.f, o.tle), ts, t);
      if KeepsClear(o.tle, ts + [t]) { KeepsClearPrefix(o.tle, ts, t); }
      s := lib.deep.Sdp4(t, o.tle);
    } else {
      s := lib.near.Sgp4(t, o.tle);
    }
  }

  /** The states of a run: near-earth ones depend on their own time, deep-space ones on the run up to them. */
  ghost predicate Traced(f: Formulas, tle: Tle, deepSpace: bool, ts: seq<real>, out: seq<State>) {
    && |out| == |ts|
    && (!deepSpace ==> forall i :: 0 <= i < |ts| ==> out[i] == NearState(f, tle, ts[i]))
    && (deepSpace && KeepsClear(tle, ts) ==>
          forall i :: 0 <= i < |ts| ==> out[i] == TrackedState(f, tle, ts[..i + 1]))
  }

  lemma TracedNext(f: Formulas, tle: Tle, deepSpace: bool, ts: seq<real>, out: seq<State>, t: real, s: State)
    requires Traced(f, tle, deepSpace, ts, out)
    requires !deepSpace ==> s == NearState(f, tle, t)
    requires deepSpace && KeepsClear(tle, ts + [t]) ==> s == TrackedState(f, tle, ts + [t])
    ensures Traced(f, tle, deepSpace, ts + [t], out + [s])
  {
    var next := ts + [t];
    if deepSpace && KeepsClear(tle, next) {
      KeepsClearPrefix(tle, ts, t);
      assert next[..|ts| + 1] == next;
      forall i | 0 <= i < |ts| ensures (out + [s])[i] == TrackedState(f, tle, next[..i + 1]) {
        assert next[..i + 1] == ts[..i + 1];
      }
    }
  }

  /** A prepared satellite tracked call after call, without resetting in between. */
  method Track(lib: Library, o: SatObject, ts: seq<real>) returns (out: seq<State>)
    requires lib.Valid() && o.Ready(lib.f)
    modifies lib.near, lib.deep, lib.flags, lib.deep.integrator, o`tle
    ensures Following(lib, o, ts)
    ensures Traced(lib.f, o.tle, o.deepSpace, ts, out)
  {
    o.Prepare(lib);
    out := [];
    ghost var f, tle, deepSpace := lib.f, o.tle, o.deepSpace;
    for i := 0 to |ts|
      invariant Following(lib, o, ts[..i]) && o.tle == tle && o.deepSpace == deepSpace
      invariant Traced(f, tle, deepSpace, ts[..i], out)
    {
      assert ts[..i] + [ts[i]] == ts[..i + 1];
      var s := Update(lib, o, ts[..i], ts[i]);
      TracedNext(f, tle, deepSpace, ts[..i], out, ts[i], s);
      out := out + [s];
    }
    assert ts[..|ts|] == ts;
  }

  lemma TrackedEqualsFresh(f: Formulas, tle: Tle, ts: seq<real>)
    requires ts != []
    requires StepsBack(ts) == 0 && CacheTime(ts) == ts[|ts| - 1]
    ensures TrackedState(f, tle, ts) == FreshDeepState(f, tle, ts[|ts| - 1])
  {
    NoStepBack(f.rates, OrbitOf(f, tle), ts);
  }

  // ---- A satellite on which history shows ----

  // Its state reports the interpolated mean motion and the time of the periodics; it is in half-day resonance
  // with one nonzero coefficient, and its first step is a full turn of the given sine and cosine.
  const SHOW_TLE := Tle(0.0, 0.0, 0.0, 0.0, 0.0, 0.0, 0.5, 0.0, 5.7686396, 0.0)
  const NO_STATE := State(Vector(0.0, 0.0, 0.0), Vector(0.0, 0.0, 0.0))

  function ShowDeep(turn: real): DeepTerms {
    DeepTerms(0.0, 0.0, 0.0, 0.0, 0.0, 0.0, 0.0, 0.0, 0.0, 0.0, 0.0, 0.0, 0.0,
              0.0, 0.0, 0.0, 0.0, 0.0, turn / STEP + THDT + THDT, 0.0, 0.0, 0.009)
  }

  function Show(sin: real -> real, cos: real -> real, turn: real): Formulas {
    Formulas(
      TrigRates(sin, cos),
      (a, b) => 0.0,
      e => true,
      e => NearTerms(0.0, 0.0, 0.0, 0.0, 0.0, 0.0, 0.0, 0.0, 0.0, 0.0, 0.0,
                     0.0, 0.0, 0.0, 0.0, 0.0, 0.0, 0.0, 0.0, 0.0, 0.0, 0.0),
      e => true,
      e => DragTerms(0.0, 0.0, 0.0, 0.0, 0.0, 0.0),
      (t, e, n) => NO_STATE,
      (t, e, n, d) => NO_STATE,
      e => ShowDeep(turn),
      d => 0.0,
      d => Moon(0.0, 0.0, 0.0, 0.0, 0.0, 0.0, 0.0, 0.0),
      e => Body(0.0, 0.0, 0.0, 0.0, 0.0, 0.0, 0.0, 0.0, 0.0),
      (m, e) => Body(0.0, 0.0, 0.0, 0.0, 0.0, 0.0, 0.0, 0.0, 0.0),
      (b, e, d) => NoPass(),
      (e, d) => SyncTerms(0.0, 0.0, 0.0),
      (e, d) => HalfDayTerms(1.0 / STEP2, 0.0, 0.0, 0.0, 0.0, 0.0, 0.0, 0.0, 0.0, 0.0),
      (t, e, d, s) => Work(0.0, 0.0, 0.0, 0.0, 0.0, 0.0),
      (t, e, d, w) => w,
      (t, m, s, l) => Periodics(t, 0.0, 0.0, 0.0, 0.0, 0.0, 0.0),
      (e: Tle, d: DeepTerms, p: Periodics, w: Work) => w.(xll := p.pe),
      (t: real, e: Tle, d: DeepTerms, w: Work) => State(Vector(w.xn, w.xll, 0.0), Vector(0.0, 0.0, 0.0)))
  }

  lemma ShowOrbit(sin: real -> real, cos: real -> real, turn: real)
    ensures var f := Show(sin, cos, turn); var o := OrbitOf(f, SHOW_TLE);
      IsResonant(f, SHOW_TLE) && OneTerm(o) && STEP * Xldot(o, Epoch(o)) == turn
  {
  }

  lemma ShowIsDoubling(sin: real -> real, cos: real -> real, turn: real)
    requires ObeysLaws(sin, cos) && FullTurn(sin, cos, turn)
    ensures var o := OrbitOf(Show(sin, cos, turn), SHOW_TLE);
      Doubles(TrigRates(sin, cos), o, WholeTurns(sin, cos, o))
  {
    ShowOrbit(sin, cos, turn);
    OneTermDoubles(sin, cos, OrbitOf(Show(sin, cos, turn), SHOW_TLE));
  }

  /** The mean motion the show satellite reports, `ft` after a grid point. */
  function Reported(xni: real, xfact: real, ft: real): real {
    xni + 1.0 / STEP2 * (xni + xfact) * ft * ft * 0.5
  }

  /** Interpolating two mean motions over the same time keeps them apart. */
  lemma ReportsDiffer(x: real, y: real, c: real, ft: real)
    requires x != y
    ensures Reported(x, c, ft) != Reported(y, c, ft)
  {
    var h := 1.0 / STEP2 * ft * ft * 0.5;
    assert h >= 0.0;
    assert 1.0 / STEP2 * (x + c) * ft * ft * 0.5 == h * (x + c);
    assert 1.0 / STEP2 * (y + c) * ft * ft * 0.5 == h * (y + c);
    assert x + h * (x + c) - (y + h * (y + c)) == (x - y) * (1.0 + h);
    assert (x - y) * (1.0 + h) != 0.0;
  }

  /** The state of the show satellite: its interpolated mean motion and what the periodics say. */
  function Shown(f: Formulas, p: Point, per: Periodics, t: real): Vector {
    DeepState(f, SHOW_TLE, p, per, t).pos
  }

  lemma ShownCache(sin: real -> real, cos: real -> real, turn: real, p: Point, of: Tle, u: real, t: real)
    ensures var f := Show(sin, cos, turn); Shown(f, p, PeriodicsAt(f, of, u), t).y == u
  {
  }

  lemma ShownMotion(sin: real -> real, cos: real -> real, turn: real, p: Point, per: Periodics, t: real,
                    xfact: real, ft: real)
    requires p in WholeTurns(sin, cos, OrbitOf(Show(sin, cos, turn), SHOW_TLE))
    requires xfact == OrbitOf(Show(sin, cos, turn), SHOW_TLE).xfact && ft == t - p.atime
    ensures Shown(Show(sin, cos, turn), p, per, t).x == Reported(p.xni, xfact, ft)
  {
    ShowOrbit(sin, cos, turn);
    OneTermDots(sin, cos, OrbitOf(Show(sin, cos, turn), SHOW_TLE), p);
  }

  lemma MotionsDiffer(sin: real -> real, cos: real -> real, turn: real, p: Point, q: Point,
                      per: Periodics, per': Periodics, t: real, xfact: real, ft: real)
    requires var good := WholeTurns(sin, cos, OrbitOf(Show(sin, cos, turn), SHOW_TLE)); p in good && q in good
    requires xfact == OrbitOf(Show(sin, cos, turn), SHOW_TLE).xfact && ft == t - p.atime == t - q.atime
    requires p.xni != q.xni
    ensures Shown(Show(sin, cos, turn), p, per, t) != Shown(Show(sin, cos, turn), q, per', t)
  {
    ShownMotion(sin, cos, turn, p, per, t, xfact, ft);
    ShownMotion(sin, cos, turn, q, per', t, xfact, ft);
    ReportsDiffer(p.xni, q.xni, xfact, ft);
  }

  ghost predicate TrackingIsFresh(f: Formulas, tle: Tle, ts: seq<real>)
    requires ts != []
  {
    TrackedState(f, tle, ts) == FreshDeepState(f, tle, ts[|ts| - 1])
  }

  lemma StepsBackAreShown(sin: real -> real, cos: real -> real, turn: real, ts: seq<real>)
    requires ObeysLaws(sin, cos) && FullTurn(sin, cos, turn) && turn != 0.0 && ts != [] && StepsBack(ts) != 0
    ensures !TrackingIsFresh(Show(sin, cos, turn), SHOW_TLE, ts)
  {
    var f := Show(sin, cos, turn);
    var t, m, o := ts[|ts| - 1], TrigRates(sin, cos), OrbitOf(f, SHOW_TLE);
    var p, q := Run(m, o, ts), FromEpoch(m, o, t);
    PointsDiffer(sin, cos, turn, ts);
    var per, per' := PeriodicsAt(f, SHOW_TLE, CacheTime(ts)), PeriodicsAt(f, SHOW_TLE, t);
    MotionsDiffer(sin, cos, turn, p, q, per, per', t, o.xfact, t - p.atime);
    assert Shown(f, p, per, t) != Shown(f, q, per', t);
  }

  lemma PointsDiffer(sin: real -> real, cos: real -> real, turn: real, ts: seq<real>)
    requires ObeysLaws(sin, cos) && FullTurn(sin, cos, turn) && turn != 0.0 && ts != [] && StepsBack(ts) != 0
    ensures var o := OrbitOf(Show(sin, cos, turn), SHOW_TLE);
      var p, q := Run(TrigRates(sin, cos), o, ts), FromEpoch(TrigRates(sin, cos), o, ts[|ts| - 1]);
      && p in WholeTurns(sin, cos, o) && q in WholeTurns(sin, cos, o)
      && p.atime == q.atime && p.xni != q.xni
  {
    var o := OrbitOf(Show(sin, cos, turn), SHOW_TLE);
    ShowOrbit(sin, cos, turn);
    ShowIsDoubling(sin, cos, turn);
    StepsBackShow(TrigRates(sin, cos), o, WholeTurns(sin, cos, o), ts);
    StepsBackDiffer(TrigRates(sin, cos), o, WholeTurns(sin, cos, o), ts);
  }

  lemma StaleCacheIsShown(sin: real -> real, cos: real -> real, turn: real, ts: seq<real>)
    requires ts != [] && CacheTime(ts) != ts[|ts| - 1]
    ensures !TrackingIsFresh(Show(sin, cos, turn), SHOW_TLE, ts)
  {
    var f, t, u := Show(sin, cos, turn), ts[|ts| - 1], CacheTime(ts);
    var p, q := Run(f.rates, OrbitOf(f, SHOW_TLE), ts), FromEpoch(f.rates, OrbitOf(f, SHOW_TLE), t);
    ShownCache(sin, cos, turn, p, SHOW_TLE, u, t);
    ShownCache(sin, cos, turn, q, SHOW_TLE, t, t);
    assert Shown(f, p, PeriodicsAt(f, SHOW_TLE, u), t) != Shown(f, q, PeriodicsAt(f, SHOW_TLE, t), t);
  }

  /**
   Tracking call after call gives, for every satellite and every set of formulas, the state of a fresh
   process exactly when the integrator has not been stepped back since the epoch and the periodics were
   refilled at the request itself. The same holds for the formulas over any one sine and cosine.
   */
  lemma TrackingIsFreshIff(sin: real -> real, cos: real -> real, ts: seq<real>)
    requires Trigonometric(sin, cos) && ts != []
    ensures (forall f: Formulas, tle: Tle :: f.rates == TrigRates(sin, cos) ==> TrackingIsFresh(f, tle, ts))
       <==> StepsBack(ts) == 0 && CacheTime(ts) == ts[|ts| - 1]
    ensures (forall f: Formulas, tle: Tle :: TrackingIsFresh(f, tle, ts))
       <==> StepsBack(ts) == 0 && CacheTime(ts) == ts[|ts| - 1]
  {
    if StepsBack(ts) == 0 && CacheTime(ts) == ts[|ts| - 1] {
      forall f: Formulas, tle: Tle ensures TrackingIsFresh(f, tle, ts) {
        TrackedEqualsFresh(f, tle, ts);
      }
    } else {
      var turn :| turn != 0.0 && FullTurn(sin, cos, turn);
      if StepsBack(ts) != 0 {
        StepsBackAreShown(sin, cos, turn, ts);
      } else {
        StaleCacheIsShown(sin, cos, turn, ts);
      }
      assert Show(sin, cos, turn).rates == TrigRates(sin, cos);
      assert !TrackingIsFresh(Show(sin, cos, turn), SHOW_TLE, ts);
    }
  }

  // ---- The empty-cache mark ----

  /** A request for a satellite that refills the cache with its own periodics. */
  ghost predicate Leaves(f: Formulas, tle: Tle, u: real) {
    f.isDeep(tle) && LunarDay(tle) != 0.0 && Abs(NEVER - u) >= CACHE_MINUTES
  }

  /** A deep-space request at `t` is not affected by what a request for another satellite at `u` left behind. */
  ghost predicate Undisturbed(f: Formulas, other: Tle, u: real, tle: Tle, t: real) {
    Leaves(f, other, u) && other != tle && f.isDeep(tle) && LunarDay(tle) != 0.0 ==>
      CachedState(f, tle, PeriodicsAt(f, other, u), t) == FreshDeepState(f, tle, t)
  }

  lemma MarkIsShown(sin: real -> real, cos: real -> real, t: real)
    requires Abs(NEVER - t) < CACHE_MINUTES
    ensures !Undisturbed(Show(sin, cos, 0.0), SHOW_TLE.(bstar := 1.0), 0.0, SHOW_TLE, t)
  {
    var f, other := Show(sin, cos, 0.0), SHOW_TLE.(bstar := 1.0);
    LunarDayIsPositive(SHOW_TLE);
    LunarDayIsPositive(other);
    var p := FromEpoch(f.rates, OrbitOf(f, SHOW_TLE), t);
    ShownCache(sin, cos, 0.0, p, other, 0.0, t);
    ShownCache(sin, cos, 0.0, p, SHOW_TLE, t, t);
    assert Shown(f, p, PeriodicsAt(f, other, 0.0), t) != Shown(f, p, PeriodicsAt(f, SHOW_TLE, t), t);
  }

  /**
   Requests at a time are free of interference from another satellite propagated before, for all formulas,
   exactly when the time is not within 30 minutes of the empty-cache mark. The same holds for the formulas
   over any one sine and cosine.
   */
  lemma UndisturbedIff(sin: real -> real, cos: real -> real, t: real)
    ensures (forall f: Formulas, other: Tle, u: real, tle: Tle :: Undisturbed(f, other, u, tle, t))
       <==> Abs(NEVER - t) >= CACHE_MINUTES
    ensures (forall f: Formulas, other: Tle, u: real, tle: Tle ::
               f.rates == TrigRates(sin, cos) ==> Undisturbed(f, other, u, tle, t))
       <==> Abs(NEVER - t) >= CACHE_MINUTES
  {
    if Abs(NEVER - t) < CACHE_MINUTES {
      MarkIsShown(sin, cos, t);
      assert Show(sin, cos, 0.0).rates == TrigRates(sin, cos);
    }
  }

  /** The report of one satellite right after another: what the process computes, in terms of both. */
  method ReportAfter(lib: Library, a: SatObject, ja: real, b: SatObject, jb: real) returns (s: State)
    requires lib.Valid() && a.Ready(lib.f) && b.Ready(lib.f)
    modifies a`tle, b`tle, lib.near, lib.deep, lib.flags, lib.deep.integrator
    ensures lib.Valid() && a.Ready(lib.f) && b.Ready(lib.f)
    ensures Leaves(lib.f, a.tleReady, a.Since(ja)) && (!b.deepSpace || LunarDay(b.tleReady) != 0.0) ==>
      s == ToKilometres(CachedState(lib.f, b.tleReady, PeriodicsAt(lib.f, a.tleReady, a.Since(ja)), b.Since(jb)))
  {
    var first := a.StateAt(lib, ja);
    s := b.StateAt(lib, jb);
  }
}
