/**
 Differential correction: Newton steps with a numerical Jacobian and backtracking, driving the
 propagator to a measured state. The propagator and the two residual norms are parameters.
 */
module DifferentialCorrection {
  import opened Basics
  import opened LinearSystems
  import GaussianElimination

  type Six = s: seq<real> | |s| == 6 witness [0.0, 0.0, 0.0, 0.0, 0.0, 0.0]

  // element order: inclination, node, eccentricity, argument of perigee, mean anomaly, mean motion
  const INCL := 0
  const RAAN := 1
  const ECC := 2
  const ARGP := 3
  const MA := 4
  const N := 5

  const M_PI := 3.141592653589793
  const TOL_POS := 0.0001
  const TOL_VEL := 0.0000001

  /** The residual against the measured state (none for a deep-space period) and its two norms. */
  datatype Problem = Problem(residual: Six -> Option<Six>, pos: Six -> real, vel: Six -> real)

  // ---- Normalised elements ----

  /** The angle reduced to one turn: the C remainder, moved up if negative. */
  function Wrap(a: real): (w: real)
    ensures 0.0 <= w < TWO_PI
  {
    var q := a / TWO_PI;
    var r := a - TWO_PI * Trunc(q) as real;
    if r < 0.0 then r + TWO_PI else r
  }

  function Clamp(x: real, lo: real, hi: real): (y: real)
    requires lo <= hi
    ensures lo <= y <= hi
    ensures lo <= x <= hi ==> y == x
  {
    if x < lo then lo else if x > hi then hi else x
  }

  function Normalize(e: Six): Six {
    [Clamp(e[INCL], 0.0, M_PI), Wrap(e[RAAN]), Clamp(e[ECC], 0.0, 0.99), Wrap(e[ARGP]), Wrap(e[MA]), e[N]]
  }

  predicate InRange(e: Six) {
    && 0.0 <= e[INCL] <= M_PI && 0.0 <= e[ECC] <= 0.99
    && 0.0 <= e[RAAN] < TWO_PI && 0.0 <= e[ARGP] < TWO_PI && 0.0 <= e[MA] < TWO_PI
  }

  lemma WrapIsIdentityOnRange(a: real)
    requires 0.0 <= a < TWO_PI
    ensures Wrap(a) == a
  {
    assert (a / TWO_PI).Floor == 0;
  }

  /** Normalising lands in range, and once is enough. */
  lemma NormalizeIdempotent(e: Six)
    ensures InRange(Normalize(e))
    ensures Normalize(Normalize(e)) == Normalize(e)
  {
    WrapIsIdentityOnRange(Wrap(e[RAAN]));
    WrapIsIdentityOnRange(Wrap(e[ARGP]));
    WrapIsIdentityOnRange(Wrap(e[MA]));
  }

  function Turned(a: real, k: int): real {
    a - TWO_PI * k as real
  }

  /** Wrapping changes an angle by a whole number of turns. */
  lemma WrapKeepsAngle(a: real)
    ensures exists k: int :: Wrap(a) == Turned(a, k)
  {
    var q := a / TWO_PI;
    var t := Trunc(q);
    if a - TWO_PI * t as real < 0.0 {
      assert Wrap(a) == Turned(a, t - 1);
    } else {
      assert Wrap(a) == Turned(a, t);
    }
  }

  // ---- Jacobian ----

  function FdStep(j: nat): (h: real)
    ensures h > 0.0
  {
    if j == ECC then 0.0000001 else if j == N then 0.000000001 else 0.000001
  }

  function Nudged(e: Six, j: nat, h: real): Six
    requires j < 6
  {
    e[j := e[j] + h]
  }

  /** Both evaluations of the central difference in element j succeed. */
  predicate Differentiable(p: Problem, e: Six, j: nat)
    requires j < 6
  {
    p.residual(Nudged(e, j, FdStep(j))).Some? && p.residual(Nudged(e, j, -FdStep(j))).Some?
  }

  function Slope(p: Problem, e: Six, i: nat, j: nat): real
    requires i < 6 && j < 6 && Differentiable(p, e, j)
  {
    var h := FdStep(j);
    (p.residual(Nudged(e, j, h)).value[i] - p.residual(Nudged(e, j, -h)).value[i]) / (2.0 * h)
  }

  ghost predicate AllDifferentiable(p: Problem, e: Six) {
    forall j :: 0 <= j < 6 ==> Differentiable(p, e, j)
  }

  ghost function JacobianOf(p: Problem, e: Six): (m: Matrix)
    requires AllDifferentiable(p, e)
    ensures |m| == 6 && Square(m)
  {
    seq(6, i requires 0 <= i < 6 => seq(6, j requires 0 <= j < 6 => Slope(p, e, i, j)))
  }

  /** Central differences, perturbing the elements in place and putting each one back. */
  method Jacobian(p: Problem, el: array<real>) returns (ok: bool, a: array2<real>)
    requires el.Length == 6
    modifies el
    ensures el[..] == old(el[..]) && fresh(a) && a.Length0 == a.Length1 == 6
    ensures ok <==> AllDifferentiable(p, el[..])
    ensures ok ==> GaussianElimination.Rows(a) == JacobianOf(p, el[..])
  {
    a := new real[6, 6];
    ghost var e: Six := el[..];
    for j := 0 to 6
      invariant el[..] == e
      invariant forall k :: 0 <= k < j ==> Differentiable(p, e, k)
      invariant forall i, k :: 0 <= i < 6 && 0 <= k < j ==> a[i, k] == Slope(p, e, i, k)
    {
      var h := FdStep(j);
      var save := el[j];
      el[j] := save + h;
      assert el[..] == Nudged(e, j, h);
      var gp := p.residual(el[..]);
      if gp.None? {
        el[j] := save;
        assert el[..] == e && !Differentiable(p, e, j);
        return false, a;
      }
      el[j] := save - h;
      assert el[..] == Nudged(e, j, -h);
      var gm := p.residual(el[..]);
      if gm.None? {
        el[j] := save;
        assert el[..] == e && !Differentiable(p, e, j);
        return false, a;
      }
      el[j] := save;
      assert el[..] == e;
      for i := 0 to 6
        invariant el[..] == e
        invariant forall l, k :: 0 <= l < 6 && 0 <= k < j ==> a[l, k] == Slope(p, e, l, k)
        invariant forall l :: 0 <= l < i ==> a[l, j] == Slope(p, e, l, j)
      {
        a[i, j] := (gp.value[i] - gm.value[i]) / (2.0 * h);
      }
    }
    ok := true;
    ghost var m, j := GaussianElimination.Rows(a), JacobianOf(p, e);
    forall i | 0 <= i < 6 ensures m[i] == j[i] {
      assert forall k :: 0 <= k < 6 ==> m[i][k] == a[i, k] == j[i][k];
    }
  }

  // ---- Line search ----

  /** The step length after k halvings. */
  function Lambda(k: nat): real {
    if k == 0 then 1.0 else Lambda(k - 1) * 0.5
  }

  function Twice(x: real, k: nat): real {
    if k == 0 then x else 2.0 * Twice(x, k - 1)
  }

  lemma {:induction false} TwiceHalf(x: real, k: nat)
    ensures Twice(x * 0.5, k + 1) == Twice(x, k)
  {
    if k > 0 {
      TwiceHalf(x, k - 1);
    }
  }

  /** After k halvings the step doubled k times is the whole step. */
  lemma {:induction false} LambdaHalves(k: nat)
    ensures Twice(Lambda(k), k) == 1.0
  {
    if k > 0 {
      LambdaHalves(k - 1);
      TwiceHalf(Lambda(k - 1), k - 1);
    }
  }

  function Along(e: Six, delta: Six, lambda: real): Six {
    Normalize([e[0] + lambda * delta[0], e[1] + lambda * delta[1], e[2] + lambda * delta[2],
               e[3] + lambda * delta[3], e[4] + lambda * delta[4], e[5] + lambda * delta[5]])
  }

  /** A trial that lowers the position residual below `cur`. */
  predicate Improves(p: Problem, e: Six, cur: real) {
    p.residual(e).Some? && p.pos(p.residual(e).value) < cur
  }

  /** The largest of twelve halvings that lowers the position residual. */
  method LineSearch(p: Problem, e: Six, delta: Six, cur: real) returns (found: Option<Six>, ghost k: nat)
    ensures found.Some? ==>
      && k < 12 && found.value == Along(e, delta, Lambda(k)) && Improves(p, found.value, cur)
      && forall l :: 0 <= l < k ==> !Improves(p, Along(e, delta, Lambda(l)), cur)
    ensures found.None? ==> forall l :: 0 <= l < 12 ==> !Improves(p, Along(e, delta, Lambda(l)), cur)
  {
    var lambda := 1.0;
    k := 0;
    for ls := 0 to 12
      invariant lambda == Lambda(ls)
      invariant forall l :: 0 <= l < ls ==> !Improves(p, Along(e, delta, Lambda(l)), cur)
    {
      var trial := Along(e, delta, lambda);
      if Improves(p, trial, cur) {
        return Some(trial), ls;
      }
      lambda := lambda * 0.5;
    }
    found := None;
  }

  // ---- The Newton step and the correction loop ----

  function Negated(g: Six): Six {
    [-g[0], -g[1], -g[2], -g[3], -g[4], -g[5]]
  }

  /** The full step: the one solution of J delta = -g, or none exactly when the elimination refuses J. */
  method NewtonStep(a: array2<real>, g: Six) returns (delta: Option<Six>)
    requires a.Length0 == a.Length1 == 6
    modifies a
    ensures delta.Some? ==> Solves(old(GaussianElimination.Rows(a)), Negated(g), delta.value)
    ensures delta.Some? ==> !Singular(old(GaussianElimination.Rows(a)))
    ensures delta.None? <==> GaussianElimination.Refused(old(GaussianElimination.Rows(a)))
  {
    ghost var m := GaussianElimination.Rows(a);
    var b := new real[6];
    var x := new real[6];
    for i := 0 to 6
      invariant GaussianElimination.Rows(a) == m
      invariant forall k :: 0 <= k < i ==> b[k] == -g[k]
    {
      b[i] := -g[i];
    }
    ghost var rhs := b[..];
    assert rhs == Negated(g);
    var rc := GaussianElimination.Solve(a, b, x);
    if rc != 0 {
      return None;
    }
    delta := Some(x[..]);
  }

  /** The Newton step at e exists and is delta. */
  ghost predicate IsNewtonStep(p: Problem, e: Six, delta: Six) {
    && AllDifferentiable(p, e) && p.residual(e).Some?
    && !GaussianElimination.Refused(JacobianOf(p, e))
    && Solves(JacobianOf(p, e), Negated(p.residual(e).value), delta)
  }

  /** The k-th halving of the step lowers the position residual of e. */
  predicate Helps(p: Problem, e: Six, delta: Six, k: nat) {
    p.residual(e).Some? && Improves(p, Along(e, delta, Lambda(k)), p.pos(p.residual(e).value))
  }

  /** `next` is the longest of twelve halvings of the Newton step at e that lowers the position residual. */
  ghost predicate Follows(p: Problem, e: Six, next: Six) {
    exists delta: Six, k: nat ::
      IsNewtonStep(p, e, delta) && IsLongestHelp(p, e, delta, k) && next == Along(e, delta, Lambda(k))
  }

  ghost predicate IsLongestHelp(p: Problem, e: Six, delta: Six, k: nat) {
    k < 12 && Helps(p, e, delta, k) && forall l :: 0 <= l < k ==> !Helps(p, e, delta, l)
  }

  /** There is nowhere to go from e: the elimination refuses its Jacobian, or no halving of the step helps. */
  ghost predicate Stalls(p: Problem, e: Six) {
    && AllDifferentiable(p, e)
    && (|| GaussianElimination.Refused(JacobianOf(p, e))
        || exists delta: Six :: IsNewtonStep(p, e, delta) && forall l :: 0 <= l < 12 ==> !Helps(p, e, delta, l))
  }

  lemma FollowsImproves(p: Problem, e: Six, next: Six)
    requires Follows(p, e, next)
    ensures p.residual(e).Some? && Improves(p, next, p.pos(p.residual(e).value)) && InRange(next)
  {
    var delta: Six, k: nat :|
      IsNewtonStep(p, e, delta) && IsLongestHelp(p, e, delta, k) && next == Along(e, delta, Lambda(k));
    AlongInRange(e, delta, Lambda(k));
  }

  /**
   A run of iterates: each later one is the longest useful halving of the Newton step at the one before; it is in
   range and has a strictly smaller position residual than all before it.
   */
  ghost predicate Descent(p: Problem, trace: seq<Six>) {
    && trace != []
    && (forall i :: 0 <= i < |trace| ==> p.residual(trace[i]).Some?)
    && (forall i, j :: 0 <= i < j < |trace| ==>
          p.pos(p.residual(trace[j]).value) < p.pos(p.residual(trace[i]).value))
    && (forall i :: 1 <= i < |trace| ==> InRange(trace[i]) && Follows(p, trace[i - 1], trace[i]))
  }

  lemma DescentExtends(p: Problem, trace: seq<Six>, e: Six)
    requires Descent(p, trace) && Follows(p, trace[|trace| - 1], e)
    ensures Descent(p, trace + [e])
  {
    FollowsImproves(p, trace[|trace| - 1], e);
  }

  predicate Converged(p: Problem, g: Six) {
    p.pos(g) < TOL_POS && p.vel(g) < TOL_VEL
  }

  /**
   One round: the next iterate follows by a halved Newton step, or there is none because the elements stall;
   `failed` exactly when a nudge is not evaluable.
   */
  method Round(p: Problem, el: array<real>, g: Six) returns (failed: bool, next: Option<Six>)
    requires el.Length == 6 && p.residual(el[..]) == Some(g)
    modifies el
    ensures el[..] == old(el[..])
    ensures failed <==> !AllDifferentiable(p, el[..])
    ensures failed ==> next.None?
    ensures next.Some? ==> Follows(p, el[..], next.value)
    ensures next.None? && !failed ==> Stalls(p, el[..])
  {
    var ok, a := Jacobian(p, el);
    if !ok {
      return true, None;
    }
    var e: Six := el[..];
    var step := NewtonStep(a, g);
    if step.None? {
      return false, None;
    }
    assert IsNewtonStep(p, e, step.value);
    ghost var k;
    next, k := LineSearch(p, e, step.value, p.pos(g));
    assert next.Some? ==> IsLongestHelp(p, e, step.value, k);
    failed := false;
  }

  lemma AlongInRange(e: Six, d: Six, l: real)
    ensures InRange(Along(e, d, l))
  {
    NormalizeIdempotent([e[0] + l * d[0], e[1] + l * d[1], e[2] + l * d[2],
                         e[3] + l * d[3], e[4] + l * d[4], e[5] + l * d[5]]);
  }

  /** Copy six values into the elements. */
  method Assign(el: array<real>, e: Six)
    requires el.Length == 6
    modifies el
    ensures el[..] == e
  {
    for j := 0 to 6
      invariant forall k :: 0 <= k < j ==> el[k] == e[k]
    {
      el[j] := e[j];
    }
  }

  /**
   The correction loop. `trace` is the run of accepted iterates; the elements handed back are its last,
   so they have the least position residual of all, and the reported norms are theirs. Without convergence
   either all iterations were used or the last elements stall; the loop fails only where a nudge is not evaluable.
   */
  method Fit(p: Problem, el: array<real>, maxIter: int)
    returns (rc: int, outPos: real, outVel: real, ghost trace: seq<Six>)
    requires el.Length == 6
    modifies el
    ensures rc == -1 || rc == 0 || rc == 1
    ensures p.residual(old(el[..])).None? ==> rc == -1 && el[..] == old(el[..])
    ensures p.residual(old(el[..])).Some? ==>
      Descent(p, trace) && trace[0] == old(el[..]) && trace[|trace| - 1] == el[..]
    ensures |trace| <= (if maxIter < 0 then 0 else maxIter) + 1
    ensures forall i :: 0 <= i < |trace| - 1 ==> p.residual(trace[i]).Some? && !Converged(p, p.residual(trace[i]).value)
    ensures rc == -1 ==> p.residual(old(el[..])).None? || !AllDifferentiable(p, el[..])
    ensures rc == 0 ==> |trace| == (if maxIter < 0 then 0 else maxIter) + 1 || Stalls(p, el[..])
    ensures rc != -1 ==>
      && p.residual(el[..]).Some?
      && outPos == p.pos(p.residual(el[..]).value) && outVel == p.vel(p.residual(el[..]).value)
      && (rc == 1 <==> outPos < TOL_POS && outVel < TOL_VEL)
  {
    trace := [];
    outPos, outVel := 0.0, 0.0;
    var r := p.residual(el[..]);
    if r.None? {
      return -1, 0.0, 0.0, trace;
    }
    var g := r.value;
    var bestEl: Six := el[..];
    var bestPos := p.pos(g);
    var converged := Converged(p, g);
    trace := [bestEl];
    var iter := 0;
    ghost var stalled := false;
    while iter < maxIter && !converged
      invariant Descent(p, trace) && trace[0] == old(el[..]) && trace[|trace| - 1] == el[..]
      invariant bestEl == el[..] && p.residual(bestEl) == Some(g) && bestPos == p.pos(g)
      invariant converged == Converged(p, g)
      invariant forall i :: 0 <= i < |trace| - 1 ==>
        p.residual(trace[i]).Some? && !Converged(p, p.residual(trace[i]).value)
      invariant |trace| == iter + 1 && iter <= (if maxIter < 0 then 0 else maxIter) && !stalled
    {
      var failed, next := Round(p, el, g);
      if failed {
        return -1, 0.0, 0.0, trace;
      }
      if next.None? {
        stalled := true;
        break;
      }
      FollowsImproves(p, el[..], next.value);
      DescentExtends(p, trace, next.value);
      trace := trace + [next.value];
      Assign(el, next.value);
      g := p.residual(next.value).value;
      var pr := p.pos(g);
      if pr < bestPos {
        bestPos := pr;
        bestEl := el[..];
      }
      converged := Converged(p, g);
      iter := iter + 1;
    }
    assert stalled ==> Stalls(p, bestEl);
    Assign(el, bestEl);
    outPos := p.pos(p.residual(el[..]).value);
    outVel := p.vel(p.residual(el[..]).value);
    rc := if converged then 1 else 0;
  }

  // ---- A linear problem is solved in one iteration ----

  /** How far x is from z. */
  function Offset(x: Six, z: Six): Six {
    Minus(x, 1.0, z)
  }

  /** The residual at x is M (x - z). */
  ghost predicate AffineAt(p: Problem, m: Matrix, z: Six, x: Six)
    requires |m| == 6 && Square(m)
  {
    p.residual(x).Some? && forall i :: 0 <= i < 6 ==> p.residual(x).value[i] == Dot(m[i], Offset(x, z), 0, 6)
  }

  ghost predicate Affine(p: Problem, m: Matrix, z: Six) {
    |m| == 6 && Square(m) && forall x: Six :: AffineAt(p, m, z, x)
  }

  lemma {:induction false} DotNudged(u: Row, y: Row, j: nat, h: real, hi: nat)
    requires hi <= |u| && hi <= |y| && j < |y| && j < |u|
    ensures Dot(u, y[j := y[j] + h], 0, hi) == Dot(u, y, 0, hi) + if j < hi then u[j] * h else 0.0
    decreases hi
  {
    if hi > 0 {
      DotNudged(u, y, j, h, hi - 1);
      if j == hi - 1 {
        assert u[j] * (y[j] + h) == u[j] * y[j] + u[j] * h;
      }
    }
  }

  lemma OffsetNudged(e: Six, z: Six, j: nat, h: real)
    requires j < 6
    ensures var y := Offset(e, z); Offset(Nudged(e, j, h), z) == y[j := y[j] + h]
  {
    var y, n := Offset(e, z), Nudged(e, j, h);
    forall i | 0 <= i < 6 ensures Offset(n, z)[i] == y[j := y[j] + h][i] {
    }
  }

  lemma NudgedResidual(p: Problem, m: Matrix, z: Six, e: Six, i: nat, j: nat, h: real)
    requires Affine(p, m, z) && i < 6 && j < 6
    ensures p.residual(Nudged(e, j, h)).Some?
    ensures p.residual(Nudged(e, j, h)).value[i] == Dot(m[i], Offset(e, z), 0, 6) + m[i][j] * h
  {
    var y := Offset(e, z);
    assert AffineAt(p, m, z, Nudged(e, j, h));
    OffsetNudged(e, z, j, h);
    DotNudged(m[i], y, j, h, 6);
  }

  lemma CentralDifference(a: real, s: real, h: real)
    requires h > 0.0
    ensures ((a + s * h) - (a + s * -h)) / (2.0 * h) == s
  {
    assert (a + s * h) - (a + s * -h) == s * (2.0 * h);
  }

  /** Central differences of a linear residual are its matrix, whatever the step. */
  lemma JacobianIs(p: Problem, m: Matrix, z: Six, e: Six)
    requires Affine(p, m, z)
    ensures AllDifferentiable(p, e) && JacobianOf(p, e) == m
  {
    forall j | 0 <= j < 6 ensures Differentiable(p, e, j) {
      NudgedResidual(p, m, z, e, 0, j, FdStep(j));
      NudgedResidual(p, m, z, e, 0, j, -FdStep(j));
    }
    forall i, j | 0 <= i < 6 && 0 <= j < 6 ensures Slope(p, e, i, j) == m[i][j] {
      NudgedResidual(p, m, z, e, i, j, FdStep(j));
      NudgedResidual(p, m, z, e, i, j, -FdStep(j));
      CentralDifference(Dot(m[i], Offset(e, z), 0, 6), m[i][j], FdStep(j));
    }
    var n := JacobianOf(p, e);
    forall i | 0 <= i < 6 ensures n[i] == m[i] {
      assert forall j :: 0 <= j < 6 ==> n[i][j] == Slope(p, e, i, j);
    }
  }

  /** The Newton step of a linear problem goes straight to its solution. */
  lemma NewtonStepIs(p: Problem, m: Matrix, z: Six, e: Six, delta: Six)
    requires Affine(p, m, z) && IsNewtonStep(p, e, delta)
    ensures forall i :: 0 <= i < 6 ==> delta[i] == z[i] - e[i]
  {
    JacobianIs(p, m, z, e);
    var y := Offset(e, z);
    var w := Plus(delta, y);
    forall i | 0 <= i < 6 ensures Dot(m[i], w, 0, 6) == 0.0 {
      DotPlus(m[i], delta, y, 6);
      assert AffineAt(p, m, z, e);
      assert Dot(m[i], delta, 0, 6) == Negated(p.residual(e).value)[i];
    }
    assert Solves(m, Zeros(6), w);
    GaussianElimination.NotRefusedIsNonsingular(m);
    assert w == Zeros(6);
    forall i | 0 <= i < 6 ensures delta[i] == z[i] - e[i] {
      assert w[i] == delta[i] + y[i] && y[i] == e[i] - 1.0 * z[i];
    }
  }

  lemma NormalizeInRange(z: Six)
    requires InRange(z)
    ensures Normalize(z) == z
  {
    WrapIsIdentityOnRange(z[RAAN]);
    WrapIsIdentityOnRange(z[ARGP]);
    WrapIsIdentityOnRange(z[MA]);
  }

  /** A full Newton step of a linear problem with its solution in range lands on the solution. */
  lemma FullStepLands(p: Problem, m: Matrix, z: Six, e: Six, delta: Six)
    requires Affine(p, m, z) && InRange(z) && IsNewtonStep(p, e, delta)
    ensures Along(e, delta, Lambda(0)) == z
  {
    NewtonStepIs(p, m, z, e, delta);
    NormalizeInRange(z);
    assert Lambda(0) == 1.0;
    assert [e[0] + 1.0 * delta[0], e[1] + 1.0 * delta[1], e[2] + 1.0 * delta[2],
            e[3] + 1.0 * delta[3], e[4] + 1.0 * delta[4], e[5] + 1.0 * delta[5]] == z;
  }

  /** z is better than every other point. */
  ghost predicate IsBestPoint(p: Problem, z: Six) {
    p.residual(z).Some? && forall e: Six :: p.residual(e).Some? && e != z ==> Improves(p, z, p.pos(p.residual(e).value))
  }

  /** From any other point, the step accepted is the solution itself, and there is one. */
  lemma NextIsSolution(p: Problem, m: Matrix, z: Six, e: Six)
    requires Affine(p, m, z) && InRange(z) && !GaussianElimination.Refused(m) && IsBestPoint(p, z) && e != z
    ensures !Stalls(p, e)
    ensures forall next :: Follows(p, e, next) ==> next == z
  {
    JacobianIs(p, m, z, e);
    assert AffineAt(p, m, z, e);
    forall delta: Six | IsNewtonStep(p, e, delta) ensures Helps(p, e, delta, 0) && Along(e, delta, Lambda(0)) == z {
      FullStepLands(p, m, z, e, delta);
    }
    forall next | Follows(p, e, next) ensures next == z {
      var delta: Six, k: nat :|
        IsNewtonStep(p, e, delta) && IsLongestHelp(p, e, delta, k) && next == Along(e, delta, Lambda(k));
      assert Helps(p, e, delta, 0);
      assert k == 0;
    }
  }

  /** No run of iterates goes past the solution. */
  lemma DescentEndsAtSolution(p: Problem, m: Matrix, z: Six, trace: seq<Six>)
    requires Affine(p, m, z) && InRange(z) && !GaussianElimination.Refused(m) && IsBestPoint(p, z)
    requires Descent(p, trace)
    ensures |trace| <= 2 && (|trace| == 2 ==> trace[1] == z)
  {
    assert forall i :: 0 <= i < |trace| - 1 ==> trace[i] != z by {
      forall i | 0 <= i < |trace| - 1 ensures trace[i] != z {
        assert p.pos(p.residual(trace[i + 1]).value) < p.pos(p.residual(trace[i]).value);
        assert trace[i + 1] != z ==> Improves(p, z, p.pos(p.residual(trace[i + 1]).value));
      }
    }
    if |trace| >= 2 {
      NextIsSolution(p, m, z, trace[0]);
      assert Follows(p, trace[1 - 1], trace[1]);
    }
  }

  /**
   A linear problem whose matrix the elimination does not refuse, with its solution in range, is fitted: unless the
   start is already within tolerance, one iteration lands on the solution and the fit reports convergence.
   */
  method FitLinear(p: Problem, el: array<real>, maxIter: int, ghost m: Matrix, ghost z: Six)
    returns (rc: int, outPos: real, outVel: real)
    requires el.Length == 6 && maxIter >= 1
    requires Affine(p, m, z) && InRange(z) && !GaussianElimination.Refused(m) && IsBestPoint(p, z)
    requires Converged(p, p.residual(z).value)
    modifies el
    ensures rc == 1 && p.residual(old(el[..])).Some?
    ensures el[..] == if Converged(p, p.residual(old(el[..])).value) then old(el[..]) else z
  {
    ghost var trace;
    ghost var e: Six := el[..];
    assert AffineAt(p, m, z, e);
    rc, outPos, outVel, trace := Fit(p, el, maxIter);
    DescentEndsAtSolution(p, m, z, trace);
    JacobianIs(p, m, z, el[..]);
    if |trace| == 1 && e != z {
      NextIsSolution(p, m, z, e);
    }
  }
}
