/**
 The trigonometric sums behind the resonance's dot terms: the second sum is the derivative of the first with respect
 to the mean longitude, harmonic by harmonic. Derivatives are stated by the addition laws: moving the longitude by h
 turns a sum and its derivative by the harmonic's multiple of h.
 */
module ResonanceSums {
  import opened Resonance
  import opened ResonanceRuns

  /** A value and its derivative, turned by the angle h as a sine and its derivative are. */
  function Turned(sin: real -> real, cos: real -> real, t: real, t': real, h: real): Dots {
    Dots(t * cos(h) + t' * sin(h), t' * cos(h) - t * sin(h))
  }

  predicate TurnedBy(sin: real -> real, cos: real -> real, t: real, t': real, s: real, s': real, h: real) {
    Dots(s, s') == Turned(sin, cos, t, t', h)
  }

  /** One term, moved along by the angle h. */
  lemma TermTurns(sin: real -> real, cos: real -> real, d: real, x: real, h: real, y: real)
    requires ObeysLaws(sin, cos) && y == x + h
    ensures TurnedBy(sin, cos, d * sin(x), d * cos(x), d * sin(y), d * cos(y), h)
  {
    assert Adds(sin, cos, x, h);
    assert d * (sin(x) * cos(h) + cos(x) * sin(h)) == (d * sin(x)) * cos(h) + (d * cos(x)) * sin(h);
    assert d * (cos(x) * cos(h) - sin(x) * sin(h)) == (d * cos(x)) * cos(h) - (d * sin(x)) * sin(h);
  }

  lemma TurnedAdd(sin: real -> real, cos: real -> real, h: real, t: real, t': real, s: real, s': real,
                  u: real, u': real, v: real, v': real)
    requires TurnedBy(sin, cos, t, t', s, s', h) && TurnedBy(sin, cos, u, u', v, v', h)
    ensures TurnedBy(sin, cos, t + u, t' + u', s + v, s' + v', h)
  {
    assert (t + u) * cos(h) == t * cos(h) + u * cos(h) && (t' + u') * sin(h) == t' * sin(h) + u' * sin(h);
    assert (t' + u') * cos(h) == t' * cos(h) + u' * cos(h) && (t + u) * sin(h) == t * sin(h) + u * sin(h);
  }

  // ---- Sums of terms ----

  /** A sum of terms d[i] f(x[i]). */
  function Terms(f: real -> real, d: seq<real>, x: seq<real>): real
    requires |d| == |x|
  {
    if d == [] then 0.0 else Terms(f, d[..|d| - 1], x[..|d| - 1]) + d[|d| - 1] * f(x[|d| - 1])
  }

  /** Every angle of y is the one of x moved by h. */
  ghost predicate Moved(x: seq<real>, y: seq<real>, h: real) {
    |y| == |x| && forall i :: 0 <= i < |x| ==> y[i] == x[i] + h
  }

  lemma TermsNext(sin: real -> real, cos: real -> real, d: real, x: real, y: real, h: real,
                  t: real, t': real, s: real, s': real)
    requires ObeysLaws(sin, cos) && y == x + h && TurnedBy(sin, cos, t, t', s, s', h)
    ensures TurnedBy(sin, cos, t + d * sin(x), t' + d * cos(x), s + d * sin(y), s' + d * cos(y), h)
  {
    TermTurns(sin, cos, d, x, h, y);
    TurnedAdd(sin, cos, h, t, t', s, s', d * sin(x), d * cos(x), d * sin(y), d * cos(y));
  }

  lemma {:induction false} TermsTurn(sin: real -> real, cos: real -> real, d: seq<real>, x: seq<real>, y: seq<real>,
                                     h: real)
    requires ObeysLaws(sin, cos) && |d| == |x| && Moved(x, y, h)
    ensures TurnedBy(sin, cos, Terms(sin, d, x), Terms(cos, d, x), Terms(sin, d, y), Terms(cos, d, y), h)
    decreases |d|
  {
    if d != [] {
      var n := |d| - 1;
      var e, v, w := d[..n], x[..n], y[..n];
      TermsTurn(sin, cos, e, v, w, h);
      TermsNext(sin, cos, d[n], x[n], y[n], h, Terms(sin, e, v), Terms(cos, e, v), Terms(sin, e, w), Terms(cos, e, w));
    } else {
      assert 0.0 * cos(h) + 0.0 * sin(h) == 0.0 && 0.0 * cos(h) - 0.0 * sin(h) == 0.0;
    }
  }

  lemma FourTerms(f: real -> real, d: seq<real>, x: seq<real>)
    requires |d| == |x| == 4
    ensures Terms(f, d, x) == d[0] * f(x[0]) + d[1] * f(x[1]) + d[2] * f(x[2]) + d[3] * f(x[3])
  {
    TwoTerms(f, d[..2], x[..2]);
    assert d[..3][..2] == d[..2] && x[..3][..2] == x[..2];
    assert Terms(f, d[..3], x[..3]) == Terms(f, d[..2], x[..2]) + d[2] * f(x[2]);
  }

  lemma TwoTerms(f: real -> real, d: seq<real>, x: seq<real>)
    requires |d| == |x| == 2
    ensures Terms(f, d, x) == d[0] * f(x[0]) + d[1] * f(x[1])
  {
    assert Terms(f, d[..1], x[..1]) == Terms(f, d[..1][..0], x[..1][..0]) + d[0] * f(x[0]);
  }

  lemma SixTerms(f: real -> real, d: seq<real>, x: seq<real>)
    requires |d| == |x| == 6
    ensures Terms(f, d, x) == d[0] * f(x[0]) + d[1] * f(x[1]) + d[2] * f(x[2]) + d[3] * f(x[3]) + d[4] * f(x[4])
                              + d[5] * f(x[5])
  {
    FourTerms(f, d[..4], x[..4]);
    assert d[..5][..4] == d[..4] && x[..5][..4] == x[..4];
    assert Terms(f, d[..5], x[..5]) == Terms(f, d[..4], x[..4]) + d[4] * f(x[4]);
  }

  // ---- Half-day resonance ----

  function SingleTerms(c: HalfDayTerms): seq<real> {
    [c.d2201, c.d2211, c.d3210, c.d3222, c.d5220, c.d5232]
  }

  function SingleAngles(xomi: real, xli: real): seq<real> {
    [xomi + xomi + xli - 5.7686396, xli - 5.7686396, xomi + xli - 0.95240898,
     -xomi + xli - 0.95240898, xomi + xli - 1.0508330, -xomi + xli - 1.0508330]
  }

  lemma SingleSumIs(f: real -> real, c: HalfDayTerms, xomi: real, xli: real)
    ensures HalfDaySum(f, c, xomi, xli) == Terms(f, SingleTerms(c), SingleAngles(xomi, xli))
  {
    SixTerms(f, SingleTerms(c), SingleAngles(xomi, xli));
  }

  function DoubleTerms(c: HalfDayTerms): seq<real> {
    [c.d4410, c.d4422, c.d5421, c.d5433]
  }

  function DoubleAngles(xomi: real, xli: real): seq<real> {
    [xomi + xomi + (xli + xli) - 1.8014998, xli + xli - 1.8014998,
     xomi + (xli + xli) - 4.4108898, -xomi + (xli + xli) - 4.4108898]
  }

  lemma DoubleSumIs(f: real -> real, c: HalfDayTerms, xomi: real, xli: real)
    ensures HalfDayDoubleSum(f, c, xomi, xli) == Terms(f, DoubleTerms(c), DoubleAngles(xomi, xli))
  {
    FourTerms(f, DoubleTerms(c), DoubleAngles(xomi, xli));
  }

  /** A longitude h further moves the angles of the single part by h and those of the double part by twice h. */
  lemma AnglesMove(xomi: real, xli: real, h: real)
    ensures Moved(SingleAngles(xomi, xli), SingleAngles(xomi, xli + h), h)
    ensures Moved(DoubleAngles(xomi, xli), DoubleAngles(xomi, xli + h), 2.0 * h)
  {
  }

  /** The single-longitude sum and its derivative, and the double-longitude ones. */
  function Single(sin: real -> real, cos: real -> real, c: HalfDayTerms, xomi: real, xli: real): Dots {
    Dots(HalfDaySum(sin, c, xomi, xli), HalfDaySum(cos, c, xomi, xli))
  }

  function Double(sin: real -> real, cos: real -> real, c: HalfDayTerms, xomi: real, xli: real): Dots {
    Dots(HalfDayDoubleSum(sin, c, xomi, xli), HalfDayDoubleSum(cos, c, xomi, xli))
  }

  function Both(sin: real -> real, cos: real -> real, d: seq<real>, x: seq<real>): Dots
    requires |d| == |x|
  {
    Dots(Terms(sin, d, x), Terms(cos, d, x))
  }

  /** Both half-day parts are sums of terms over the same angles for the sum and for its derivative. */
  lemma HalfDayParts(sin: real -> real, cos: real -> real, c: HalfDayTerms, xomi: real, xli: real)
    ensures Single(sin, cos, c, xomi, xli) == Both(sin, cos, SingleTerms(c), SingleAngles(xomi, xli))
    ensures Double(sin, cos, c, xomi, xli) == Both(sin, cos, DoubleTerms(c), DoubleAngles(xomi, xli))
  {
    SingleSumIs(sin, c, xomi, xli);
    SingleSumIs(cos, c, xomi, xli);
    DoubleSumIs(sin, c, xomi, xli);
    DoubleSumIs(cos, c, xomi, xli);
  }

  /** Terms whose angles all move by h turn by h. */
  lemma BothTurn(sin: real -> real, cos: real -> real, d: seq<real>, x: seq<real>, y: seq<real>, h: real, p: Dots)
    requires ObeysLaws(sin, cos) && |d| == |x| && Moved(x, y, h) && p == Both(sin, cos, d, x)
    ensures Both(sin, cos, d, y) == Turned(sin, cos, p.xndot, p.curvature, h)
  {
    TermsTurn(sin, cos, d, x, y, h);
  }

  // ---- One-day resonance ----

  /** The one-day dot terms turn with one harmonic: the first sum by n h, with the second sum n times its derivative. */
  ghost predicate Harmonic(sin: real -> real, cos: real -> real, p: Dots, q: Dots, n: real, h: real)
    requires n != 0.0
  {
    TurnedBy(sin, cos, p.xndot, p.curvature / n, q.xndot, q.curvature / n, n * h)
  }

  lemma HarmonicFrom(sin: real -> real, cos: real -> real, d: real, x: real, y: real, n: real, h: real,
                     p: Dots, q: Dots)
    requires ObeysLaws(sin, cos) && n != 0.0 && y == x + n * h
    requires p == Dots(d * sin(x), n * (d * cos(x))) && q == Dots(d * sin(y), n * (d * cos(y)))
    ensures Harmonic(sin, cos, p, q, n, h)
  {
    assert p.curvature / n == d * cos(x) && q.curvature / n == d * cos(y);
    TermTurns(sin, cos, d, x, n * h, y);
  }

  lemma FirstHarmonic(sin: real -> real, cos: real -> real, d: real, x: real)
    ensures var a := x - 0.13130908;
      SyncDots(sin, cos, SyncTerms(d, 0.0, 0.0), x) == Dots(d * sin(a), 1.0 * (d * cos(a)))
  {
  }

  lemma SecondHarmonic(sin: real -> real, cos: real -> real, d: real, x: real)
    ensures var a := 2.0 * (x - 2.8843198);
      SyncDots(sin, cos, SyncTerms(0.0, d, 0.0), x) == Dots(d * sin(a), 2.0 * (d * cos(a)))
  {
    assert 2.0 * d * cos(2.0 * (x - 2.8843198)) == 2.0 * (d * cos(2.0 * (x - 2.8843198)));
  }

  lemma ThirdHarmonic(sin: real -> real, cos: real -> real, d: real, x: real)
    ensures var a := 3.0 * (x - 0.37448087);
      SyncDots(sin, cos, SyncTerms(0.0, 0.0, d), x) == Dots(d * sin(a), 3.0 * (d * cos(a)))
  {
    assert 3.0 * d * cos(3.0 * (x - 0.37448087)) == 3.0 * (d * cos(3.0 * (x - 0.37448087)));
  }

  /** Each coefficient of the one-day sums is a harmonic of its own. */
  lemma SyncTurns(sin: real -> real, cos: real -> real, d: real, x: real, h: real)
    requires ObeysLaws(sin, cos)
    ensures var c := SyncTerms(d, 0.0, 0.0);
      Harmonic(sin, cos, SyncDots(sin, cos, c, x), SyncDots(sin, cos, c, x + h), 1.0, h)
    ensures var c := SyncTerms(0.0, d, 0.0);
      Harmonic(sin, cos, SyncDots(sin, cos, c, x), SyncDots(sin, cos, c, x + h), 2.0, h)
    ensures var c := SyncTerms(0.0, 0.0, d);
      Harmonic(sin, cos, SyncDots(sin, cos, c, x), SyncDots(sin, cos, c, x + h), 3.0, h)
  {
    SyncTurnsFirst(sin, cos, d, x, h);
    SyncTurnsSecond(sin, cos, d, x, h);
    SyncTurnsThird(sin, cos, d, x, h);
  }

  lemma SyncTurnsFirst(sin: real -> real, cos: real -> real, d: real, x: real, h: real)
    requires ObeysLaws(sin, cos)
    ensures var c := SyncTerms(d, 0.0, 0.0);
      Harmonic(sin, cos, SyncDots(sin, cos, c, x), SyncDots(sin, cos, c, x + h), 1.0, h)
  {
    var c := SyncTerms(d, 0.0, 0.0);
    FirstHarmonic(sin, cos, d, x);
    FirstHarmonic(sin, cos, d, x + h);
    HarmonicFrom(sin, cos, d, x - 0.13130908, x + h - 0.13130908, 1.0, h,
                 SyncDots(sin, cos, c, x), SyncDots(sin, cos, c, x + h));
  }

  lemma SyncTurnsSecond(sin: real -> real, cos: real -> real, d: real, x: real, h: real)
    requires ObeysLaws(sin, cos)
    ensures var c := SyncTerms(0.0, d, 0.0);
      Harmonic(sin, cos, SyncDots(sin, cos, c, x), SyncDots(sin, cos, c, x + h), 2.0, h)
  {
    var c := SyncTerms(0.0, d, 0.0);
    SecondHarmonic(sin, cos, d, x);
    SecondHarmonic(sin, cos, d, x + h);
    HarmonicFrom(sin, cos, d, 2.0 * (x - 2.8843198), 2.0 * (x + h - 2.8843198), 2.0, h,
                 SyncDots(sin, cos, c, x), SyncDots(sin, cos, c, x + h));
  }

  lemma SyncTurnsThird(sin: real -> real, cos: real -> real, d: real, x: real, h: real)
    requires ObeysLaws(sin, cos)
    ensures var c := SyncTerms(0.0, 0.0, d);
      Harmonic(sin, cos, SyncDots(sin, cos, c, x), SyncDots(sin, cos, c, x + h), 3.0, h)
  {
    var c := SyncTerms(0.0, 0.0, d);
    ThirdHarmonic(sin, cos, d, x);
    ThirdHarmonic(sin, cos, d, x + h);
    HarmonicFrom(sin, cos, d, 3.0 * (x - 0.37448087), 3.0 * (x + h - 0.37448087), 3.0, h,
                 SyncDots(sin, cos, c, x), SyncDots(sin, cos, c, x + h));
  }
}
