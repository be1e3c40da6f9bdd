/**
 The rotations between the inertial, Earth-fixed and topocentric frames, and the orientation vectors of
 the propagator. Sines and cosines enter only through sin^2 + cos^2 = 1.
 */
module Frames {
  import opened Basics

  /** An angle by its sine and cosine. */
  datatype Trig = Trig(sin: real, cos: real)

  type Angle = a: Trig | a.sin * a.sin + a.cos * a.cos == 1.0 witness Trig(0.0, 1.0)

  const MFACTOR := 0.00007292115

  function Add(u: Vector, v: Vector): Vector {
    Vector(u.x + v.x, u.y + v.y, u.z + v.z)
  }

  function Dot(u: Vector, v: Vector): real {
    u.x * v.x + u.y * v.y + u.z * v.z
  }

  // ---- Rotation in a plane ----

  datatype Pair = Pair(p: real, q: real)

  /** Coordinates of a point in axes turned by an angle. */
  function Turn(a: Angle, u: real, v: real): Pair {
    Pair(a.cos * u + a.sin * v, a.cos * v - a.sin * u)
  }

  function TurnBack(a: Angle, p: real, q: real): Pair {
    Pair(a.cos * p - a.sin * q, a.sin * p + a.cos * q)
  }

  lemma TurnInverts(a: Angle, u: real, v: real)
    ensures TurnBack(a, Turn(a, u, v).p, Turn(a, u, v).q) == Pair(u, v)
    ensures Turn(a, TurnBack(a, u, v).p, TurnBack(a, u, v).q) == Pair(u, v)
  {
    var c, s := a.cos, a.sin;
    Regroup(c, s, u, v);
    assert c * (c * u + s * v) - s * (c * v - s * u) == u && s * (c * u + s * v) + c * (c * v - s * u) == v;
    Regroup(c, -s, u, v);
    assert c * (c * u - s * v) + s * (s * u + c * v) == u && c * (s * u + c * v) - s * (c * u - s * v) == v;
  }

  /** c(cu + sv) - s(cv - su) = (cc + ss)u, and its companion. */
  lemma Regroup(c: real, s: real, u: real, v: real)
    ensures c * (c * u + s * v) - s * (c * v - s * u) == (s * s + c * c) * u
    ensures s * (c * u + s * v) + c * (c * v - s * u) == (s * s + c * c) * v
  {
    assert c * (c * u + s * v) == (c * c) * u + (c * s) * v;
    assert s * (c * v - s * u) == (c * s) * v - (s * s) * u;
    assert s * (c * u + s * v) == (c * s) * u + (s * s) * v;
    assert c * (c * v - s * u) == (c * c) * v - (c * s) * u;
  }

  lemma Square(a: real, b: real, u: real, v: real)
    ensures (a * u + b * v) * (a * u + b * v) == (a * a) * (u * u) + 2.0 * ((a * b) * (u * v)) + (b * b) * (v * v)
  {
    assert (a * u) * (a * u) == (a * a) * (u * u);
    assert (a * u) * (b * v) == (a * b) * (u * v);
    assert (b * v) * (b * v) == (b * b) * (v * v);
  }

  /** (cu + sv)^2 + (cv - su)^2 = (ss + cc)(uu + vv). */
  lemma SumOfSquares(c: real, s: real, u: real, v: real)
    requires s * s + c * c == 1.0
    ensures (c * u + s * v) * (c * u + s * v) + (c * v - s * u) * (c * v - s * u) == u * u + v * v
  {
    Square(c, s, u, v);
    Square(c, -s, v, u);
    assert (c * c) * (u * u) + (s * s) * (u * u) == (s * s + c * c) * (u * u);
    assert (c * c) * (v * v) + (s * s) * (v * v) == (s * s + c * c) * (v * v);
  }

  lemma TurnKeepsLength(a: Angle, u: real, v: real)
    ensures Turn(a, u, v).p * Turn(a, u, v).p + Turn(a, u, v).q * Turn(a, u, v).q == u * u + v * v
  {
    SumOfSquares(a.cos, a.sin, u, v);
  }

  // ---- Topocentric frame ----

  /** South, east and zenith components of a range vector. */
  function ToTopocentric(lat: Angle, theta: Angle, r: Vector): Vector {
    Vector(lat.sin * theta.cos * r.x + lat.sin * theta.sin * r.y - lat.cos * r.z,
        -theta.sin * r.x + theta.cos * r.y,
        lat.cos * theta.cos * r.x + lat.cos * theta.sin * r.y + lat.sin * r.z)
  }

  /** The direction cosines of a horizon direction, turned back to the inertial frame. */
  function FromTopocentric(lat: Angle, theta: Angle, h: Vector): Vector {
    Vector(lat.sin * theta.cos * h.x + -theta.sin * h.y + theta.cos * lat.cos * h.z,
        lat.sin * theta.sin * h.x + theta.cos * h.y + theta.sin * lat.cos * h.z,
        -lat.cos * h.x + 0.0 * h.y + lat.sin * h.z)
  }

  /** Both are a turn about the polar axis and one about the east axis. */
  lemma TopocentricIsTwoTurns(lat: Angle, theta: Angle, r: Vector)
    ensures var h := Turn(theta, r.x, r.y);
      ToTopocentric(lat, theta, r) == Vector(lat.sin * h.p - lat.cos * r.z, h.q, lat.cos * h.p + lat.sin * r.z)
  {
    var p := theta.cos * r.x + theta.sin * r.y;
    assert lat.sin * p == lat.sin * theta.cos * r.x + lat.sin * theta.sin * r.y;
    assert lat.cos * p == lat.cos * theta.cos * r.x + lat.cos * theta.sin * r.y;
  }

  lemma InertialIsTwoTurns(lat: Angle, theta: Angle, h: Vector)
    ensures var p, z := lat.sin * h.x + lat.cos * h.z, lat.sin * h.z - lat.cos * h.x;
      var g := TurnBack(theta, p, h.y);
      FromTopocentric(lat, theta, h) == Vector(g.p, g.q, z)
  {
    var p := lat.sin * h.x + lat.cos * h.z;
    assert theta.cos * p == lat.sin * theta.cos * h.x + theta.cos * lat.cos * h.z;
    assert theta.sin * p == lat.sin * theta.sin * h.x + theta.sin * lat.cos * h.z;
  }

  /** The latitude turn and its inverse. */
  lemma TiltInverts(lat: Angle, p: real, z: real)
    ensures var s, t := lat.sin * p - lat.cos * z, lat.cos * p + lat.sin * z;
      lat.sin * s + lat.cos * t == p && lat.sin * t - lat.cos * s == z
    ensures var s, t := lat.sin * p + lat.cos * z, lat.sin * z - lat.cos * p;
      lat.sin * s - lat.cos * t == p && lat.cos * s + lat.sin * t == z
  {
    Regroup(lat.sin, -lat.cos, p, z);
    Regroup(lat.sin, lat.cos, p, z);
  }

  /** The two rotations undo each other, in both orders. */
  lemma TopocentricInverts(lat: Angle, theta: Angle, r: Vector)
    ensures FromTopocentric(lat, theta, ToTopocentric(lat, theta, r)) == r
    ensures ToTopocentric(lat, theta, FromTopocentric(lat, theta, r)) == r
  {
    BackFromTopocentric(lat, theta, r);
    BackFromInertial(lat, theta, r);
  }

  lemma BackFromTopocentric(lat: Angle, theta: Angle, r: Vector)
    ensures FromTopocentric(lat, theta, ToTopocentric(lat, theta, r)) == r
  {
    var g, t := Turn(theta, r.x, r.y), ToTopocentric(lat, theta, r);
    assert t == Vector(lat.sin * g.p - lat.cos * r.z, g.q, lat.cos * g.p + lat.sin * r.z) by {
      TopocentricIsTwoTurns(lat, theta, r);
    }
    assert lat.sin * t.x + lat.cos * t.z == g.p && lat.sin * t.z - lat.cos * t.x == r.z by {
      TiltInverts(lat, g.p, r.z);
    }
    var k := TurnBack(theta, g.p, g.q);
    assert FromTopocentric(lat, theta, t) == Vector(k.p, k.q, r.z) by { InertialIsTwoTurns(lat, theta, t); }
    TurnInverts(theta, r.x, r.y);
  }

  lemma BackFromInertial(lat: Angle, theta: Angle, h: Vector)
    ensures ToTopocentric(lat, theta, FromTopocentric(lat, theta, h)) == h
  {
    var p, z := lat.sin * h.x + lat.cos * h.z, lat.sin * h.z - lat.cos * h.x;
    var g := TurnBack(theta, p, h.y);
    assert FromTopocentric(lat, theta, h) == Vector(g.p, g.q, z) by { InertialIsTwoTurns(lat, theta, h); }
    assert Turn(theta, g.p, g.q) == Pair(p, h.y) by { TurnInverts(theta, p, h.y); }
    TopocentricOfTurned(lat, theta, g, Pair(p, h.y), z);
    TiltBack(lat, h.x, h.z, p, z);
  }

  lemma TopocentricOfTurned(lat: Angle, theta: Angle, g: Pair, k: Pair, z: real)
    requires Turn(theta, g.p, g.q) == k
    ensures ToTopocentric(lat, theta, Vector(g.p, g.q, z))
         == Vector(lat.sin * k.p - lat.cos * z, k.q, lat.cos * k.p + lat.sin * z)
  {
    TopocentricIsTwoTurns(lat, theta, Vector(g.p, g.q, z));
  }

  lemma TiltBack(lat: Angle, x: real, y: real, p: real, z: real)
    requires p == lat.sin * x + lat.cos * y && z == lat.sin * y - lat.cos * x
    ensures lat.sin * p - lat.cos * z == x && lat.cos * p + lat.sin * z == y
  {
    TiltInverts(lat, x, y);
  }

  /**
   The topocentric vector has the length of the range, so its zenith part never exceeds it; and the rotation
   used for right ascension keeps length too.
   */
  lemma TopocentricKeepsLength(lat: Angle, theta: Angle, r: Vector)
    ensures var t := ToTopocentric(lat, theta, r);
      Dot(t, t) == Dot(r, r) && t.z * t.z <= Dot(r, r)
    ensures Dot(FromTopocentric(lat, theta, r), FromTopocentric(lat, theta, r)) == Dot(r, r)
  {
    ForwardKeepsLength(lat, theta, r);
    ForwardKeepsLength(lat, theta, FromTopocentric(lat, theta, r));
    TopocentricInverts(lat, theta, r);
  }

  lemma ForwardKeepsLength(lat: Angle, theta: Angle, r: Vector)
    ensures var t := ToTopocentric(lat, theta, r);
      Dot(t, t) == Dot(r, r) && t.z * t.z <= Dot(r, r)
  {
    var t, g := ToTopocentric(lat, theta, r), Turn(theta, r.x, r.y);
    TopocentricIsTwoTurns(lat, theta, r);
    TurnKeepsLength(theta, r.x, r.y);
    TiltKeepsLength(lat, g.p, r.z);
  }

  lemma TiltKeepsLength(lat: Angle, p: real, z: real)
    ensures var s, t := lat.sin * p - lat.cos * z, lat.cos * p + lat.sin * z;
      s * s + t * t == p * p + z * z
  {
    SumOfSquares(lat.cos, lat.sin, p, z);
    var s, s' := lat.sin * p - lat.cos * z, lat.cos * z - lat.sin * p;
    assert s == -s';
    assert s * s == s' * s';
  }

  // ---- Earth-fixed frame ----

  function EcefPosition(theta: Angle, r: Vector): Vector {
    Vector(theta.cos * r.x - theta.sin * r.y, theta.sin * r.x + theta.cos * r.y, r.z)
  }

  function EcefVelocity(theta: Angle, r: Vector, v: Vector): Vector {
    var p := EcefPosition(theta, r);
    Vector(theta.cos * v.x - theta.sin * v.y - MFACTOR * p.y,
        theta.sin * v.x + theta.cos * v.y + MFACTOR * p.x,
        v.z)
  }

  /** The velocity of a station at rest on the ground. */
  function StationVelocity(p: Vector): Vector {
    Vector(-MFACTOR * p.y, MFACTOR * p.x, 0.0)
  }

  /** The Earth-fixed rotation keeps distance, and a point at rest gets the station's velocity. */
  lemma EcefKeepsLength(theta: Angle, r: Vector)
    ensures Dot(EcefPosition(theta, r), EcefPosition(theta, r)) == Dot(r, r)
    ensures EcefVelocity(theta, r, Vector(0.0, 0.0, 0.0)) == StationVelocity(EcefPosition(theta, r))
  {
    var back: Angle := Trig(-theta.sin, theta.cos);
    TurnKeepsLength(back, r.x, r.y);
  }

  /**
   Turning an Earth-fixed vector into the inertial frame and looking at it from the station cancels the sidereal
   angle: only the tilt of the latitude is left.
   */
  lemma StationSees(lat: Angle, theta: Angle, r: Vector)
    ensures ToTopocentric(lat, theta, EcefPosition(theta, r))
         == Vector(lat.sin * r.x - lat.cos * r.z, r.y, lat.cos * r.x + lat.sin * r.z)
  {
    assert TurnBack(theta, r.x, r.y) == Pair(EcefPosition(theta, r).x, EcefPosition(theta, r).y);
    TurnInverts(theta, r.x, r.y);
    TopocentricOfTurned(lat, theta, TurnBack(theta, r.x, r.y), Pair(r.x, r.y), r.z);
  }

  /** The station's own up, east and south, Earth-fixed on its meridian, are zenith, east and south of its sky. */
  lemma StationAxes(lat: Angle, theta: Angle)
    ensures ToTopocentric(lat, theta, EcefPosition(theta, Vector(lat.cos, 0.0, lat.sin))) == Vector(0.0, 0.0, 1.0)
    ensures ToTopocentric(lat, theta, EcefPosition(theta, Vector(0.0, 1.0, 0.0))) == Vector(0.0, 1.0, 0.0)
    ensures ToTopocentric(lat, theta, EcefPosition(theta, Vector(lat.sin, 0.0, -lat.cos))) == Vector(1.0, 0.0, 0.0)
  {
    StationSees(lat, theta, Vector(lat.cos, 0.0, lat.sin));
    StationSees(lat, theta, Vector(0.0, 1.0, 0.0));
    StationSees(lat, theta, Vector(lat.sin, 0.0, -lat.cos));
    assert lat.sin * lat.cos - lat.cos * lat.sin == 0.0;
  }

  /** The velocity of a moving point is its own, turned, plus that of the ground under it. */
  lemma EcefVelocityAdds(theta: Angle, r: Vector, v: Vector)
    ensures EcefVelocity(theta, r, v) == Add(EcefPosition(theta, v), StationVelocity(EcefPosition(theta, r)))
  {
  }

  // ---- Orientation vectors of the propagator ----

  function Node(node: Angle): Vector {
    Vector(node.cos, node.sin, 0.0)
  }

  function Ahead(node: Angle, incl: Angle): Vector {
    Vector(-node.sin * incl.cos, node.cos * incl.cos, incl.sin)
  }

  function U(node: Angle, incl: Angle, u: Angle): Vector {
    var m := Ahead(node, incl);
    Vector(m.x * u.sin + node.cos * u.cos, m.y * u.sin + node.sin * u.cos, incl.sin * u.sin)
  }

  function V(node: Angle, incl: Angle, u: Angle): Vector {
    var m := Ahead(node, incl);
    Vector(m.x * u.cos - node.cos * u.sin, m.y * u.cos - node.sin * u.sin, incl.sin * u.cos)
  }

  function Velocity(rdotk: real, rfdotk: real, u: Vector, v: Vector): Vector {
    Vector(rdotk * u.x + rfdotk * v.x, rdotk * u.y + rfdotk * v.y, rdotk * u.z + rfdotk * v.z)
  }

  lemma DotLinear(a: real, m: Vector, b: real, n: Vector, w: Vector)
    ensures Dot(Add(Scale(a, m), Scale(b, n)), w) == a * Dot(m, w) + b * Dot(n, w)
  {
    assert (a * m.x + b * n.x) * w.x == a * (m.x * w.x) + b * (n.x * w.x);
    assert (a * m.y + b * n.y) * w.y == a * (m.y * w.y) + b * (n.y * w.y);
    assert (a * m.z + b * n.z) * w.z == a * (m.z * w.z) + b * (n.z * w.z);
    assert a * Dot(m, w) == a * (m.x * w.x) + a * (m.y * w.y) + a * (m.z * w.z);
    assert b * Dot(n, w) == b * (n.x * w.x) + b * (n.y * w.y) + b * (n.z * w.z);
  }

  lemma DotCommutes(u: Vector, v: Vector)
    ensures Dot(u, v) == Dot(v, u)
  {
  }

  ghost predicate Orthonormal(m: Vector, n: Vector) {
    Dot(m, m) == 1.0 && Dot(n, n) == 1.0 && Dot(m, n) == 0.0
  }

  /** Products of combinations of an orthonormal pair. */
  lemma CombinationDot(m: Vector, n: Vector, a: real, b: real, c: real, d: real)
    requires Orthonormal(m, n)
    ensures Dot(Add(Scale(a, m), Scale(b, n)), Add(Scale(c, m), Scale(d, n))) == a * c + b * d
  {
    var w := Add(Scale(c, m), Scale(d, n));
    DotLinear(a, m, b, n, w);
    DotCommutes(m, w);
    DotCommutes(n, w);
    DotCommutes(m, n);
    DotLinear(c, m, d, n, m);
    DotLinear(c, m, d, n, n);
    assert Dot(m, w) == c && Dot(n, w) == d;
  }

  lemma NodeFrame(node: Angle, incl: Angle)
    ensures Orthonormal(Ahead(node, incl), Node(node))
  {
    var m := Ahead(node, incl);
    var c2 := incl.cos * incl.cos;
    assert m.x * m.x == (node.sin * node.sin) * c2;
    assert m.y * m.y == (node.cos * node.cos) * c2;
    assert (node.sin * node.sin) * c2 + (node.cos * node.cos) * c2 == (node.sin * node.sin + node.cos * node.cos) * c2;
    assert m.x * node.cos + m.y * node.sin == 0.0;
  }

  /** The orientation vectors are orthonormal. */
  lemma OrientationOrthonormal(node: Angle, incl: Angle, u: Angle)
    ensures Orthonormal(U(node, incl, u), V(node, incl, u))
  {
    NodeFrame(node, incl);
    OrientationIs(node, incl, u);
    TurnedPair(Ahead(node, incl), Node(node), u);
  }

  function Cross(u: Vector, v: Vector): Vector {
    Vector(u.y * v.z - u.z * v.y, u.z * v.x - u.x * v.z, u.x * v.y - u.y * v.x)
  }

  /** One component of the cross product of a turned pair. */
  lemma TurnedCross(u: Angle, a: real, b: real, c: real, d: real)
    ensures (u.sin * a + u.cos * b) * (u.cos * c + -u.sin * d) - (u.sin * c + u.cos * d) * (u.cos * a + -u.sin * b)
         == b * c - d * a
  {
    var s2, c2, sc := u.sin * u.sin, u.cos * u.cos, u.sin * u.cos;
    assert (u.sin * a) * (u.cos * c) == sc * (a * c) && (u.sin * a) * (-u.sin * d) == -(s2 * (a * d));
    assert (u.cos * b) * (u.cos * c) == c2 * (b * c) && (u.cos * b) * (-u.sin * d) == -(sc * (b * d));
    assert (u.sin * c) * (u.cos * a) == sc * (a * c) && (u.sin * c) * (-u.sin * b) == -(s2 * (b * c));
    assert (u.cos * d) * (u.cos * a) == c2 * (a * d) && (u.cos * d) * (-u.sin * b) == -(sc * (b * d));
    assert s2 * (b * c) + c2 * (b * c) == (s2 + c2) * (b * c);
    assert s2 * (a * d) + c2 * (a * d) == (s2 + c2) * (a * d);
  }

  /**
   Position and motion turn the right way about the orbit normal, which leans from the pole by the inclination;
   at the node the satellite is on the line of nodes, going up.
   */
  lemma OrientationNormal(node: Angle, incl: Angle, u: Angle)
    ensures Cross(U(node, incl, u), V(node, incl, u))
         == Vector(node.sin * incl.sin, -node.cos * incl.sin, incl.cos)
    ensures u.sin == 0.0 && u.cos == 1.0 ==> U(node, incl, u) == Node(node) && V(node, incl, u) == Ahead(node, incl)
  {
    OrientationIs(node, incl, u);
    CrossOfTurned(Ahead(node, incl), Node(node), u);
    NodeNormal(node, incl);
  }

  lemma CrossOfTurned(m: Vector, n: Vector, u: Angle)
    ensures Cross(Add(Scale(u.sin, m), Scale(u.cos, n)), Add(Scale(u.cos, m), Scale(-u.sin, n))) == Cross(n, m)
  {
    var p, q := Add(Scale(u.sin, m), Scale(u.cos, n)), Add(Scale(u.cos, m), Scale(-u.sin, n));
    CrossFrom(m, n, u, p, q);
  }

  /** p and q are a and b turned. */
  ghost predicate Turned(u: Angle, a: real, b: real, p: real, q: real) {
    p == u.sin * a + u.cos * b && q == u.cos * a + -u.sin * b
  }

  lemma CrossPart(u: Angle, a: real, b: real, c: real, d: real, p: real, r: real, q: real, s: real)
    requires Turned(u, a, b, p, q) && Turned(u, c, d, r, s)
    ensures p * s - r * q == b * c - d * a
  {
    TurnedCross(u, a, b, c, d);
  }

  lemma CrossFrom(m: Vector, n: Vector, u: Angle, p: Vector, q: Vector)
    requires Turned(u, m.x, n.x, p.x, q.x) && Turned(u, m.y, n.y, p.y, q.y) && Turned(u, m.z, n.z, p.z, q.z)
    ensures Cross(p, q) == Cross(n, m)
  {
    CrossPart(u, m.y, n.y, m.z, n.z, p.y, p.z, q.y, q.z);
    CrossPart(u, m.z, n.z, m.x, n.x, p.z, p.x, q.z, q.x);
    CrossPart(u, m.x, n.x, m.y, n.y, p.x, p.y, q.x, q.y);
  }

  lemma NodeNormal(node: Angle, incl: Angle)
    ensures Cross(Node(node), Ahead(node, incl)) == Vector(node.sin * incl.sin, -node.cos * incl.sin, incl.cos)
  {
    var c2, s2 := node.cos * node.cos, node.sin * node.sin;
    assert node.cos * (node.cos * incl.cos) == c2 * incl.cos && node.sin * (-node.sin * incl.cos) == -(s2 * incl.cos);
    assert c2 * incl.cos + s2 * incl.cos == (s2 + c2) * incl.cos;
  }

  lemma OrientationIs(node: Angle, incl: Angle, u: Angle)
    ensures var m, n := Ahead(node, incl), Node(node);
      && U(node, incl, u) == Add(Scale(u.sin, m), Scale(u.cos, n))
      && V(node, incl, u) == Add(Scale(u.cos, m), Scale(-u.sin, n))
  {
  }

  /** Turning an orthonormal pair in its plane keeps it orthonormal. */
  lemma TurnedPair(m: Vector, n: Vector, u: Angle)
    requires Orthonormal(m, n)
    ensures Orthonormal(Add(Scale(u.sin, m), Scale(u.cos, n)), Add(Scale(u.cos, m), Scale(-u.sin, n)))
  {
    CombinationDot(m, n, u.sin, u.cos, u.sin, u.cos);
    CombinationDot(m, n, u.cos, -u.sin, u.cos, -u.sin);
    CombinationDot(m, n, u.sin, u.cos, u.cos, -u.sin);
  }

  /** Distance, speed and radial rate of the state are those the propagator computed in the orbit plane. */
  lemma StateGeometry(node: Angle, incl: Angle, u: Angle, rk: real, rdotk: real, rfdotk: real)
    ensures var uu, vv := U(node, incl, u), V(node, incl, u);
      var pos, vel := Scale(rk, uu), Velocity(rdotk, rfdotk, uu, vv);
      && Dot(pos, pos) == rk * rk
      && Dot(pos, vel) == rk * rdotk
      && Dot(vel, vel) == rdotk * rdotk + rfdotk * rfdotk
  {
    var uu, vv := U(node, incl, u), V(node, incl, u);
    OrientationOrthonormal(node, incl, u);
    assert Scale(rk, uu) == Add(Scale(rk, uu), Scale(0.0, vv));
    CombinationDot(uu, vv, rk, 0.0, rk, 0.0);
    CombinationDot(uu, vv, rk, 0.0, rdotk, rfdotk);
    CombinationDot(uu, vv, rdotk, rfdotk, rdotk, rfdotk);
  }

  /** One component of position and velocity made of the orientation vectors. */
  ghost predicate Moving(r: real, a: real, b: real, x: real, v: real, p: real, q: real) {
    p == r * x && q == a * x + b * v
  }

  lemma CrossOfMotion(r: real, a: real, b: real, x: real, y: real, v: real, w: real,
                      px: real, py: real, qx: real, qy: real, k: real)
    requires Moving(r, a, b, x, v, px, qx) && Moving(r, a, b, y, w, py, qy) && k == r * b
    ensures px * qy - py * qx == k * (x * w - y * v)
  {
    assert px * qy == (r * x) * (a * y) + (r * x) * (b * w) && py * qx == (r * y) * (a * x) + (r * y) * (b * v);
    assert (r * x) * (a * y) == (r * a) * (x * y) && (r * y) * (a * x) == (r * a) * (x * y);
    assert (r * x) * (b * w) == k * (x * w) && (r * y) * (b * v) == k * (y * v);
    assert k * (x * w - y * v) == k * (x * w) - k * (y * v);
  }

  /** The motion about the Earth is along the orbit normal, the distance times the transverse rate. */
  lemma AngularMomentum(node: Angle, incl: Angle, u: Angle, rk: real, rdotk: real, rfdotk: real)
    ensures var uu, vv := U(node, incl, u), V(node, incl, u);
      Cross(Scale(rk, uu), Velocity(rdotk, rfdotk, uu, vv))
      == Scale(rk * rfdotk, Vector(node.sin * incl.sin, -node.cos * incl.sin, incl.cos))
  {
    OrientationNormal(node, incl, u);
    MomentumOf(U(node, incl, u), V(node, incl, u), rk, rdotk, rfdotk);
  }

  lemma MomentumOf(u: Vector, v: Vector, r: real, a: real, b: real)
    ensures Cross(Scale(r, u), Velocity(a, b, u, v)) == Scale(r * b, Cross(u, v))
  {
    MomentumFrom(u, v, r, a, b, Scale(r, u), Velocity(a, b, u, v), r * b);
  }

  lemma MomentumFrom(u: Vector, v: Vector, r: real, a: real, b: real, p: Vector, q: Vector, k: real)
    requires k == r * b && Moving(r, a, b, u.x, v.x, p.x, q.x)
    requires Moving(r, a, b, u.y, v.y, p.y, q.y) && Moving(r, a, b, u.z, v.z, p.z, q.z)
    ensures Cross(p, q) == Scale(k, Cross(u, v))
  {
    CrossOfMotion(r, a, b, u.y, u.z, v.y, v.z, p.y, p.z, q.y, q.z, k);
    CrossOfMotion(r, a, b, u.z, u.x, v.z, v.x, p.z, p.x, q.z, q.x, k);
    CrossOfMotion(r, a, b, u.x, u.y, v.x, v.y, p.x, p.y, q.x, q.y, k);
  }
}
