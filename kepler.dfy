/** Orbital elements, mean motion and mean anomaly, the two-tier Kepler solve,
    and the orbital-plane position and velocity of src/smallBodies.js:87-108
    and 158-172. Angles in the elements are degrees; everything after the
    conversion by RAD is radians. */
module Kepler {
  import opened External
  import opened Geometry

  /** An entry's `elements` record: semi-major axis (AU), eccentricity,
      inclination, ascending node, argument of periapsis and mean anomaly at
      epoch (all degrees), and the epoch (Julian Day). */
  datatype Elements = Elements(a: real, e: real, i: real, Omega: real, w: real, M0: real, epoch: real)

  /** The elliptical orbits the kernel is written for. */
  predicate Elliptic(el: Elements) {
    0.0 < el.a && 0.0 <= el.e < 1.0
  }

  /** RAD = Math.PI / 180 (line 7). */
  function Rad(m: MathFns): real {
    m.pi / 180.0
  }

  /** An angle of the elements, in degrees, converted to radians. */
  function Radians(m: MathFns, degrees: real): real {
    degrees * Rad(m)
  }

  /** n = K / a / sqrt(a) in radians per day (lines 73, 94, 165). */
  function MeanMotion(m: MathFns, lib: Astronomia, a: real): (n: real)
    requires WellBehaved(m, lib) && 0.0 < a
    ensures 0.0 < n
  {
    assert 0.0 < m.sqrt(a);
    lib.K / a / m.sqrt(a)
  }

  /** M = M0 * RAD + n * (jd - epoch) (lines 93-95, 164-166). */
  function MeanAnomaly(m: MathFns, lib: Astronomia, el: Elements, jd: real): real
    requires WellBehaved(m, lib) && Elliptic(el)
  {
    Radians(m, el.M0) + MeanMotion(m, lib, el.a) * (jd - el.epoch)
  }

  /** Eccentric anomaly: `kepler2b(e, M, 8)`, and `kepler3(e, M)` when that
      throws (lines 96-101, 167-172). Total: no input makes it fail. */
  function SolveKepler(lib: Astronomia, e: real, M: real): real {
    match lib.kepler2b(e, M, 8)
    case Some(E) => E
    case None => lib.kepler3(e, M)
  }

  /** The eccentric anomaly of the body at `jd`. */
  function KeplerAnomaly(m: MathFns, lib: Astronomia, el: Elements, jd: real): real
    requires WellBehaved(m, lib) && Elliptic(el)
  {
    SolveKepler(lib, el.e, MeanAnomaly(m, lib, el, jd))
  }

  /** E is a root of Kepler's equation M = E - e sin E to within `tol`. */
  ghost predicate KeplerRoot(m: MathFns, e: real, M: real, E: real, tol: real) {
    -tol <= E - e * m.sin(E) - M <= tol
  }

  /** Position and velocity in the orbital plane. */
  datatype PlaneState = PlaneState(pos: Plane, vel: Plane)

  /** Lines 105-106, from sin E and cos E (the pair `ecc`) and
      q = sqrt(1 - e^2). */
  function OrbitalPosition(a: real, e: real, ecc: Rot, q: real): Plane {
    Plane(a * (ecc.c - e), a * q * ecc.s)
  }

  /** The divisor 1 - e cos E of lines 107-108, positive on an elliptical
      orbit. */
  function Denominator(e: real, ecc: Rot): (d: real)
    requires 0.0 <= e < 1.0 && -1.0 <= ecc.c <= 1.0
    ensures 0.0 < d
  {
    assert e * (1.0 - ecc.c) >= 0.0;
    1.0 - e * ecc.c
  }

  /** Lines 107-108, with the mean motion n. */
  function OrbitalVelocity(a: real, e: real, n: real, ecc: Rot, q: real): Plane
    requires 0.0 <= e < 1.0 && -1.0 <= ecc.c <= 1.0
  {
    Plane(-a * n * ecc.s / Denominator(e, ecc), a * n * q * ecc.c / Denominator(e, ecc))
  }

  /** sin E and cos E of the body at `jd` (lines 102-103). */
  function EccentricRot(m: MathFns, lib: Astronomia, el: Elements, jd: real): Rot
    requires WellBehaved(m, lib) && Elliptic(el)
  {
    var E := KeplerAnomaly(m, lib, el, jd);
    Rot(m.sin(E), m.cos(E))
  }

  /** r = a (1 - e cos E) (line 104). */
  function Radius(a: real, e: real, ecc: Rot): real {
    a * (1.0 - e * ecc.c)
  }

  /** q = sqrt(1 - e^2), the ratio of the minor to the major axis (line 105). */
  function AxisRatio(m: MathFns, e: real): real {
    m.sqrt(1.0 - e * e)
  }

  /** The orbital-plane state of the body at `jd` (lines 102-108). */
  function OrbitalStateAt(m: MathFns, lib: Astronomia, el: Elements, jd: real): PlaneState
    requires WellBehaved(m, lib) && Elliptic(el)
  {
    var ecc := EccentricRot(m, lib, el, jd);
    var q := AxisRatio(m, el.e);
    PlaneState(OrbitalPosition(el.a, el.e, ecc, q), OrbitalVelocity(el.a, el.e, MeanMotion(m, lib, el.a), ecc, q))
  }

  // ---------------------------------------------------------------------------
  // Properties

  /** At the epoch the mean anomaly is the element M0 converted to radians. */
  lemma MeanAnomalyAtEpoch(m: MathFns, lib: Astronomia, el: Elements)
    requires WellBehaved(m, lib) && Elliptic(el)
    ensures MeanAnomaly(m, lib, el, el.epoch) == Radians(m, el.M0)
  {
  }

  /** The mean anomaly advances linearly in time at the mean motion. */
  lemma MeanAnomalyAdvance(m: MathFns, lib: Astronomia, el: Elements, jd: real, dt: real)
    requires WellBehaved(m, lib) && Elliptic(el)
    ensures MeanAnomaly(m, lib, el, jd + dt) == MeanAnomaly(m, lib, el, jd) + MeanMotion(m, lib, el.a) * dt
  {
  }

  /** The two-tier solve: the primary answer when kepler2b returns, the
      fallback's otherwise; and when the tier that answers returns a root of
      Kepler's equation, so does the solve. */
  lemma SolveKeplerFallback(m: MathFns, lib: Astronomia, e: real, M: real, tol: real)
    ensures lib.kepler2b(e, M, 8).None? ==> SolveKepler(lib, e, M) == lib.kepler3(e, M)
    ensures lib.kepler2b(e, M, 8).Some? ==> SolveKepler(lib, e, M) == lib.kepler2b(e, M, 8).value
    ensures && (lib.kepler2b(e, M, 8).Some? ==> KeplerRoot(m, e, M, lib.kepler2b(e, M, 8).value, tol))
            && (lib.kepler2b(e, M, 8).None? ==> KeplerRoot(m, e, M, lib.kepler3(e, M), tol))
            ==> KeplerRoot(m, e, M, SolveKepler(lib, e, M), tol)
  {
  }

  /** With exact sines, cosines and square roots, (sin E, cos E) is a unit
      pair and q = sqrt(1 - e^2) squares back to 1 - e^2. */
  lemma ExactOrbit(m: MathFns, lib: Astronomia, el: Elements, jd: real)
    requires WellBehaved(m, lib) && Exact(m) && Elliptic(el)
    ensures Unit(EccentricRot(m, lib, el, jd))
    ensures AxisRatio(m, el.e) * AxisRatio(m, el.e) == 1.0 - el.e * el.e
  {
    var e := el.e;
    var x := 1.0 - e * e;
    assert 0.0 <= x by { assert e * e <= e * 1.0; }
    assert m.sqrt(x) * m.sqrt(x) == x;
  }

  /** The orbital-plane position lies at distance r = a(1 - e cos E) from the
      focus, the `r` computed (and left unused) on line 104. */
  lemma OrbitalRadius(a: real, e: real, ecc: Rot, q: real)
    requires Unit(ecc) && q * q == 1.0 - e * e
    ensures var p := OrbitalPosition(a, e, ecc, q);
            Dot2(p, p) == Sq(Radius(a, e, ecc))
  {
    calc {
      Dot2(OrbitalPosition(a, e, ecc, q), OrbitalPosition(a, e, ecc, q));
      (a * (ecc.c - e)) * (a * (ecc.c - e)) + (a * q * ecc.s) * (a * q * ecc.s);
      a * a * ((ecc.c - e) * (ecc.c - e) + (q * q) * (ecc.s * ecc.s));
      a * a * ((ecc.c - e) * (ecc.c - e) + (1.0 - e * e) * (1.0 - ecc.c * ecc.c));
      a * a * ((1.0 - e * ecc.c) * (1.0 - e * ecc.c));
      Sq(Radius(a, e, ecc));
    }
  }

  /** The velocity is k (-sin E, q cos E) with k (1 - e cos E) = a n. */
  lemma VelocityFactored(a: real, e: real, n: real, ecc: Rot, q: real)
    requires 0.0 <= e < 1.0 && -1.0 <= ecc.c <= 1.0
    ensures var d := Denominator(e, ecc);
            var k := a * n / d;
            && OrbitalVelocity(a, e, n, ecc, q) == Plane(-(k * ecc.s), k * q * ecc.c)
            && k * d == a * n
            && d == 1.0 - e * ecc.c
  {
    var d := Denominator(e, ecc);
    QuotientFactor(-(a * n), ecc.s, d);
    QuotientFactor(a * n * q, ecc.c, d);
    QuotientFactor(a * n, q, d);
  }

  /** (x * y) / d == (x / d) * y */
  lemma QuotientFactor(x: real, y: real, d: real)
    requires d != 0.0
    ensures (x * y) / d == (x / d) * y
  {
  }

  /** The vis-viva relation v^2 = mu (2/r - 1/a) between the squared speed,
      the distance r, the mean motion n and the semi-major axis a, with
      mu = n^2 a^3 and written without division. */
  predicate VisViva(speed2: real, r: real, n: real, a: real) {
    speed2 * r == n * n * a * a * (2.0 * a - r)
  }

  /** Every point of the orbital-plane solution satisfies vis-viva. */
  lemma OrbitalVisViva(a: real, e: real, n: real, ecc: Rot, q: real)
    requires Unit(ecc) && q * q == 1.0 - e * e && 0.0 <= e < 1.0 && -1.0 <= ecc.c <= 1.0
    ensures var v := OrbitalVelocity(a, e, n, ecc, q);
            VisViva(Dot2(v, v), Radius(a, e, ecc), n, a)
  {
    VelocityFactored(a, e, n, ecc, q);
    var d := Denominator(e, ecc);
    SpeedIdentity(a, e, n, ecc.s, ecc.c, q, a * n / d, d);
  }

  lemma SpeedIdentity(a: real, e: real, n: real, s: real, c: real, q: real, k: real, d: real)
    requires s * s + c * c == 1.0 && q * q == 1.0 - e * e && k * d == a * n && d == 1.0 - e * c
    ensures (-(k * s) * -(k * s) + (k * q * c) * (k * q * c)) * (a * (1.0 - e * c))
            == n * n * a * a * (2.0 * a - a * (1.0 - e * c))
  {
    calc {
      -(k * s) * -(k * s) + (k * q * c) * (k * q * c);
      k * k * (s * s + (q * q) * (c * c));
      k * k * ((1.0 - c * c) + (1.0 - e * e) * (c * c));
      k * k * (d * (1.0 + e * c));
    }
    calc {
      (k * k * (d * (1.0 + e * c))) * (a * d);
      (k * d) * (k * d) * a * (1.0 + e * c);
      (a * n) * (a * n) * a * (1.0 + e * c);
      n * n * a * a * (2.0 * a - a * d);
    }
  }

  /** The orbital-plane angular momentum x vy - y vx equals a^2 n sqrt(1-e^2)
      at every point of the orbit (Kepler's second law). */
  lemma OrbitalAngularMomentum(a: real, e: real, n: real, ecc: Rot, q: real)
    requires Unit(ecc) && 0.0 <= e < 1.0 && -1.0 <= ecc.c <= 1.0
    ensures Wedge(OrbitalPosition(a, e, ecc, q), OrbitalVelocity(a, e, n, ecc, q)) == a * a * n * q
  {
    VelocityFactored(a, e, n, ecc, q);
    var d := Denominator(e, ecc);
    MomentumIdentity(a, e, n, ecc.s, ecc.c, q, a * n / d, d);
  }

  lemma MomentumIdentity(a: real, e: real, n: real, s: real, c: real, q: real, k: real, d: real)
    requires s * s + c * c == 1.0 && k * d == a * n && d == 1.0 - e * c
    ensures (a * (c - e)) * (k * q * c) - (a * q * s) * -(k * s) == a * a * n * q
  {
    calc {
      (a * (c - e)) * (k * q * c) - (a * q * s) * -(k * s);
      a * q * k * (c * c - e * c + s * s);
      a * q * (k * d);
      a * a * n * q;
    }
  }

  /** The orbital-plane state of the body at `jd`, with its parts named. */
  lemma OrbitalStateParts(m: MathFns, lib: Astronomia, el: Elements, jd: real)
    requires WellBehaved(m, lib) && Elliptic(el)
    ensures var ecc, q := EccentricRot(m, lib, el, jd), AxisRatio(m, el.e);
            && OrbitalStateAt(m, lib, el, jd).pos == OrbitalPosition(el.a, el.e, ecc, q)
            && OrbitalStateAt(m, lib, el, jd).vel == OrbitalVelocity(el.a, el.e, MeanMotion(m, lib, el.a), ecc, q)
  {
  }

  // The three orbit relations for the body described by a set of elements.

  /** The body at `jd` lies at distance r = a(1 - e cos E) from the Sun. */
  lemma OrbitDistance(m: MathFns, lib: Astronomia, el: Elements, jd: real)
    requires WellBehaved(m, lib) && Exact(m) && Elliptic(el)
    ensures var p := OrbitalStateAt(m, lib, el, jd).pos;
            Dot2(p, p) == Sq(Radius(el.a, el.e, EccentricRot(m, lib, el, jd)))
  {
    var ecc, q := EccentricRot(m, lib, el, jd), AxisRatio(m, el.e);
    var p := OrbitalPosition(el.a, el.e, ecc, q);
    OrbitalStateParts(m, lib, el, jd);
    ExactOrbit(m, lib, el, jd);
    OrbitalRadius(el.a, el.e, ecc, q);
  }

  /** The body at `jd` satisfies vis-viva with the mean motion of its elements. */
  lemma OrbitVisViva(m: MathFns, lib: Astronomia, el: Elements, jd: real)
    requires WellBehaved(m, lib) && Exact(m) && Elliptic(el)
    ensures var v := OrbitalStateAt(m, lib, el, jd).vel;
            VisViva(Dot2(v, v), Radius(el.a, el.e, EccentricRot(m, lib, el, jd)), MeanMotion(m, lib, el.a), el.a)
  {
    OrbitalStateParts(m, lib, el, jd);
    ExactOrbit(m, lib, el, jd);
    OrbitalVisViva(el.a, el.e, MeanMotion(m, lib, el.a), EccentricRot(m, lib, el, jd), AxisRatio(m, el.e));
  }

  /** The specific angular momentum h = a^2 n sqrt(1 - e^2) of the orbit. */
  function AngularMomentum(m: MathFns, lib: Astronomia, el: Elements): real
    requires WellBehaved(m, lib) && Elliptic(el)
  {
    el.a * el.a * MeanMotion(m, lib, el.a) * AxisRatio(m, el.e)
  }

  /** The orbital-plane angular momentum of the body is h at every `jd`. */
  lemma OrbitMomentum(m: MathFns, lib: Astronomia, el: Elements, jd: real)
    requires WellBehaved(m, lib) && Exact(m) && Elliptic(el)
    ensures var s := OrbitalStateAt(m, lib, el, jd);
            Wedge(s.pos, s.vel) == AngularMomentum(m, lib, el)
  {
    OrbitalStateParts(m, lib, el, jd);
    ExactOrbit(m, lib, el, jd);
    OrbitalAngularMomentum(el.a, el.e, MeanMotion(m, lib, el.a), EccentricRot(m, lib, el, jd), AxisRatio(m, el.e));
  }

  /** h^2 = a^4 n^2 (1 - e^2). */
  lemma AngularMomentumSquared(m: MathFns, lib: Astronomia, el: Elements)
    requires WellBehaved(m, lib) && Exact(m) && Elliptic(el)
    ensures Sq(AngularMomentum(m, lib, el)) == Sq(el.a * el.a * MeanMotion(m, lib, el.a)) * (1.0 - el.e * el.e)
  {
    var k, q := el.a * el.a * MeanMotion(m, lib, el.a), AxisRatio(m, el.e);
    ExactOrbit(m, lib, el, el.epoch);
    assert AngularMomentum(m, lib, el) == k * q;
    SquareOfProduct(k, q, 1.0 - el.e * el.e);
  }

  lemma SquareOfProduct(k: real, q: real, x: real)
    requires q * q == x
    ensures Sq(k * q) == Sq(k) * x
  {
    assert (k * q) * (k * q) == (k * k) * (q * q);
  }
}
