/** Elements to heliocentric position and velocity: `stateVectorFromElements`
    (src/smallBodies.js:87-137) and the position-only `heliocentricCoords`
    (src/smallBodies.js:158-196). */
module StateVectors {
  import opened External
  import opened Geometry
  import opened Kepler

  /** `{ x, y, z, vx, vy, vz }`. */
  datatype State = State(pos: Vec3, vel: Vec3)

  /** The node, inclination and periapsis angles of the elements, converted to
      radians and evaluated once (lines 90-92, 110-115). */
  function ElementFrame(m: MathFns, el: Elements): Frame {
    var inc := Radians(m, el.i);
    var Omega := Radians(m, el.Omega);
    var w := Radians(m, el.w);
    Frame(Rot(m.sin(Omega), m.cos(Omega)), Rot(m.sin(inc), m.cos(inc)), Rot(m.sin(w), m.cos(w)))
  }

  /** `base.SOblJ2000`, `base.COblJ2000` (lines 125-126, 177-178). */
  function Obliquity(lib: Astronomia): Rot {
    Rot(lib.sOblJ2000, lib.cOblJ2000)
  }

  /** Heliocentric ecliptic position and velocity (lines 87-123): the
      orbital-plane pair sent through one direction-cosine map. */
  function EclipticState(m: MathFns, lib: Astronomia, el: Elements, jd: real): State
    requires WellBehaved(m, lib) && Elliptic(el)
  {
    var orb := OrbitalStateAt(m, lib, el, jd);
    var f := ElementFrame(m, el);
    State(Orient(f, orb.pos), Orient(f, orb.vel))
  }

  /** `stateVectorFromElements(el, jd)`: the ecliptic state rotated to the
      equatorial frame with the fixed J2000 constants (lines 125-136). The
      rotation leaves x and vx as they were. */
  function StateVectorFromElements(m: MathFns, lib: Astronomia, el: Elements, jd: real): (sv: State)
    requires WellBehaved(m, lib) && Elliptic(el)
    ensures sv.pos.x == EclipticState(m, lib, el, jd).pos.x
    ensures sv.vel.x == EclipticState(m, lib, el, jd).vel.x
  {
    var ecl := EclipticState(m, lib, el, jd);
    var obl := Obliquity(lib);
    State(EclipticToEquatorial(obl, ecl.pos), EclipticToEquatorial(obl, ecl.vel))
  }

  /** The six coefficients F, G, H, P, Q, R of lines 179-184. */
  datatype Gauss = Gauss(F: real, G: real, H: real, P: real, Q: real, R: real)

  function GaussConstants(node: Rot, incl: Rot, obl: Rot): Gauss {
    var sO, cO := node.s, node.c;
    var si, ci := incl.s, incl.c;
    var sE, cE := obl.s, obl.c;
    Gauss(cO, sO * cE, sO * sE, -sO * ci, cO * ci * cE - si * sE, cO * ci * sE + si * cE)
  }

  /** `heliocentricCoords(el, jd)`: the equatorial position in amplitude and
      phase form, each coordinate r * hypot(.,.) * sin(atan2(.,.) + w + nu)
      (lines 158-196). */
  function HeliocentricCoords(m: MathFns, lib: Astronomia, el: Elements, jd: real): Vec3
    requires WellBehaved(m, lib) && Elliptic(el)
  {
    var e := el.e;
    var a := el.a;
    var w := Radians(m, el.w);
    var E := KeplerAnomaly(m, lib, el, jd);
    var nu := lib.trueAnomaly(E, e);
    var r := lib.radius(E, e, a);
    var f := ElementFrame(m, el);
    var g := GaussConstants(f.node, f.incl, Obliquity(lib));
    var angle := w + nu;
    Vec3(PhaseCoordinate(m, r, g.F, g.P, angle), PhaseCoordinate(m, r, g.G, g.Q, angle), PhaseCoordinate(m, r, g.H, g.R, angle))
  }

  /** `heliocentricCoords` depends on the time only through the true anomaly
      and the radius the library returns for the eccentric anomaly. */
  lemma HeliocentricSameAnomaly(m: MathFns, lib: Astronomia, el: Elements, jd1: real, jd2: real)
    requires WellBehaved(m, lib) && Elliptic(el)
    requires var E1, E2 := KeplerAnomaly(m, lib, el, jd1), KeplerAnomaly(m, lib, el, jd2);
             lib.trueAnomaly(E1, el.e) == lib.trueAnomaly(E2, el.e) && lib.radius(E1, el.e, el.a) == lib.radius(E2, el.e, el.a)
    ensures HeliocentricCoords(m, lib, el, jd1) == HeliocentricCoords(m, lib, el, jd2)
  {
  }

  /** One coordinate of lines 192-194: r hypot(A, B) sin(atan2(A, B) + angle). */
  function PhaseCoordinate(m: MathFns, r: real, A: real, B: real, angle: real): real {
    r * m.hypot(A, B) * m.sin(m.atan2(A, B) + angle)
  }

  // ---------------------------------------------------------------------------
  // Properties

  /** The state vector with its two rotations named. */
  lemma StateVectorParts(m: MathFns, lib: Astronomia, el: Elements, jd: real)
    requires WellBehaved(m, lib) && Elliptic(el)
    ensures var orb, f, obl := OrbitalStateAt(m, lib, el, jd), ElementFrame(m, el), Obliquity(lib);
            && EclipticState(m, lib, el, jd) == State(Orient(f, orb.pos), Orient(f, orb.vel))
            && StateVectorFromElements(m, lib, el, jd)
               == State(EclipticToEquatorial(obl, Orient(f, orb.pos)), EclipticToEquatorial(obl, Orient(f, orb.vel)))
  {
  }

  lemma ExactFrame(m: MathFns, el: Elements)
    requires Exact(m)
    ensures UnitFrame(ElementFrame(m, el))
  {
    var f := ElementFrame(m, el);
    assert Unit(f.node) && Unit(f.incl) && Unit(f.peri);
  }

  /** The state vector's position lies at distance r = a(1 - e cos E) from
      the Sun, through both rotations. */
  lemma StateVectorRadius(m: MathFns, lib: Astronomia, el: Elements, jd: real)
    requires WellBehaved(m, lib) && Exact(m) && Elliptic(el) && Unit(Obliquity(lib))
    ensures Norm2(StateVectorFromElements(m, lib, el, jd).pos) == Sq(Radius(el.a, el.e, EccentricRot(m, lib, el, jd)))
  {
    StateVectorParts(m, lib, el, jd);
    ExactFrame(m, el);
    RotationsPreserveDot(ElementFrame(m, el), Obliquity(lib), OrbitalStateAt(m, lib, el, jd).pos, OrbitalStateAt(m, lib, el, jd).pos);
    OrbitDistance(m, lib, el, jd);
  }

  /** The state vector satisfies vis-viva with the mean motion of the
      elements. */
  lemma StateVectorVisViva(m: MathFns, lib: Astronomia, el: Elements, jd: real)
    requires WellBehaved(m, lib) && Exact(m) && Elliptic(el) && Unit(Obliquity(lib))
    ensures VisViva(Norm2(StateVectorFromElements(m, lib, el, jd).vel),
                    Radius(el.a, el.e, EccentricRot(m, lib, el, jd)), MeanMotion(m, lib, el.a), el.a)
  {
    StateVectorParts(m, lib, el, jd);
    ExactFrame(m, el);
    RotationsPreserveDot(ElementFrame(m, el), Obliquity(lib), OrbitalStateAt(m, lib, el, jd).vel, OrbitalStateAt(m, lib, el, jd).vel);
    OrbitVisViva(m, lib, el, jd);
  }

  /** Equal arguments, equal norms of the cross product: a step the solver
      does not take by itself on these nonlinear terms. */
  lemma CrossCongruence(u: Vec3, w: Vec3, u': Vec3, w': Vec3)
    requires u == u' && w == w'
    ensures Norm2(Cross(u, w)) == Norm2(Cross(u', w'))
  {
  }

  /** The squared magnitude of the angular momentum pos x vel is h^2 at every
      instant: one value for the whole orbit (Kepler's second law). */
  lemma StateVectorAngularMomentum(m: MathFns, lib: Astronomia, el: Elements, jd: real)
    requires WellBehaved(m, lib) && Exact(m) && Elliptic(el) && Unit(Obliquity(lib))
    ensures Norm2(Cross(StateVectorFromElements(m, lib, el, jd).pos, StateVectorFromElements(m, lib, el, jd).vel))
            == Sq(AngularMomentum(m, lib, el))
  {
    StateVectorParts(m, lib, el, jd);
    ExactFrame(m, el);
    RotatedCrossNorm(ElementFrame(m, el), Obliquity(lib), OrbitalStateAt(m, lib, el, jd).pos, OrbitalStateAt(m, lib, el, jd).vel);
    OrbitMomentum(m, lib, el, jd);
    CrossCongruence(StateVectorFromElements(m, lib, el, jd).pos, StateVectorFromElements(m, lib, el, jd).vel,
                    EclipticToEquatorial(Obliquity(lib), Orient(ElementFrame(m, el), OrbitalStateAt(m, lib, el, jd).pos)),
                    EclipticToEquatorial(Obliquity(lib), Orient(ElementFrame(m, el), OrbitalStateAt(m, lib, el, jd).vel)));
  }

  /** Position and velocity at every instant are combinations of the same two
      axes, which depend on the elements only: both lie in one fixed orbit
      plane because one direction-cosine map serves both. */
  lemma StateInOrbitPlane(m: MathFns, lib: Astronomia, el: Elements, jd: real)
    requires WellBehaved(m, lib) && Elliptic(el)
    ensures var f := ElementFrame(m, el);
            var orb := OrbitalStateAt(m, lib, el, jd);
            var ecl := EclipticState(m, lib, el, jd);
            var px, py := Orient(f, Plane(1.0, 0.0)), Orient(f, Plane(0.0, 1.0));
            && ecl.pos == Add(Scale(orb.pos.x, px), Scale(orb.pos.y, py))
            && ecl.vel == Add(Scale(orb.vel.x, px), Scale(orb.vel.y, py))
  {
    StateVectorParts(m, lib, el, jd);
    OrientSpan(ElementFrame(m, el), OrbitalStateAt(m, lib, el, jd).pos);
    OrientSpan(ElementFrame(m, el), OrbitalStateAt(m, lib, el, jd).vel);
  }

  /** With zero inclination (and sin 0 = 0) both the ecliptic position and
      velocity have z = 0. */
  lemma ZeroInclinationStaysInEcliptic(m: MathFns, lib: Astronomia, el: Elements, jd: real)
    requires WellBehaved(m, lib) && Elliptic(el) && el.i == 0.0 && m.sin(0.0) == 0.0
    ensures EclipticState(m, lib, el, jd).pos.z == 0.0
    ensures EclipticState(m, lib, el, jd).vel.z == 0.0
  {
    StateVectorParts(m, lib, el, jd);
    assert Radians(m, el.i) == 0.0;
    OrientFlat(ElementFrame(m, el), OrbitalStateAt(m, lib, el, jd).pos);
    OrientFlat(ElementFrame(m, el), OrbitalStateAt(m, lib, el, jd).vel);
  }

  /** r = a(1 - e) where cos E = 1. */
  lemma RadiusAtPeriapsis(a: real, e: real, ecc: Rot)
    requires ecc.c == 1.0
    ensures Radius(a, e, ecc) == a * (1.0 - e)
  {
  }

  /** A body whose mean anomaly at epoch is 0 is at periapsis at the epoch:
      its distance from the Sun is a(1 - e). */
  lemma PeriapsisAtEpoch(m: MathFns, lib: Astronomia, el: Elements)
    requires WellBehaved(m, lib) && Exact(m) && Elliptic(el) && Unit(Obliquity(lib))
    requires el.M0 == 0.0 && SolveKepler(lib, el.e, 0.0) == 0.0 && m.cos(0.0) == 1.0
    ensures Norm2(StateVectorFromElements(m, lib, el, el.epoch).pos) == Sq(el.a * (1.0 - el.e))
  {
    MeanAnomalyAtEpoch(m, lib, el);
    assert KeplerAnomaly(m, lib, el, el.epoch) == 0.0;
    StateVectorRadius(m, lib, el, el.epoch);
    RadiusAtPeriapsis(el.a, el.e, EccentricRot(m, lib, el, el.epoch));
  }

  /** The circular, unit-radius, uninclined orbit: at its epoch the body is at
      (1, 0, 0) AU in both frames. */
  lemma CircularOrbitAtEpoch(m: MathFns, lib: Astronomia)
    requires WellBehaved(m, lib)
    requires m.sin(0.0) == 0.0 && m.cos(0.0) == 1.0 && m.sqrt(1.0) == 1.0 && SolveKepler(lib, 0.0, 0.0) == 0.0
    ensures var el := Elements(1.0, 0.0, 0.0, 0.0, 0.0, 0.0, 2451545.0);
            && EclipticState(m, lib, el, el.epoch).pos == Vec3(1.0, 0.0, 0.0)
            && StateVectorFromElements(m, lib, el, el.epoch).pos == Vec3(1.0, 0.0, 0.0)
  {
    var el := Elements(1.0, 0.0, 0.0, 0.0, 0.0, 0.0, 2451545.0);
    MeanAnomalyAtEpoch(m, lib, el);
    assert KeplerAnomaly(m, lib, el, el.epoch) == 0.0;
    assert ElementFrame(m, el) == Frame(Rot(0.0, 1.0), Rot(0.0, 1.0), Rot(0.0, 1.0));
    StateVectorParts(m, lib, el, el.epoch);
  }

  /** The same orbit half a period after its epoch: where the library's solver
      returns E = pi for M = pi, the body is at (-1, 0, 0) AU in both frames,
      the point opposite its epoch position. */
  lemma CircularOrbitHalfPeriod(m: MathFns, lib: Astronomia)
    requires WellBehaved(m, lib)
    requires m.sqrt(1.0) == 1.0 && m.sin(0.0) == 0.0 && m.cos(0.0) == 1.0
    requires m.sin(m.pi) == 0.0 && m.cos(m.pi) == -1.0 && SolveKepler(lib, 0.0, m.pi) == m.pi
    ensures var el := Elements(1.0, 0.0, 0.0, 0.0, 0.0, 0.0, 2451545.0);
            var jd := el.epoch + m.pi / MeanMotion(m, lib, el.a);
            && EclipticState(m, lib, el, jd).pos == Vec3(-1.0, 0.0, 0.0)
            && StateVectorFromElements(m, lib, el, jd).pos == Vec3(-1.0, 0.0, 0.0)
  {
    var el := Elements(1.0, 0.0, 0.0, 0.0, 0.0, 0.0, 2451545.0);
    var n := MeanMotion(m, lib, el.a);
    var jd := el.epoch + m.pi / n;
    assert jd - el.epoch == m.pi / n;
    assert n * (jd - el.epoch) == m.pi;
    assert Radians(m, el.M0) == 0.0;
    assert MeanAnomaly(m, lib, el, jd) == m.pi;
    assert KeplerAnomaly(m, lib, el, jd) == m.pi;
    assert ElementFrame(m, el) == Frame(Rot(0.0, 1.0), Rot(0.0, 1.0), Rot(0.0, 1.0));
    StateVectorParts(m, lib, el, jd);
  }

  /** The Gauss coefficients of `heliocentricCoords` are the equatorial images
      of the node axis and of the in-plane axis 90 degrees ahead of it: the
      same direction-cosine map and obliquity rotation `stateVectorFromElements`
      applies, taken with the argument of periapsis at 0. */
  lemma GaussAxes(node: Rot, incl: Rot, obl: Rot)
    ensures var g := GaussConstants(node, incl, obl);
            var f := Frame(node, incl, Rot(0.0, 1.0));
            && Vec3(g.F, g.G, g.H) == EclipticToEquatorial(obl, Orient(f, Plane(1.0, 0.0)))
            && Vec3(g.P, g.Q, g.R) == EclipticToEquatorial(obl, Orient(f, Plane(0.0, 1.0)))
  {
  }

  /** When the node, inclination and obliquity pairs are exact sines and
      cosines, (F, G, H) and (P, Q, R) are orthonormal. */
  lemma GaussOrthonormal(node: Rot, incl: Rot, obl: Rot)
    requires Unit(node) && Unit(incl) && Unit(obl)
    ensures var g := GaussConstants(node, incl, obl);
            && Norm2(Vec3(g.F, g.G, g.H)) == 1.0
            && Norm2(Vec3(g.P, g.Q, g.R)) == 1.0
            && Dot(Vec3(g.F, g.G, g.H), Vec3(g.P, g.Q, g.R)) == 0.0
  {
    var f := Frame(node, incl, Rot(0.0, 1.0));
    assert UnitFrame(f);
    GaussAxes(node, incl, obl);
    RotatedAxesOrthonormal(f, obl);
  }

  /** The three amplitude-phase coordinates are r times the combination
      cos t (F, G, H) + sin t (P, Q, R) when the identity holds for each. */
  lemma AmplitudeVector(m: MathFns, r: real, g: Gauss, t: real)
    requires AmplitudePhaseAt(m, g.F, g.P, t) && AmplitudePhaseAt(m, g.G, g.Q, t) && AmplitudePhaseAt(m, g.H, g.R, t)
    ensures Vec3(PhaseCoordinate(m, r, g.F, g.P, t), PhaseCoordinate(m, r, g.G, g.Q, t), PhaseCoordinate(m, r, g.H, g.R, t))
            == Scale(r, Add(Scale(m.cos(t), Vec3(g.F, g.G, g.H)), Scale(m.sin(t), Vec3(g.P, g.Q, g.R))))
  {
    assert r * m.hypot(g.F, g.P) * m.sin(m.atan2(g.F, g.P) + t) == r * (m.hypot(g.F, g.P) * m.sin(m.atan2(g.F, g.P) + t));
    assert r * m.hypot(g.G, g.Q) * m.sin(m.atan2(g.G, g.Q) + t) == r * (m.hypot(g.G, g.Q) * m.sin(m.atan2(g.G, g.Q) + t));
    assert r * m.hypot(g.H, g.R) * m.sin(m.atan2(g.H, g.R) + t) == r * (m.hypot(g.H, g.R) * m.sin(m.atan2(g.H, g.R) + t));
  }

  /** With the amplitude-phase identity, `heliocentricCoords` is r times the
      unit vector cos(w + nu) (F, G, H) + sin(w + nu) (P, Q, R): a point of the
      orbit plane spanned by the Gauss axes. */
  lemma HeliocentricInOrbitPlane(m: MathFns, lib: Astronomia, el: Elements, jd: real)
    requires WellBehaved(m, lib) && Elliptic(el) && AmplitudePhase(m)
    ensures var f := ElementFrame(m, el);
            var g := GaussConstants(f.node, f.incl, Obliquity(lib));
            var E := KeplerAnomaly(m, lib, el, jd);
            var t := Radians(m, el.w) + lib.trueAnomaly(E, el.e);
            HeliocentricCoords(m, lib, el, jd)
            == Scale(lib.radius(E, el.e, el.a), Add(Scale(m.cos(t), Vec3(g.F, g.G, g.H)), Scale(m.sin(t), Vec3(g.P, g.Q, g.R))))
  {
    var f := ElementFrame(m, el);
    var g := GaussConstants(f.node, f.incl, Obliquity(lib));
    var E := KeplerAnomaly(m, lib, el, jd);
    var t := Radians(m, el.w) + lib.trueAnomaly(E, el.e);
    var r := lib.radius(E, el.e, el.a);
    assert AmplitudePhaseAt(m, g.F, g.P, t) && AmplitudePhaseAt(m, g.G, g.Q, t) && AmplitudePhaseAt(m, g.H, g.R, t);
    AmplitudeVector(m, r, g, t);
  }

  /** With exact trigonometry, `heliocentricCoords` lies at the library's
      radius r from the Sun. */
  lemma HeliocentricDistance(m: MathFns, lib: Astronomia, el: Elements, jd: real)
    requires WellBehaved(m, lib) && Elliptic(el) && AmplitudePhase(m) && Exact(m) && Unit(Obliquity(lib))
    ensures Norm2(HeliocentricCoords(m, lib, el, jd)) == Sq(lib.radius(KeplerAnomaly(m, lib, el, jd), el.e, el.a))
  {
    var f := ElementFrame(m, el);
    var g := GaussConstants(f.node, f.incl, Obliquity(lib));
    var E := KeplerAnomaly(m, lib, el, jd);
    var t := Radians(m, el.w) + lib.trueAnomaly(E, el.e);
    HeliocentricInOrbitPlane(m, lib, el, jd);
    ExactFrame(m, el);
    GaussOrthonormal(f.node, f.incl, Obliquity(lib));
    UnitCombination(lib.radius(E, el.e, el.a), m.cos(t), Vec3(g.F, g.G, g.H), m.sin(t), Vec3(g.P, g.Q, g.R));
  }
}
