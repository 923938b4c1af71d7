/** Vectors and the two frame rotations of the kernel: the direction-cosine
    map from the orbital plane to the heliocentric ecliptic frame
    (src/smallBodies.js:117-123) and the rotation about the x-axis from the
    ecliptic to the equatorial frame (src/smallBodies.js:125-134). */
module Geometry {

  /** A point or velocity in the orbital plane (x towards periapsis). */
  datatype Plane = Plane(x: real, y: real)

  datatype Vec3 = Vec3(x: real, y: real, z: real)

  /** The sine and cosine of one angle, as the kernel computes them once. */
  datatype Rot = Rot(s: real, c: real)

  /** The orientation angles of an orbit: ascending node, inclination and
      argument of periapsis, each given by its sine and cosine. */
  datatype Frame = Frame(node: Rot, incl: Rot, peri: Rot)

  ghost predicate Unit(r: Rot) {
    r.s * r.s + r.c * r.c == 1.0
  }

  ghost predicate UnitFrame(f: Frame) {
    Unit(f.node) && Unit(f.incl) && Unit(f.peri)
  }

  function Sq(x: real): real {
    x * x
  }

  function Dot2(p: Plane, q: Plane): real {
    p.x * q.x + p.y * q.y
  }

  function Dot(u: Vec3, v: Vec3): real {
    u.x * v.x + u.y * v.y + u.z * v.z
  }

  /** The planar cross product, x1 y2 - y1 x2. */
  function Wedge(p: Plane, q: Plane): real {
    p.x * q.y - p.y * q.x
  }

  function Norm2(v: Vec3): real {
    Dot(v, v)
  }

  function Cross(u: Vec3, v: Vec3): Vec3 {
    Vec3(u.y * v.z - u.z * v.y, u.z * v.x - u.x * v.z, u.x * v.y - u.y * v.x)
  }

  function Add(u: Vec3, v: Vec3): Vec3 {
    Vec3(u.x + v.x, u.y + v.y, u.z + v.z)
  }

  function Scale(k: real, v: Vec3): Vec3 {
    Vec3(k * v.x, k * v.y, k * v.z)
  }

  /** Rotation of a pair of coordinates by the angle of `r`. */
  function Spin(r: Rot, p: Plane): Plane {
    Plane(r.c * p.x - r.s * p.y, r.s * p.x + r.c * p.y)
  }

  /** Orbital plane to heliocentric ecliptic, written as the kernel writes it
      for the position (lines 117-119) and, verbatim, for the velocity
      (lines 121-123). */
  function Orient(f: Frame, p: Plane): Vec3 {
    var sO, cO := f.node.s, f.node.c;
    var si, ci := f.incl.s, f.incl.c;
    var sw, cw := f.peri.s, f.peri.c;
    Vec3(cO * (cw * p.x - sw * p.y) - sO * (sw * p.x + cw * p.y) * ci,
         sO * (cw * p.x - sw * p.y) + cO * (sw * p.x + cw * p.y) * ci,
         (sw * p.x + cw * p.y) * si)
  }

  /** Ecliptic to equatorial: a rotation about the x-axis by the obliquity
      whose sine and cosine are `obl` (lines 128-134). */
  function EclipticToEquatorial(obl: Rot, v: Vec3): (r: Vec3)
    ensures r.x == v.x
  {
    Vec3(v.x, obl.c * v.y - obl.s * v.z, obl.s * v.y + obl.c * v.z)
  }

  /** The inverse rotation, equatorial to ecliptic. The kernel does not need
      it; it is the reference against which the forward rotation is checked. */
  function EquatorialToEcliptic(obl: Rot, v: Vec3): (r: Vec3)
    ensures r.x == v.x
  {
    Vec3(v.x, obl.c * v.y + obl.s * v.z, -obl.s * v.y + obl.c * v.z)
  }

  /** A planar rotation by a unit angle keeps dot products. */
  lemma SpinPreservesDot(r: Rot, p: Plane, q: Plane)
    requires Unit(r)
    ensures Dot2(Spin(r, p), Spin(r, q)) == Dot2(p, q)
  {
    calc {
      Dot2(Spin(r, p), Spin(r, q));
      (r.c * p.x - r.s * p.y) * (r.c * q.x - r.s * q.y) + (r.s * p.x + r.c * p.y) * (r.s * q.x + r.c * q.y);
      (r.s * r.s + r.c * r.c) * (p.x * q.x + p.y * q.y);
    }
  }

  /** The direction-cosine map is orthogonal when its three angles are: it
      keeps every dot product of the orbital plane. */
  lemma OrientPreservesDot(f: Frame, p: Plane, q: Plane)
    requires UnitFrame(f)
    ensures Dot(Orient(f, p), Orient(f, q)) == Dot2(p, q)
  {
    var ci, si := f.incl.c, f.incl.s;
    var wp, wq := Spin(f.peri, p), Spin(f.peri, q);
    var tp, tq := Plane(wp.x, wp.y * ci), Plane(wq.x, wq.y * ci);
    OrientByRotations(f, p);
    OrientByRotations(f, q);
    SpinPreservesDot(f.peri, p, q);
    SpinPreservesDot(f.node, tp, tq);
    TiltPreservesDot(f.incl, wp, wq);
  }

  /** Tilting the y-axis by the inclination keeps dot products. */
  lemma TiltPreservesDot(incl: Rot, p: Plane, q: Plane)
    requires Unit(incl)
    ensures Dot2(Plane(p.x, p.y * incl.c), Plane(q.x, q.y * incl.c)) + (p.y * incl.s) * (q.y * incl.s) == Dot2(p, q)
  {
    assert (p.y * incl.c) * (q.y * incl.c) + (p.y * incl.s) * (q.y * incl.s) == (p.y * q.y) * (incl.c * incl.c + incl.s * incl.s);
  }

  /** The direction-cosine map is the rotation by the argument of periapsis,
      the tilt by the inclination and the rotation by the node, in that order. */
  lemma OrientByRotations(f: Frame, p: Plane)
    ensures var w := Spin(f.peri, p);
            var t := Spin(f.node, Plane(w.x, w.y * f.incl.c));
            Orient(f, p) == Vec3(t.x, t.y, w.y * f.incl.s)
  {
  }

  function Combo(k: real, p: Plane, q: Plane): Plane {
    Plane(k * p.x + q.x, k * p.y + q.y)
  }

  /** The direction-cosine map is linear in the orbital-plane pair, so position
      and velocity, sent through the same map, stay in one plane. */
  lemma OrientLinear(f: Frame, k: real, p: Plane, q: Plane)
    ensures Orient(f, Combo(k, p, q)) == Add(Scale(k, Orient(f, p)), Orient(f, q))
  {
    var kp := Plane(k * p.x, k * p.y);
    assert Combo(k, p, q) == Plane(kp.x + q.x, kp.y + q.y);
    OrientAdditive(f, kp, q);
    OrientHomogeneous(f, k, p);
  }

  lemma OrientAdditive(f: Frame, p: Plane, q: Plane)
    ensures Orient(f, Plane(p.x + q.x, p.y + q.y)) == Add(Orient(f, p), Orient(f, q))
  {
    var sO, cO := f.node.s, f.node.c;
    var si, ci := f.incl.s, f.incl.c;
    var sw, cw := f.peri.s, f.peri.c;
    var up, vp := cw * p.x - sw * p.y, sw * p.x + cw * p.y;
    var uq, vq := cw * q.x - sw * q.y, sw * q.x + cw * q.y;
    assert cw * (p.x + q.x) - sw * (p.y + q.y) == up + uq;
    assert sw * (p.x + q.x) + cw * (p.y + q.y) == vp + vq;
  }

  lemma OrientHomogeneous(f: Frame, k: real, p: Plane)
    ensures Orient(f, Plane(k * p.x, k * p.y)) == Scale(k, Orient(f, p))
  {
    var sO, cO := f.node.s, f.node.c;
    var si, ci := f.incl.s, f.incl.c;
    var w := Spin(f.peri, p);
    SpinHomogeneous(f.peri, k, p);
    ScaleThrough(cO, -sO, ci, k, w.x, w.y);
    ScaleThrough(sO, cO, ci, k, w.x, w.y);
    ScaleThrough(0.0, si, 1.0, k, w.x, w.y);
  }

  /** a(k u) + b(k v)c = k(a u + b v c) */
  lemma ScaleThrough(a: real, b: real, c: real, k: real, u: real, v: real)
    ensures a * (k * u) + b * (k * v) * c == k * (a * u + b * v * c)
  {
  }

  lemma SpinHomogeneous(r: Rot, k: real, p: Plane)
    ensures Spin(r, Plane(k * p.x, k * p.y)) == Plane(k * Spin(r, p).x, k * Spin(r, p).y)
  {
    assert r.c * (k * p.x) - r.s * (k * p.y) == k * (r.c * p.x - r.s * p.y);
    assert r.s * (k * p.x) + r.c * (k * p.y) == k * (r.s * p.x + r.c * p.y);
  }

  /** Every image of the direction-cosine map is a combination of the images
      of the two orbital-plane axes. */
  lemma OrientSpan(f: Frame, p: Plane)
    ensures Orient(f, p) == Add(Scale(p.x, Orient(f, Plane(1.0, 0.0))), Scale(p.y, Orient(f, Plane(0.0, 1.0))))
  {
    OrientAdditive(f, Plane(p.x * 1.0, p.x * 0.0), Plane(p.y * 0.0, p.y * 1.0));
    OrientHomogeneous(f, p.x, Plane(1.0, 0.0));
    OrientHomogeneous(f, p.y, Plane(0.0, 1.0));
    assert Plane(p.x * 1.0 + p.y * 0.0, p.x * 0.0 + p.y * 1.0) == p;
  }

  /** With zero inclination (sin i = 0) the map stays in the ecliptic plane. */
  lemma OrientFlat(f: Frame, p: Plane)
    requires f.incl.s == 0.0
    ensures Orient(f, p).z == 0.0
  {
  }

  /** The obliquity rotation keeps dot products when its sine and cosine are
      those of one angle. */
  lemma EquatorialPreservesDot(obl: Rot, u: Vec3, v: Vec3)
    requires Unit(obl)
    ensures Dot(EclipticToEquatorial(obl, u), EclipticToEquatorial(obl, v)) == Dot(u, v)
  {
    SpinPreservesDot(obl, Plane(u.y, u.z), Plane(v.y, v.z));
  }

  /** Both rotations together keep every dot product of the orbital plane. */
  lemma RotationsPreserveDot(f: Frame, obl: Rot, p: Plane, q: Plane)
    requires UnitFrame(f) && Unit(obl)
    ensures Dot(EclipticToEquatorial(obl, Orient(f, p)), EclipticToEquatorial(obl, Orient(f, q))) == Dot2(p, q)
  {
    OrientPreservesDot(f, p, q);
    EquatorialPreservesDot(obl, Orient(f, p), Orient(f, q));
  }

  /** The images of the two orbital-plane axes under both rotations are
      orthonormal. */
  lemma RotatedAxesOrthonormal(f: Frame, obl: Rot)
    requires UnitFrame(f) && Unit(obl)
    ensures var u := EclipticToEquatorial(obl, Orient(f, Plane(1.0, 0.0)));
            var v := EclipticToEquatorial(obl, Orient(f, Plane(0.0, 1.0)));
            Norm2(u) == 1.0 && Norm2(v) == 1.0 && Dot(u, v) == 0.0
  {
    var e1, e2 := Plane(1.0, 0.0), Plane(0.0, 1.0);
    var u := EclipticToEquatorial(obl, Orient(f, e1));
    var v := EclipticToEquatorial(obl, Orient(f, e2));
    RotationsPreserveDot(f, obl, e1, e1);
    RotationsPreserveDot(f, obl, e2, e2);
    RotationsPreserveDot(f, obl, e1, e2);
    assert Dot2(e1, e1) == 1.0 && Dot2(e2, e2) == 1.0 && Dot2(e1, e2) == 0.0;
    assert Norm2(u) == Dot(u, u) == 1.0;
    assert Norm2(v) == Dot(v, v) == 1.0;
  }

  /** The squared length of pos x vel is kept by both rotations: it is the
      square of the orbital-plane wedge. */
  lemma RotatedCrossNorm(f: Frame, obl: Rot, p: Plane, v: Plane)
    requires UnitFrame(f) && Unit(obl)
    ensures Norm2(Cross(EclipticToEquatorial(obl, Orient(f, p)), EclipticToEquatorial(obl, Orient(f, v))))
            == Sq(Wedge(p, v))
  {
    var u, w := EclipticToEquatorial(obl, Orient(f, p)), EclipticToEquatorial(obl, Orient(f, v));
    RotationsPreserveDot(f, obl, p, p);
    RotationsPreserveDot(f, obl, v, v);
    RotationsPreserveDot(f, obl, p, v);
    CrossNorm(u, w);
    PlaneLagrange(p, v);
    LagrangeGlue(Norm2(Cross(u, w)), Norm2(u), Norm2(w), Dot(u, w), Dot2(p, p), Dot2(v, v), Dot2(p, v), Wedge(p, v));
  }

  /** Substitutes the three dot products into Lagrange's identity: a step the
      solver does not take by itself on these nonlinear terms. */
  lemma LagrangeGlue(cn: real, nu: real, nw: real, d: real, pp: real, vv: real, pv: real, h: real)
    requires cn == nu * nw - d * d && nu == pp && nw == vv && d == pv && pp * vv - pv * pv == h * h
    ensures cn == Sq(h)
  {
  }

  lemma NormScale(k: real, v: Vec3)
    ensures Norm2(Scale(k, v)) == Sq(k) * Norm2(v)
  {
  }

  lemma NormCombination(c: real, u: Vec3, s: real, v: Vec3)
    ensures Norm2(Add(Scale(c, u), Scale(s, v))) == c * c * Norm2(u) + 2.0 * c * s * Dot(u, v) + s * s * Norm2(v)
  {
  }

  /** r (cos t u + sin t v) has length |r| when u and v are orthonormal. */
  lemma UnitCombination(r: real, c: real, u: Vec3, s: real, v: Vec3)
    requires Norm2(u) == 1.0 && Norm2(v) == 1.0 && Dot(u, v) == 0.0 && c * c + s * s == 1.0
    ensures Norm2(Scale(r, Add(Scale(c, u), Scale(s, v)))) == Sq(r)
  {
    NormCombination(c, u, s, v);
    NormScale(r, Add(Scale(c, u), Scale(s, v)));
  }

  /** Rotating back with the same constants recovers the ecliptic vector. */
  lemma EquatorialRoundTrip(obl: Rot, v: Vec3)
    requires Unit(obl)
    ensures EquatorialToEcliptic(obl, EclipticToEquatorial(obl, v)) == v
    ensures EclipticToEquatorial(obl, EquatorialToEcliptic(obl, v)) == v
  {
    RotateBack(obl, v.y, v.z);
    RotateBack(Rot(-obl.s, obl.c), v.y, v.z);
  }

  /** Rotating a pair by an angle and then by its opposite gives it back. */
  lemma RotateBack(r: Rot, y: real, z: real)
    requires Unit(r)
    ensures r.c * (r.c * y - r.s * z) + r.s * (r.s * y + r.c * z) == y
    ensures -r.s * (r.c * y - r.s * z) + r.c * (r.s * y + r.c * z) == z
  {
    assert r.c * (r.c * y - r.s * z) + r.s * (r.s * y + r.c * z) == (r.c * r.c + r.s * r.s) * y;
    assert -r.s * (r.c * y - r.s * z) + r.c * (r.s * y + r.c * z) == (r.s * r.s + r.c * r.c) * z;
  }

  /** Lagrange's identity in the plane. */
  lemma PlaneLagrange(p: Plane, v: Plane)
    ensures Dot2(p, p) * Dot2(v, v) - Dot2(p, v) * Dot2(p, v) == Wedge(p, v) * Wedge(p, v)
  {
  }

  /** Lagrange's identity: |u x v|^2 = |u|^2 |v|^2 - (u . v)^2. */
  lemma CrossNorm(u: Vec3, v: Vec3)
    ensures Norm2(Cross(u, v)) == Norm2(u) * Norm2(v) - Dot(u, v) * Dot(u, v)
  {
  }
}
