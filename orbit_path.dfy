/** The orbit line of a small body: `createEllipseLine` (src/smallBodies.js:70-85)
    samples one revolution of mean anomaly, evenly in time, and writes each
    point into a flat buffer of scene coordinates. */
module OrbitPath {
  import opened External
  import opened Geometry
  import opened Kepler
  import opened StateVectors

  /** SCALE (line 6): scene units per astronomical unit. */
  const DisplayScale: real := 5.0

  /** The number of segments the kernel always uses (line 70). */
  const DefaultSegments: nat := 180

  /** The scene frame has y up: a heliocentric (x, y, z) is drawn at
      (x, z, y) times SCALE (lines 78-80, 207). Drawing loses nothing: the
      heliocentric point is recovered from its scene point. */
  function ToScene(p: Vec3): (s: Vec3)
    ensures FromScene(s) == p
  {
    Vec3(p.x * DisplayScale, p.z * DisplayScale, p.y * DisplayScale)
  }

  /** A scene point back in heliocentric coordinates. */
  function FromScene(s: Vec3): Vec3 {
    Vec3(s.x / DisplayScale, s.z / DisplayScale, s.y / DisplayScale)
  }

  /** Drawing scales every distance by SCALE. */
  lemma SceneNorm(p: Vec3)
    ensures Norm2(ToScene(p)) == Sq(DisplayScale) * Norm2(p)
  {
  }

  /** M_i = (i / segments) 2 pi (line 75). */
  function SampleAnomaly(m: MathFns, i: nat, segments: nat): real
    requires 0 < segments
  {
    (i as real / segments as real) * 2.0 * m.pi
  }

  /** jd_i = epoch + M_i / n (line 76). */
  function SampleJd(m: MathFns, lib: Astronomia, el: Elements, i: nat, segments: nat): real
    requires WellBehaved(m, lib) && Elliptic(el) && 0 < segments
  {
    el.epoch + SampleAnomaly(m, i, segments) / MeanMotion(m, lib, el.a)
  }

  /** The i-th vertex of the orbit line, in scene coordinates. */
  function ScenePoint(m: MathFns, lib: Astronomia, el: Elements, i: nat, segments: nat): Vec3
    requires WellBehaved(m, lib) && Elliptic(el) && 0 < segments
  {
    ToScene(HeliocentricCoords(m, lib, el, SampleJd(m, lib, el, i, segments)))
  }

  /** Lines 78-80: the i-th triple of the buffer receives the scene point `s`. */
  method SetVertex(positions: array<real>, i: nat, s: Vec3)
    requires 3 * i + 2 < positions.Length
    modifies positions
    ensures positions[3 * i] == s.x && positions[3 * i + 1] == s.y && positions[3 * i + 2] == s.z
    ensures forall k :: 0 <= k < positions.Length && (k < 3 * i || 3 * i + 3 <= k) ==> positions[k] == old(positions[k])
  {
    positions[i * 3] := s.x;
    positions[i * 3 + 1] := s.y;
    positions[i * 3 + 2] := s.z;
  }

  /** The sampling loop of `createEllipseLine` (lines 72-81), for any
      position function `coords`; the kernel's is `heliocentricCoords(el, .)`.
      The buffer has 3 (segments + 1) numbers and its i-th triple is the
      scene point of `coords` at the i-th sample time. */
  method TraceOrbit(m: MathFns, lib: Astronomia, el: Elements, segments: nat, coords: real --> Vec3)
    returns (positions: array<real>)
    requires WellBehaved(m, lib) && Elliptic(el) && 0 < segments
    requires forall jd :: coords.requires(jd)
    ensures fresh(positions)
    ensures positions.Length == 3 * (segments + 1)
    ensures forall i: nat :: i <= segments ==>
              var s := ToScene(coords(SampleJd(m, lib, el, i, segments)));
              positions[3 * i] == s.x && positions[3 * i + 1] == s.y && positions[3 * i + 2] == s.z
  {
    positions := new real[(segments + 1) * 3];
    var n := MeanMotion(m, lib, el.a);
    var i: nat := 0;
    while i <= segments
      invariant i <= segments + 1
      invariant forall j: nat :: j < i ==>
                  var s := ToScene(coords(SampleJd(m, lib, el, j, segments)));
                  positions[3 * j] == s.x && positions[3 * j + 1] == s.y && positions[3 * j + 2] == s.z
    {
      var M := SampleAnomaly(m, i, segments);
      var jd := el.epoch + M / n;
      var p := coords(jd);
      SetVertex(positions, i, ToScene(p));
      i := i + 1;
    }
  }

  /** The `i`-th coordinate (x, y, z for 0, 1, 2) of a point. */
  function Coordinate(p: Vec3, i: nat): real {
    if i == 0 then p.x else if i == 1 then p.y else p.z
  }

  /** The orbit line of a body with elements `el` drawn with `segments`
      segments, as the numbers of its position attribute: 3 (segments + 1)
      of them, the i-th triple the i-th sampled heliocentric point in scene
      order and scale. */
  function SampledLine(m: MathFns, lib: Astronomia, el: Elements, segments: nat): (pts: seq<real>)
    requires WellBehaved(m, lib) && Elliptic(el) && 0 < segments
    ensures |pts| == 3 * (segments + 1)
    ensures forall i: nat :: i <= segments ==>
              var s := ScenePoint(m, lib, el, i, segments);
              pts[3 * i] == s.x && pts[3 * i + 1] == s.y && pts[3 * i + 2] == s.z
  {
    var pts := seq(3 * (segments + 1), k requires 0 <= k => Coordinate(ScenePoint(m, lib, el, k / 3, segments), k % 3));
    assert forall i: nat :: i <= segments ==>
             var s := ScenePoint(m, lib, el, i, segments);
             pts[3 * i] == s.x && pts[3 * i + 1] == s.y && pts[3 * i + 2] == s.z
    by {
      forall i: nat | i <= segments
        ensures var s := ScenePoint(m, lib, el, i, segments);
                pts[3 * i] == s.x && pts[3 * i + 1] == s.y && pts[3 * i + 2] == s.z
      {
        TripleIndex(i);
      }
    }
    pts
  }

  /** Two flat buffers of `count` triples that agree triple by triple are
      equal. */
  lemma SameTriples(a: seq<real>, b: seq<real>, count: nat)
    requires |a| == |b| == 3 * count
    requires forall i: nat :: i < count ==> a[3 * i] == b[3 * i] && a[3 * i + 1] == b[3 * i + 1] && a[3 * i + 2] == b[3 * i + 2]
    ensures a == b
  {
    forall k | 0 <= k < |a|
      ensures a[k] == b[k]
    {
      var i, r := k / 3, k % 3;
      assert k == 3 * i + r && i < count;
    }
  }

  /** The numbers 3i, 3i + 1 and 3i + 2 belong to the i-th triple. */
  lemma TripleIndex(i: nat)
    ensures (3 * i) / 3 == i && (3 * i) % 3 == 0
    ensures (3 * i + 1) / 3 == i && (3 * i + 1) % 3 == 1
    ensures (3 * i + 2) / 3 == i && (3 * i + 2) % 3 == 2
  {
  }

  /** `createEllipseLine(el, segments)` (lines 70-85). The line loop's
      geometry takes its positions from a `Float32BufferAttribute` built on
      the buffer (line 82), which copies the numbers it is given; the line is
      therefore modelled by those numbers, which are the orbit line of
      `el`. */
  method CreateEllipseLine(m: MathFns, lib: Astronomia, el: Elements, segments: nat) returns (line: seq<real>)
    requires WellBehaved(m, lib) && Elliptic(el) && 0 < segments
    ensures line == SampledLine(m, lib, el, segments)
  {
    var positions := TraceOrbit(m, lib, el, segments, jd requires WellBehaved(m, lib) && Elliptic(el) => HeliocentricCoords(m, lib, el, jd));
    var pts := SampledLine(m, lib, el, segments);
    forall i: nat | i <= segments
      ensures positions[3 * i] == pts[3 * i] && positions[3 * i + 1] == pts[3 * i + 1] && positions[3 * i + 2] == pts[3 * i + 2]
    {
      assert ScenePoint(m, lib, el, i, segments) == ToScene(HeliocentricCoords(m, lib, el, SampleJd(m, lib, el, i, segments)));
    }
    SameTriples(positions[..], pts, segments + 1);
    line := positions[..];
  }

  /** n (x / n) == x for n != 0. */
  lemma CancelDivision(n: real, x: real)
    requires n != 0.0
    ensures n * (x / n) == x
  {
  }

  /** The sampling schedule: the line starts at the epoch, the i-th sample
      lies i / segments of a revolution of mean anomaly past the anomaly at
      the epoch, and the last sample one full revolution (2 pi) past it. */
  lemma SampleSchedule(m: MathFns, lib: Astronomia, el: Elements, i: nat, segments: nat)
    requires WellBehaved(m, lib) && Elliptic(el) && 0 < segments
    ensures SampleJd(m, lib, el, 0, segments) == el.epoch
    ensures MeanAnomaly(m, lib, el, SampleJd(m, lib, el, i, segments)) == Radians(m, el.M0) + SampleAnomaly(m, i, segments)
    ensures SampleAnomaly(m, segments, segments) == 2.0 * m.pi
  {
    CancelDivision(MeanMotion(m, lib, el.a), SampleAnomaly(m, i, segments));
    assert segments as real / segments as real == 1.0;
  }

  /** Consecutive samples are one segment's share of the period apart:
      2 pi / (segments n) days. */
  lemma SampleSpacing(m: MathFns, lib: Astronomia, el: Elements, i: nat, segments: nat)
    requires WellBehaved(m, lib) && Elliptic(el) && 0 < segments
    ensures MeanMotion(m, lib, el.a) * (SampleJd(m, lib, el, i + 1, segments) - SampleJd(m, lib, el, i, segments))
            == 2.0 * m.pi / segments as real
  {
    var n := MeanMotion(m, lib, el.a);
    CancelDivision(n, SampleAnomaly(m, i, segments));
    CancelDivision(n, SampleAnomaly(m, i + 1, segments));
    assert SampleAnomaly(m, i + 1, segments) - SampleAnomaly(m, i, segments) == 2.0 * m.pi / segments as real;
  }

  /** Every vertex of the line lies SCALE times the body's heliocentric
      distance r = radius(E, e, a) from the Sun, at the eccentric anomaly of
      its sample time. */
  lemma VertexDistance(m: MathFns, lib: Astronomia, el: Elements, i: nat, segments: nat)
    requires WellBehaved(m, lib) && Elliptic(el) && 0 < segments
    requires AmplitudePhase(m) && Exact(m) && Unit(Obliquity(lib))
    ensures var E := KeplerAnomaly(m, lib, el, SampleJd(m, lib, el, i, segments));
            Norm2(ScenePoint(m, lib, el, i, segments)) == Sq(DisplayScale * lib.radius(E, el.e, el.a))
  {
    var jd := SampleJd(m, lib, el, i, segments);
    HeliocentricDistance(m, lib, el, jd);
    SceneNorm(HeliocentricCoords(m, lib, el, jd));
  }

  /** The line closes: when the library's solver, true anomaly and radius
      repeat after one revolution of mean and eccentric anomaly, the last
      vertex (one period after the epoch) is the first one. */
  lemma LineCloses(m: MathFns, lib: Astronomia, el: Elements, segments: nat)
    requires WellBehaved(m, lib) && Elliptic(el) && 0 < segments
    requires var M0 := Radians(m, el.M0);
             SolveKepler(lib, el.e, M0 + 2.0 * m.pi) == SolveKepler(lib, el.e, M0) + 2.0 * m.pi
    requires var E0 := SolveKepler(lib, el.e, Radians(m, el.M0));
             && lib.trueAnomaly(E0 + 2.0 * m.pi, el.e) == lib.trueAnomaly(E0, el.e)
             && lib.radius(E0 + 2.0 * m.pi, el.e, el.a) == lib.radius(E0, el.e, el.a)
    ensures ScenePoint(m, lib, el, segments, segments) == ScenePoint(m, lib, el, 0, segments)
  {
    SampleSchedule(m, lib, el, segments, segments);
    MeanAnomalyAtEpoch(m, lib, el);
    var last, first := SampleJd(m, lib, el, segments, segments), SampleJd(m, lib, el, 0, segments);
    assert KeplerAnomaly(m, lib, el, last) == KeplerAnomaly(m, lib, el, first) + 2.0 * m.pi;
    HeliocentricSameAnomaly(m, lib, el, last, first);
  }
}
