# Small bodies of the Zodiom orrery, in Dafny

Zodiom draws the Solar System with three.js. Its small-body kernel,
`src/smallBodies.js`, handles four catalogued minor bodies: Ceres, Vesta,
Halley and NEOWISE. For each one it:

- draws the Keplerian orbit as a closed line loop (`createEllipseLine`);
- computes an equatorial state vector at a Julian day from the osculating
  elements (`stateVectorFromElements`);
- hands those state vectors to astronomy-engine's `GravitySimulator`;
- moves the body meshes to the simulator's states on each update
  (`updateSmallBodyPositions`).

The orbit line comes from a second closed form, `heliocentricCoords`. It
works through Gauss's vectorial constants and amplitude/phase sines.

This project models that kernel and proves properties of the model.

The collaborators the kernel calls are records of total functions, passed as
parameters: JavaScript's `Math` (`External.MathFns`) and astronomia's
`base`/`kepler` (`External.Astronomia`). Every function of the model is
therefore deterministic in them. Where a property needs real trigonometry,
the lemma assumes it as a hypothesis:

- `Exact`: sin² + cos² = 1 and an exact square root;
- `Unit(Obliquity(lib))`: the J2000 sine and cosine belong to one angle;
- `AmplitudePhase`: hypot(A, B)·sin(atan2(A, B) + t) = A cos t + B sin t.

The lemmas are stated for all such collaborators.

Modules, one per file:

- `External` (external.dfy): the collaborators and the hypotheses about
  them.
- `Geometry` (geometry.dfy): vectors and the two rotations the kernel
  writes out by hand:
  - the direction-cosine map of lines 117-123;
  - the obliquity rotation of lines 128-134.
- `Kepler` (kepler.dfy): elements, `RAD`, the mean motion, the mean anomaly,
  the kepler2b → kepler3 fallback, and the orbital-plane position and
  velocity (lines 87-108 and 158-172).
- `StateVectors` (state_vector.dfy): `stateVectorFromElements` and
  `heliocentricCoords`.
- `OrbitPath` (orbit_path.dfy): `createEllipseLine`, as an imperative loop
  that fills an `array<real>`. The line keeps a copy of the buffer's
  numbers, as a `seq<real>`.
- `SmallBodies` (small_bodies.dfy): the catalogue, `createSmallBodyMeshes`,
  and the `bodies` dictionary as the class `BodyTable`, whose
  `entries: map<string, Entry>` the update method reassigns.

## Model

| member | source | states |
|---|---|---|
| Kepler.MeanMotion | src/smallBodies.js:73 | n = K / a / sqrt(a) is positive for every positive semi-major axis when K > 0 and sqrt is positive on positives, so the divisions `M / n` of line 76 are defined |
| Kepler.MeanAnomaly | src/smallBodies.js:94-95 | computes M = M0·RAD + n·(jd − epoch); its properties are MeanAnomalyAtEpoch and MeanAnomalyAdvance |
| Kepler.MeanAnomalyAtEpoch | src/smallBodies.js:93-95 | at jd = epoch the mean anomaly is the element M0 converted to radians with RAD = π/180 (line 7) |
| Kepler.MeanAnomalyAdvance | src/smallBodies.js:164-166 | the mean anomaly advances linearly in time: M(jd + dt) = M(jd) + n·dt |
| Kepler.SolveKepler | src/smallBodies.js:96-101 | computes the try/catch: kepler2b(e, M, 8), or kepler3(e, M) where kepler2b throws (None); its properties are SolveKeplerFallback |
| Kepler.SolveKeplerFallback | src/smallBodies.js:96-101 | the eccentric anomaly is kepler2b(e, M, 8) when that returns, and kepler3(e, M) when kepler2b throws; when the tier that answers (kepler2b when it returns, kepler3 when it throws) solves Kepler's equation M = E − e sin E to a tolerance, so does the solve |
| Kepler.Denominator | src/smallBodies.js:107-108 | the divisor 1 − e cos E of the velocity is positive for every elliptical orbit (0 ≤ e < 1) and any cosine in [−1, 1] |
| Kepler.OrbitalPosition | src/smallBodies.js:105-106 | computes (a(cos E − e), a·sqrt(1 − e²)·sin E); its distance from the Sun is OrbitalRadius |
| Kepler.OrbitalVelocity | src/smallBodies.js:107-108 | computes (−a n sin E / (1 − e cos E), a n sqrt(1 − e²) cos E / (1 − e cos E)); its properties are VelocityFactored, OrbitalVisViva and OrbitalAngularMomentum |
| Kepler.OrbitalStateAt | src/smallBodies.js:102-108 | computes the orbital-plane position and velocity at jd from E; its properties are OrbitDistance, OrbitVisViva and OrbitMomentum |
| Kepler.ExactOrbit | src/smallBodies.js:102-106 | with exact trigonometry, (sin E, cos E) is a unit pair, and q = sqrt(1 − e²) squares back to 1 − e² |
| Kepler.OrbitalRadius | src/smallBodies.js:104-106 | for a unit (sin E, cos E) and q² = 1 − e², the orbital-plane point (a(cos E − e), a q sin E) lies at distance r = a(1 − e cos E) |
| Kepler.VelocityFactored | src/smallBodies.js:107-108 | the velocity of lines 107-108 is k·(−sin E, q cos E) with k·(1 − e cos E) = a n |
| Kepler.OrbitalVisViva | src/smallBodies.js:104-108 | the orbital-plane position and velocity satisfy vis-viva, v² = n²a³ (2/r − 1/a), written without division as v²·r = n²a²(2a − r) |
| Kepler.OrbitalAngularMomentum | src/smallBodies.js:105-108 | the orbital-plane angular momentum x·ẏ − y·ẋ equals a² n sqrt(1 − e²) for every E |
| Kepler.OrbitDistance | src/smallBodies.js:102-106 | the body's orbital-plane position at any jd lies at r = a(1 − e cos E) from the Sun |
| Kepler.OrbitVisViva | src/smallBodies.js:94-108 | the body's orbital-plane state at any jd satisfies vis-viva with the mean motion of its own elements |
| Kepler.OrbitMomentum | src/smallBodies.js:94-108 | the body's orbital-plane angular momentum is the same constant h at every jd |
| Kepler.AngularMomentumSquared | src/smallBodies.js:94-106 | h² = (a² n)² (1 − e²) |
| Geometry.Orient | src/smallBodies.js:117-123 | computes the direction-cosine map of lines 117-119 (position) and 121-123 (velocity), one function for both; its properties are OrientLinear, OrientPreservesDot and OrientFlat |
| Geometry.EclipticToEquatorial | src/smallBodies.js:128-134 | the obliquity rotation leaves the x component unchanged |
| Geometry.EquatorialRoundTrip | src/smallBodies.js:125-134 | when the J2000 sine and cosine belong to one angle, the inverse rotation undoes the ecliptic→equatorial rotation, and the rotation undoes the inverse |
| Geometry.OrientLinear | src/smallBodies.js:117-123 | the direction-cosine map is linear: the map of k·p + q is k times the map of p plus the map of q, so position and velocity go through one linear map |
| Geometry.OrientPreservesDot | src/smallBodies.js:117-123 | with exact node, inclination and periapsis sines/cosines, the map keeps dot products, so lengths and angles from the orbital plane survive |
| Geometry.OrientFlat | src/smallBodies.js:119 | when sin i = 0 the mapped vector has z = 0 |
| Geometry.RotatedCrossNorm | src/smallBodies.js:117-134 | through both rotations the squared norm of pos × vel equals the square of the orbital-plane wedge x·ẏ − y·ẋ |
| StateVectors.StateVectorFromElements | src/smallBodies.js:87-137 | the equatorial state vector keeps the ecliptic x and vx, because the obliquity rotation fixes the x-axis |
| StateVectors.StateVectorRadius | src/smallBodies.js:87-137 | the returned position lies at distance r = a(1 − e cos E) from the Sun |
| StateVectors.StateVectorVisViva | src/smallBodies.js:87-137 | the returned position and velocity satisfy vis-viva with the elements' mean motion |
| StateVectors.StateVectorAngularMomentum | src/smallBodies.js:87-137 | the squared norm of pos × vel is h² at every jd: the angular momentum of the returned states is constant |
| StateVectors.StateInOrbitPlane | src/smallBodies.js:117-123 | ecliptic position and velocity are both combinations of the same two axes, which depend on the elements only: the body stays in one orbit plane |
| StateVectors.ZeroInclinationStaysInEcliptic | src/smallBodies.js:119-123 | for i = 0 the ecliptic position and velocity have z = 0 |
| StateVectors.PeriapsisAtEpoch | src/smallBodies.js:93-106 | a body with M0 = 0 (and a solver returning E = 0 for M = 0) is at periapsis distance a(1 − e) at its epoch |
| StateVectors.CircularOrbitAtEpoch | src/smallBodies.js:87-137 | the circular unit orbit with all angles zero is at (1, 0, 0) AU at its epoch, in the ecliptic and the equatorial frame |
| StateVectors.CircularOrbitHalfPeriod | src/smallBodies.js:87-137 | the same orbit half a period later (jd = epoch + π/n), where cos π = −1, sin π = 0 and the solver returns E = π for M = π, is at (−1, 0, 0) AU in both frames: the point opposite its epoch position |
| StateVectors.GaussConstants | src/smallBodies.js:179-184 | computes F, G, H, P, Q, R from the node, inclination and obliquity sines and cosines; its properties are GaussAxes and GaussOrthonormal |
| StateVectors.PhaseCoordinate | src/smallBodies.js:192-194 | computes one coordinate r·hypot(A, B)·sin(atan2(A, B) + w + ν); its meaning under the amplitude-phase identity is AmplitudeVector |
| StateVectors.HeliocentricCoords | src/smallBodies.js:158-196 | computes `heliocentricCoords(el, jd)`; its properties are HeliocentricSameAnomaly, HeliocentricInOrbitPlane and HeliocentricDistance |
| StateVectors.HeliocentricSameAnomaly | src/smallBodies.js:173-195 | `heliocentricCoords` depends on the time only through the true anomaly and the radius at E: two times with equal ν and r give the same point |
| StateVectors.GaussAxes | src/smallBodies.js:175-184 | (F, G, H) and (P, Q, R) are the equatorial images of the node axis and of the in-plane axis 90° ahead of it, through the same direction-cosine map and obliquity rotation as the state vector |
| StateVectors.GaussOrthonormal | src/smallBodies.js:179-184 | with exact node, inclination and obliquity sines/cosines, (F, G, H) and (P, Q, R) are orthonormal |
| StateVectors.AmplitudeVector | src/smallBodies.js:185-194 | under the amplitude-phase identity, the three r·hypot·sin(atan2 + angle) coordinates equal r·(cos t·(F, G, H) + sin t·(P, Q, R)) |
| StateVectors.HeliocentricInOrbitPlane | src/smallBodies.js:158-196 | `heliocentricCoords` is r times cos(w + ν)·(F, G, H) + sin(w + ν)·(P, Q, R), a point of the orbit plane spanned by the Gauss axes |
| StateVectors.HeliocentricDistance | src/smallBodies.js:158-196 | `heliocentricCoords` lies at the library's radius(E, e, a) from the Sun |
| OrbitPath.ToScene | src/smallBodies.js:78-80 | the scene point (x·SCALE, z·SCALE, y·SCALE) gives back the heliocentric point under the inverse mapping: swapping y and z and scaling by 5 loses nothing |
| OrbitPath.SceneNorm | src/smallBodies.js:78-80 | drawing multiplies every squared distance by SCALE² |
| OrbitPath.SetVertex | src/smallBodies.js:78-80 | the i-th triple of the buffer receives the three components, and every other slot is unchanged |
| OrbitPath.TraceOrbit | src/smallBodies.js:72-81 | the loop returns a fresh buffer of 3·(segments + 1) numbers whose i-th triple, for every i ≤ segments, is the scene point of the position at jd_i = epoch + M_i / n, M_i = (i / segments)·2π |
| OrbitPath.SampledLine | src/smallBodies.js:72-80 | the orbit line as numbers: 3·(segments + 1) of them, and the i-th triple is (x·5, z·5, y·5) of `heliocentricCoords` at the i-th sample time, for every i ≤ segments |
| OrbitPath.CreateEllipseLine | src/smallBodies.js:70-85 | the line's position attribute, a copy of the buffer the loop filled (line 82), is the orbit line SampledLine of the elements |
| OrbitPath.SampleSchedule | src/smallBodies.js:73-76 | the first sample is at the epoch; the i-th sample's mean anomaly is M0 in radians plus (i / segments)·2π; the last sample's mean anomaly is exactly one revolution (2π) past the first |
| OrbitPath.LineCloses | src/smallBodies.js:74-80 | the line closes: when the solver, the true anomaly and the radius repeat after one revolution of anomaly, the last vertex (i = segments) equals the first (i = 0) |
| OrbitPath.SampleSpacing | src/smallBodies.js:73-76 | consecutive samples are evenly spaced in time: n·(jd_{i+1} − jd_i) = 2π / segments |
| OrbitPath.VertexDistance | src/smallBodies.js:74-80 | every vertex of the line lies 5·r from the Sun in scene units, with r = radius(E, e, a) at its sample time |
| SmallBodies.CatalogueElliptic | src/smallBodies.js:9-62 | every catalogued body has a > 0 and 0 ≤ e < 1, so the kernel's divisions and square roots are defined for all four |
| SmallBodies.LowerIsLower | src/smallBodies.js:147 | lower-casing keeps the length, leaves no capital A-Z, and is idempotent |
| SmallBodies.CatalogueKeys | src/smallBodies.js:147 | the four keys are "ceres", "vesta", "halley" and "neowise": pairwise distinct, none equal to "_sim" |
| SmallBodies.BodyTable.constructor | src/smallBodies.js:140 | the table starts empty |
| SmallBodies.BodyTable.UpdatePositions | src/smallBodies.js:198-209 | without `_sim` nothing changes; with it every key is kept, the `_sim` entry is left alone, and every body is moved to (x·5, z·5, y·5) of the state at its own index; the table stays well formed |
| SmallBodies.RegisterBodies | src/smallBodies.js:143-152 | the loop yields a sphere and an orbit line per body, line k being body k's orbit line with 180 segments (OrbitLines), the initial state vectors in catalogue order, and a table registering each body under its lower-cased name with the index of its state |
| SmallBodies.LoopStep | src/smallBodies.js:143-152 | one more body appends its sphere and orbit line to the objects and its state to the list, and registers it under its key with the index of that state |
| SmallBodies.CreateSmallBodyMeshes | src/smallBodies.js:139-156 | objects alternate sphere (radius 0.05, the body's colour) and orbit line, 2 per body, and line k is body k's orbit line (SampledLine with 180 segments); the returned table is well formed and equals the registered bodies plus the simulator, after one update |
| SmallBodies.SceneObjectsLayout | src/smallBodies.js:143-146 | body k's sphere is object 2k and its orbit line object 2k + 1, and there are 2·|catalogue| objects |
| SmallBodies.InitialState | src/smallBodies.js:149-150 | computes the `StateVector` pushed for a body: its state vector at `toi.getJulianDay()`, stamped with `toi.getDate()`; its place in the list is InitialStatesAt |
| SmallBodies.OrbitLines | src/smallBodies.js:144-146 | computes the orbit lines drawn, one per body in catalogue order, as many as bodies; its property is OrbitLinesAt |
| SmallBodies.OrbitLinesAt | src/smallBodies.js:144-146 | the k-th line drawn is body k's orbit line with 180 segments |
| SmallBodies.InitialStatesAt | src/smallBodies.js:149-150 | the k-th state handed to the simulator is body k's state vector at the Julian day, stamped with the date |
| SmallBodies.Registered | src/smallBodies.js:147-151 | computes the table the registration loop builds, entry by entry in catalogue order; its properties are RegisteredEntry, RegisteredIndicesDistinct and RegisteredDistinct |
| SmallBodies.RegisteredEntry | src/smallBodies.js:147-151 | a key is present exactly when some body lower-cases to it; it then holds the last such body, with that body's elements, its catalogue position as index and its mesh at the origin |
| SmallBodies.RegisteredIndicesDistinct | src/smallBodies.js:147-151 | two different keys never share an index, so each simulator state moves at most one body |
| SmallBodies.RegisteredDistinct | src/smallBodies.js:147-151 | when no two names lower-case alike, body k is under its own key with index k |
| SmallBodies.Moved | src/smallBodies.js:203-207 | computes the table after the update loop; its properties are MovedEntries and MovedTwice |
| SmallBodies.MovedEntries | src/smallBodies.js:203-207 | the update keeps every key and the simulator entry, keeps each body's elements and index, and puts it at the scene position of its own state |
| SmallBodies.MovedTwice | src/smallBodies.js:198-209 | only the latest states matter: updating twice is updating once with the second list, so repeating an update changes nothing |
| SmallBodies.PlacedRoundTrip | src/smallBodies.js:207 | a body's drawn position gives back its state's heliocentric position |
| SmallBodies.CreatedTable | src/smallBodies.js:139-156 | the created table's keys are exactly the four names and "_sim"; "_sim" holds the simulator built on the four initial states at the date; body k is under its key with index k at the scene position of the k-th state |

## Left out

- IEEE double rounding, the Float32 rounding of the line buffer, NaN and infinities: the model computes over mathematical reals.
- Real trigonometry, square roots, `atan2` and `hypot`: they are parameters of the model. Geometric lemmas assume the identities they need as hypotheses (`Exact`, `AmplitudePhase`, `Unit(Obliquity(lib))`).
- That `heliocentricCoords` and `stateVectorFromElements` give the same position: the two use different library routines (`trueAnomaly`/`radius` against explicit cos E, sin E). The model proves that each lies in its orbit plane at the expected distance, but does not equate them.
- Error bounds of kepler2b and kepler3: SolveKeplerFallback carries a residual bound over only when one is given for the library's answer.
- The library's `radius(E, e, a)` is not related to a(1 − e cos E): HeliocentricDistance and VertexDistance state the distance in terms of the library's value.
- CreateEllipseLine, TraceOrbit, SampleSchedule: `segments = 0` is excluded (`0 < segments`). In the source it divides 0 by 0 and fills the buffer with NaN; the kernel only calls it with the default 180.
- Hyperbolic and parabolic orbits (e ≥ 1) and a ≤ 0: every operation requires an elliptical orbit, and every catalogued body is one (CatalogueElliptic).
- SmallBodies.ToLower: only ASCII A-Z are lower-cased. JavaScript's `toLowerCase` also folds other scripts, which the four catalogue names do not contain.
- three.js geometries, materials and meshes (`createSphereMesh`, `BufferGeometry`, `LineBasicMaterial`, `LineLoop`): a mesh is a `SceneObject` value (a sphere's radius and colour, or the numbers of the line's position attribute), and a body's mesh is represented by its position.
- The identity of a body's sphere: in the source the sphere pushed to `objects` (line 146) and `bodies[name].mesh` (line 148) are one object, so the update at line 207 moves the drawn sphere. The model's `Sphere(radius, color)` has no position and is not linked to the table entry, whose position the update moves.
- astronomy-engine's `GravitySimulator`: its N-body integration is not modelled. The states its `Update(date)` returns are a parameter (`states`) holding one state per body it was built on. Its construction is recorded as the `Simulator(date, initial states)` entry.
- `toi.getJulianDay()` and `toi.getDate()` are the fields of a `TimeOfInterest` value. Dates are reals.
- The iteration order of `Object.keys`: the update's result does not depend on it, because each body is moved independently; UpdatePositions picks keys in any order.
- The loops of `createEllipseLine` and `createSmallBodyMeshes` are each a method of their own (TraceOrbit, with its three writes in SetVertex, and RegisterBodies).
- RegisterBodies writes a body's entry once, after its state is pushed, with the index already set. The source writes `{ mesh, elements }` first (line 148) and adds the index after the push (line 151). The entry holds no mesh, only its position.
- LineCloses: the closing of the loop rests on hypotheses about the library (the solver returns E + 2π for M + 2π; the true anomaly and the radius repeat after 2π of E). The model does not derive them from kepler2b, kepler3, trueAnomaly or radius, whose code is not part of this model.
- The rest of the repository (the planets, Pluto, time utilities, the UI and the server) is not part of this model.
