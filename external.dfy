/** The collaborators the small-body kernel calls but does not implement:
    JavaScript's Math object and the astronomia library (its `base` constants
    and its `kepler` module). Both are passed to the kernel as values, so every
    function of the model is deterministic in them. */
module External {

  datatype Option<+T> = None | Some(value: T)

  /** The parts of JavaScript's `Math` that the kernel uses. */
  datatype MathFns = MathFns(
    sin: real -> real,
    cos: real -> real,
    sqrt: real -> real,
    atan2: (real, real) -> real,
    hypot: (real, real) -> real,
    pi: real)

  /** astronomia: `base.K` (Gaussian gravitational constant), the precomputed
      sine and cosine of the J2000 obliquity, and the Kepler helpers.
      `kepler2b(e, M, places)` returns `None` where the library throws. */
  datatype Astronomia = Astronomia(
    K: real,
    sOblJ2000: real,
    cOblJ2000: real,
    kepler2b: (real, real, nat) -> Option<real>,
    kepler3: (real, real) -> real,
    trueAnomaly: (real, real) -> real,
    radius: (real, real, real) -> real)

  /** What IEEE arithmetic guarantees and the kernel relies on for its divisions
      to be defined: a cosine lies in [-1, 1], the square root of a positive
      number is positive, and the gravitational constant is positive. */
  ghost predicate WellBehaved(m: MathFns, lib: Astronomia) {
    && (forall x :: -1.0 <= m.cos(x) <= 1.0)
    && (forall x :: 0.0 < x ==> 0.0 < m.sqrt(x))
    && 0.0 < lib.K
  }

  /** The real-number idealisation of `Math`, used only by the geometric lemmas:
      sin^2 + cos^2 = 1 and sqrt is the exact non-negative root. */
  ghost predicate Exact(m: MathFns) {
    && (forall x :: m.sin(x) * m.sin(x) + m.cos(x) * m.cos(x) == 1.0)
    && (forall x :: 0.0 <= x ==> 0.0 <= m.sqrt(x) && m.sqrt(x) * m.sqrt(x) == x)
  }

  /** The amplitude-phase identity of real trigonometry at one point,
      hypot(A, B) sin(atan2(A, B) + t) = A cos t + B sin t. */
  ghost predicate AmplitudePhaseAt(m: MathFns, A: real, B: real, t: real) {
    m.hypot(A, B) * m.sin(m.atan2(A, B) + t) == A * m.cos(t) + B * m.sin(t)
  }

  /** The identity everywhere. */
  ghost predicate AmplitudePhase(m: MathFns) {
    forall A: real, B: real, t: real :: AmplitudePhaseAt(m, A, B, t)
  }
}
