/** The host's `Math` functions that the pixel code calls. Their values are
    not computed here: a `MathLib` is handed in by the caller, and `Sound`
    lists the few facts about them that the proofs rely on. */
module HostMath {

  /** `Math.PI`. */
  const Pi: real := 3.141592653589793

  /** `Math.sqrt`, `Math.pow`, `Math.exp` and `Math.atan` (radians). */
  datatype MathLib = MathLib(
    sqrt: real -> real,
    pow: (real, real) -> real,
    exp: real -> real,
    atan: real -> real)

  /** What the proofs rely on about the host's functions. */
  ghost predicate Sound(m: MathLib)
  {
    && m.sqrt(0.0) == 0.0
    && (forall x: real :: 0.0 < x ==> 0.0 < m.sqrt(x))
    && (forall x: real :: 0.0 <= x ==> m.sqrt(x) * m.sqrt(x) == x)
    && (forall x: real, y: real :: 0.0 < x ==> 0.0 < m.pow(x, y))
    && (forall x: real :: m.pow(x, 2.0) == x * x)
    && (forall y: real :: m.pow(1.0, y) == 1.0)
    && (forall x: real :: 0.0 < m.exp(x))
    && (forall x: real :: -Pi / 2.0 < m.atan(x) < Pi / 2.0)
    && (forall x: real :: 0.0 < x ==> 0.0 < m.atan(x))
    && (forall x: real :: x < 0.0 ==> m.atan(x) < 0.0)
  }

  /** The part of `Sound` that the Gaussian kernel needs: square roots of
      positive numbers and exponentials are positive. */
  ghost predicate Positive(m: MathLib)
  {
    && (forall x: real :: 0.0 < x ==> 0.0 < m.sqrt(x))
    && (forall x: real :: 0.0 < m.exp(x))
  }

  lemma SoundIsPositive(m: MathLib)
    requires Sound(m)
    ensures Positive(m)
  {
  }

  /** A square is never negative, and positive away from zero. */
  lemma SquarePositive(s: real)
    ensures 0.0 <= s * s
    ensures s != 0.0 ==> 0.0 < s * s
  {
    if s < 0.0 {
      assert s * s == (-s) * (-s);
    }
  }
}
