/**
 The transcendental operations the surface model uses (numpy's `pi`, `sin`,
 `cos`, `sqrt`, `radians`), kept uninterpreted: they are values handed to the
 model, and the only facts the proofs may use about them are the laws of
 `Lawful`. Nothing here fixes them numerically.
 */
module Transcendentals {

  datatype Transcendentals = Transcendentals(
    pi: real,
    sin: real -> real,
    cos: real -> real,
    sqrt: real -> real)

  /** `np.sin`, `np.cos` and `np.sqrt` of one real argument. */
  function Sin(t: Transcendentals, a: real): real { t.sin(a) }
  function Cos(t: Transcendentals, a: real): real { t.cos(a) }
  function Sqrt(t: Transcendentals, a: real): real { t.sqrt(a) }

  /** `sin(a)**2 + cos(a)**2`, the quantity the Pythagorean law fixes at 1. */
  function SquareSum(t: Transcendentals, a: real): real {
    Sq(Sin(t, a)) + Sq(Cos(t, a))
  }

  /** The laws assumed of the operations: a positive pi, sin 0 = 0, the
      Pythagorean identity and positivity of the square root. */
  ghost predicate Lawful(t: Transcendentals) {
    && t.pi > 0.0
    && Sin(t, 0.0) == 0.0
    && (forall a :: SquareSum(t, a) == 1.0)
    && (forall a :: a > 0.0 ==> Sqrt(t, a) > 0.0)
  }

  function Sq(a: real): real {
    a * a
  }

  /** `np.radians`: degrees to radians. */
  function Radians(t: Transcendentals, deg: real): real {
    deg * (t.pi / 180.0)
  }

  /** The laws are consistent: a degenerate stand-in satisfies all of them. */
  lemma LawsAreConsistent()
    ensures exists t :: Lawful(t)
  {
    var t := Transcendentals(3.0, a => 0.0, a => 1.0, a => if a > 0.0 then a else 0.0);
    assert Lawful(t);
  }

  /** The Pythagorean identity in the squared form the surface model uses. */
  lemma Pythagoras(t: Transcendentals, a: real)
    requires Lawful(t)
    ensures Sq(Sin(t, a)) + Sq(Cos(t, a)) == 1.0
  {
    assert SquareSum(t, a) == 1.0;
  }

  /** A square root of anything at least 1 is positive. */
  lemma SqrtOfAtLeastOnePositive(t: Transcendentals, a: real)
    requires Lawful(t)
    requires a >= 1.0
    ensures Sqrt(t, a) > 0.0
  {
  }
}
