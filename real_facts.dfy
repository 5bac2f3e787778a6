/**
 * Facts about real numbers that both the stability classifier and the phase
 * field rely on: a product vanishes only through a factor, and a square is
 * positive away from zero.
 */
module RealFacts {

  /** The square, kept as a function so that products of squares stay atoms. */
  function Sq(a: real): (r: real)
    ensures 0.0 <= r
  {
    a * a
  }

  lemma ZeroProduct(a: real, b: real)
    requires a * b == 0.0
    ensures a == 0.0 || b == 0.0
  {
  }

  /** A square is zero exactly at zero and positive everywhere else. */
  lemma SquareZero(s: real)
    ensures Sq(s) == 0.0 <==> s == 0.0
    ensures s != 0.0 ==> 0.0 < Sq(s)
  {
    if Sq(s) == 0.0 {
      ZeroProduct(s, s);
    }
  }
}
