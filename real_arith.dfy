/** Real-number helpers shared by both detectors. */
module RealArith {

  /** The square of a real, as the sources write it: `d * d`. */
  function Sq(d: real): real
  {
    d * d
  }

  /** Squares are non-negative, and positive away from zero. */
  lemma SqPositive(d: real)
    ensures Sq(d) >= 0.0
    ensures d != 0.0 ==> Sq(d) > 0.0
  {
    if d > 0.0 {
      calc { Sq(d); == d * d; > 0.0; }
    } else if d < 0.0 {
      calc { Sq(d); == (-d) * (-d); > 0.0; }
    }
  }

  /** `std::abs` on a double. */
  function Abs(x: real): (r: real)
    ensures r >= 0.0 && (r == x || r == -x)
  {
    if x < 0.0 then -x else x
  }
}
