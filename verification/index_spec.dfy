/** The one inline helper of the index-specification header: the larger of
    two C `int`s.  Both arguments are already `int`, so no wrap-around can
    happen and the model works on unbounded integers. */
module IndexSpec {

  /** `imax(i, j)`: `j` when `i < j`, otherwise `i` (so a tie yields `i`). */
  function Imax(i: int, j: int): (r: int)
    ensures r >= i && r >= j
    ensures r == i || r == j
    ensures i < j ==> r == j
    ensures j <= i ==> r == i
  {
    if i < j then j else i
  }

  /** The maximum of a value with itself is that value. */
  lemma ImaxIdempotent(i: int)
    ensures Imax(i, i) == i
  {
  }

  /** As values, the argument order does not matter. */
  lemma ImaxCommutes(i: int, j: int)
    ensures Imax(i, j) == Imax(j, i)
  {
  }

  /** `Imax` is the least upper bound of its arguments: any bound of both
      bounds the result. */
  lemma ImaxLeastUpperBound(i: int, j: int, b: int)
    ensures (i <= b && j <= b) <==> Imax(i, j) <= b
  {
  }
}
