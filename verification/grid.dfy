/** Row-major addressing of a grid of samples `width` columns wide.

    The terrain mesh stores the sample in column x and row z at index
    z * width + x, and the sphere mesh lays its stacks × sectors vertices out
    the same way. This module defines that addressing once and proves that it
    is a bijection between grid coordinates and [0, width * height).
 */
module Grid {

  /** Index of the sample in column x and row z. */
  function Index(width: int, x: int, z: int): int {
    z * width + x
  }

  /** Column of the sample stored at index i. */
  function Column(width: int, i: int): int
    requires width > 0
  {
    i % width
  }

  /** Row of the sample stored at index i. */
  function Row(width: int, i: int): int
    requires width > 0
  {
    i / width
  }

  predicate InGrid(width: int, height: int, x: int, z: int) {
    0 <= x < width && 0 <= z < height
  }

  function Min(a: int, b: int): int {
    if a <= b then a else b
  }

  function Max(a: int, b: int): int {
    if a >= b then a else b
  }

  /** a * c <= b * c for 0 <= a <= b and c >= 0. */
  lemma MulMonotone(a: int, b: int, c: int)
    requires 0 <= a <= b && 0 <= c
    ensures a * c <= b * c
  {
    assert b * c == a * c + (b - a) * c;
  }

  /** The product of two non-negative reals is non-negative. */
  lemma MulNonNegative(p: real, q: real)
    requires 0.0 <= p && 0.0 <= q
    ensures 0.0 <= p * q
  {
  }

  /** Euclidean division is unique: q and r are the quotient and remainder of n by w. */
  lemma DivModUnique(n: int, w: int, q: int, r: int)
    requires w > 0 && 0 <= r < w && n == q * w + r
    ensures n / w == q && n % w == r
  {
    var q', r' := n / w, n % w;
    assert n == q' * w + r';
    assert (q - q') * w == r' - r;
    if q > q' {
      MulMonotone(1, q - q', w);
    } else if q < q' {
      MulMonotone(1, q' - q, w);
    }
  }

  /** Every in-grid coordinate pair addresses a slot of the W×H buffer. */
  lemma IndexInBounds(width: int, height: int, x: int, z: int)
    requires InGrid(width, height, x, z)
    ensures 0 <= Index(width, x, z) < width * height
  {
    MulMonotone(z + 1, height, width);
    assert (z + 1) * width == z * width + width;
  }

  /** Decoding an index gives back the coordinates it was built from. */
  lemma CoordinatesOfIndex(width: int, x: int, z: int)
    requires 0 <= x < width
    ensures Column(width, Index(width, x, z)) == x
    ensures Row(width, Index(width, x, z)) == z
  {
    DivModUnique(Index(width, x, z), width, z, x);
  }

  /** Encoding the decoded coordinates of an index gives back the index, and
      the coordinates of an in-buffer index lie in the grid. */
  lemma IndexOfCoordinates(width: int, height: int, i: int)
    requires width > 0 && 0 <= i < width * height
    ensures Index(width, Column(width, i), Row(width, i)) == i
    ensures InGrid(width, height, Column(width, i), Row(width, i))
  {
    var x, z := Column(width, i), Row(width, i);
    assert i == z * width + x;
    if z >= height {
      MulMonotone(height, z, width);
      assert false;
    }
  }
}
