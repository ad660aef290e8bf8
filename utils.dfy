/**
 * Flat indexing of a 3D grid (src/utils.rs): x varies fastest, then y,
 * then z. `IndexToCoord` is imported by the chunk code but its source is
 * not part of this model; it is defined here as the inverse of
 * `CoordToIndex` on in-bounds indices, and the two round-trip lemmas say so.
 */
module Utils {
  import opened Geometry

  /** The number of cells of a grid of the given size. */
  function Volume(size: UVec3): nat {
    size.x * size.y * size.z
  }

  /** `p` addresses a cell of a grid of the given size. */
  predicate InBounds(p: UVec3, size: UVec3) {
    p.x < size.x && p.y < size.y && p.z < size.z
  }

  /** `coord_to_index`: the position of cell `p` in the flat voxel vector. */
  function CoordToIndex(p: UVec3, size: UVec3): nat {
    p.x + p.y * size.x + p.z * size.x * size.y
  }

  /** `index_to_coord`: the cell stored at flat index `i`. */
  function IndexToCoord(i: nat, size: UVec3): (p: UVec3)
    requires size.x > 0 && size.y > 0
    ensures p.x < size.x && p.y < size.y
  {
    UVec3(i % size.x, (i / size.x) % size.y, i / (size.x * size.y))
  }

  /**
   * Cell `c` is visited before step (x, z, y) of a loop nest that runs x
   * outermost, then z, then y innermost. This is not part of src/utils.rs:
   * it is the visiting order shared by the loop nests of src/generator.rs
   * and src/generation.rs, kept here so that it is defined once.
   */
  ghost predicate VisitedBefore(c: UVec3, x: nat, z: nat, y: nat) {
    c.x < x || (c.x == x && (c.z < z || (c.z == z && c.y < y)))
  }

  // ---------------------------------------------------------------------
  // Arithmetic helpers

  lemma MulMono(a: int, b: int, c: int)
    requires a <= b && c >= 0
    ensures a * c <= b * c
  {
    assert b * c - a * c == (b - a) * c;
  }

  /** A nonzero multiple of `n` is at least `n` away from zero. */
  lemma MulAwayFromZero(k: int, n: int)
    requires n >= 0
    ensures k >= 1 ==> k * n >= n
    ensures k <= -1 ==> k * n <= -n
  {
    if k >= 1 {
      MulMono(1, k, n);
    } else if k <= -1 {
      MulMono(k, -1, n);
    }
  }

  /** Euclidean division is determined by any quotient/remainder pair. */
  lemma DivModOf(a: int, n: int, q: int, r: int)
    requires n > 0 && 0 <= r < n && a == q * n + r
    ensures a / n == q && a % n == r
  {
    var q', r' := a / n, a % n;
    assert (q - q') * n == r' - r;
    MulAwayFromZero(q - q', n);
  }

  /** A digit below `n` plus `n` times a digit below `m` stays below `n * m`. */
  lemma DigitBound(a: int, b: int, n: int, m: int)
    requires 0 <= a < n && 0 <= b < m
    ensures a + n * b < n * m
  {
    MulMono(b, m - 1, n);
    assert (m - 1) * n == n * m - n;
  }

  /** The source's expression in nested (Horner) form. */
  lemma HornerForm(p: UVec3, size: UVec3)
    ensures CoordToIndex(p, size) == p.x + size.x * (p.y + size.y * p.z)
  {
    assert size.x * (p.y + size.y * p.z) == size.x * p.y + size.x * (size.y * p.z);
    assert p.z * size.x * size.y == size.x * (size.y * p.z);
  }

  // ---------------------------------------------------------------------
  // Properties of the flat index

  /** x varies fastest: one step along x, y or z moves the index by 1, sx or sx*sy. */
  lemma CoordToIndexSteps(p: UVec3, size: UVec3)
    ensures CoordToIndex(UVec3(p.x + 1, p.y, p.z), size) == CoordToIndex(p, size) + 1
    ensures CoordToIndex(UVec3(p.x, p.y + 1, p.z), size) == CoordToIndex(p, size) + size.x
    ensures CoordToIndex(UVec3(p.x, p.y, p.z + 1), size) == CoordToIndex(p, size) + size.x * size.y
  {
    assert (p.y + 1) * size.x == p.y * size.x + size.x;
    assert (p.z + 1) * size.x * size.y == p.z * size.x * size.y + size.x * size.y;
  }

  /** Every in-bounds cell has an index below the grid volume. */
  lemma CoordToIndexBound(p: UVec3, size: UVec3)
    requires InBounds(p, size)
    ensures CoordToIndex(p, size) < Volume(size)
  {
    HornerForm(p, size);
    DigitBound(p.y, p.z, size.y, size.z);
    DigitBound(p.x, p.y + size.y * p.z, size.x, size.y * size.z);
    assert size.x * (size.y * size.z) == Volume(size);
  }

  /** Decoding an in-bounds cell's index gives the cell back. */
  lemma CoordRoundTrip(p: UVec3, size: UVec3)
    requires InBounds(p, size)
    ensures IndexToCoord(CoordToIndex(p, size), size) == p
  {
    var i := CoordToIndex(p, size);
    var row := p.y + size.y * p.z;
    HornerForm(p, size);
    assert i == row * size.x + p.x;
    DivModOf(i, size.x, row, p.x);
    DivModOf(row, size.y, p.z, p.y);
    assert i / size.x / size.y == p.z;
    DivQuot(i, size.x, size.y);
  }

  /** Dividing twice is dividing by the product. */
  lemma DivQuot(i: int, a: int, b: int)
    requires i >= 0 && a > 0 && b > 0
    ensures i / a / b == i / (a * b)
  {
    var q1, r1 := i / a, i % a;
    var q2, r2 := q1 / b, q1 % b;
    assert i == q2 * (a * b) + (r2 * a + r1) by {
      assert q1 == q2 * b + r2;
      assert i == q1 * a + r1;
      assert q1 * a == q2 * b * a + r2 * a;
      assert q2 * b * a == q2 * (a * b);
    }
    DigitBound(r1, r2, a, b);
    DivModOf(i, a * b, q2, r2 * a + r1);
  }

  /** Every index below the volume is the index of the in-bounds cell it decodes to. */
  lemma IndexRoundTrip(i: nat, size: UVec3)
    requires size.x > 0 && size.y > 0 && i < Volume(size)
    ensures InBounds(IndexToCoord(i, size), size)
    ensures CoordToIndex(IndexToCoord(i, size), size) == i
  {
    var p := IndexToCoord(i, size);
    var row := i / size.x;
    DivQuot(i, size.x, size.y);
    assert p.z == row / size.y;
    assert i == row * size.x + p.x;
    assert row == p.z * size.y + p.y;
    HornerForm(p, size);
    assert i == p.x + size.x * (p.y + size.y * p.z);
    assert i >= p.z * (size.x * size.y) by {
      MulMono(p.z * size.y, row, size.x);
      assert p.z * size.y * size.x == p.z * (size.x * size.y);
    }
    MulAwayFromZero(p.z - size.z + 1, size.x * size.y);
    assert (p.z - size.z + 1) * (size.x * size.y) == p.z * (size.x * size.y) - Volume(size) + size.x * size.y;
  }

  /** On in-bounds cells the flat index is injective. */
  lemma CoordToIndexInjective(p: UVec3, q: UVec3, size: UVec3)
    requires InBounds(p, size) && InBounds(q, size)
    ensures CoordToIndex(p, size) == CoordToIndex(q, size) ==> p == q
  {
    CoordRoundTrip(p, size);
    CoordRoundTrip(q, size);
  }

  /** Outside the bounds the index is not injective: one step past the x edge is the next row. */
  lemma CoordToIndexAliasesOutOfBounds(size: UVec3)
    requires size.x > 0 && size.y > 1 && size.z > 0
    ensures !InBounds(UVec3(size.x, 0, 0), size) && InBounds(UVec3(0, 1, 0), size)
    ensures CoordToIndex(UVec3(size.x, 0, 0), size) == CoordToIndex(UVec3(0, 1, 0), size)
  {
  }
}
