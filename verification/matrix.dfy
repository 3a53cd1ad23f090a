/** Dense integer matrices, the stand-in for Armadillo's `Mat<eT>`.
    Elements are integers so that convolution and symmetrisation are exact. */
module Matrix {

  /** An nRows x nCols matrix held row by row. Armadillo stores elements
      column-major; that order is only observable through `Elems`, which reads
      a vector in memory order. */
  datatype Mat = Mat(nRows: nat, nCols: nat, cells: seq<seq<int>>)

  predicate Valid(m: Mat) {
    && |m.cells| == m.nRows
    && forall r | 0 <= r < m.nRows :: |m.cells[r]| == m.nCols
  }

  /** `n_elem` */
  function NElem(m: Mat): nat {
    m.nRows * m.nCols
  }

  /** `is_empty()`: no elements. */
  predicate IsEmpty(m: Mat) {
    m.nRows == 0 || m.nCols == 0
  }

  /** `is_vec()`: a row or a column vector (possibly empty, as 0x1 or 1x0). */
  predicate IsVec(m: Mat) {
    m.nRows == 1 || m.nCols == 1
  }

  /** `is_square()` */
  predicate IsSquare(m: Mat) {
    m.nRows == m.nCols
  }

  /** Element (r, c), and 0 for every index outside the matrix. The zero
      outside is what the zero padding of a 2D image relies on. */
  function Get(m: Mat, r: int, c: int): int {
    if 0 <= r < |m.cells| && 0 <= c < |m.cells[r]| then m.cells[r][c] else 0
  }

  /** The 0x0 matrix that `reset()` leaves behind. */
  function Empty(): (e: Mat)
    ensures Valid(e) && IsEmpty(e) && NElem(e) == 0
  {
    Mat(0, 0, [])
  }

  /** The nr x nc matrix whose element (r, c) is f(r, c). */
  function Build(nr: nat, nc: nat, f: (int, int) -> int): (m: Mat)
    ensures Valid(m) && m.nRows == nr && m.nCols == nc
    ensures forall r, c | 0 <= r < nr && 0 <= c < nc :: Get(m, r, c) == f(r, c)
  {
    Mat(nr, nc, seq(nr, r => seq(nc, c => f(r, c))))
  }

  /** `zeros(nr, nc)` */
  function Zeros(nr: nat, nc: nat): (z: Mat)
    ensures Valid(z) && z.nRows == nr && z.nCols == nc
    ensures forall r, c :: Get(z, r, c) == 0
  {
    Build(nr, nc, (r, c) => 0)
  }

  /** `m(r0, c0, size(nr, nc))`: the nr x nc block whose top-left corner is (r0, c0). */
  function Submat(m: Mat, r0: nat, c0: nat, nr: nat, nc: nat): (s: Mat)
    requires Valid(m) && r0 + nr <= m.nRows && c0 + nc <= m.nCols
    ensures Valid(s) && s.nRows == nr && s.nCols == nc
    ensures forall r, c | 0 <= r < nr && 0 <= c < nc :: Get(s, r, c) == Get(m, r0 + r, c0 + c)
  {
    Build(nr, nc, (r, c) => Get(m, r0 + r, c0 + c))
  }

  function Transpose(m: Mat): (t: Mat)
    requires Valid(m)
    ensures Valid(t) && t.nRows == m.nCols && t.nCols == m.nRows
    ensures forall r, c :: Get(t, r, c) == Get(m, c, r)
  {
    Build(m.nCols, m.nRows, (r, c) => Get(m, c, r))
  }

  predicate IsSymmetric(m: Mat) {
    && IsSquare(m)
    && forall r, c | 0 <= r < m.nRows && 0 <= c < m.nCols :: Get(m, r, c) == Get(m, c, r)
  }

  /** The elements of a vector (or of an empty matrix) in memory order, i.e.
      what `memptr()` walks over `n_elem` positions. */
  function Elems(m: Mat): (v: seq<int>)
    requires Valid(m) && (IsVec(m) || IsEmpty(m))
    ensures |v| == NElem(m)
    ensures m.nCols == 1 ==> forall k | 0 <= k < |v| :: v[k] == Get(m, k, 0)
    ensures m.nCols != 1 ==> forall k | 0 <= k < |v| :: v[k] == Get(m, 0, k)
  {
    if IsEmpty(m) then []
    else if m.nCols == 1 then seq(m.nRows, k => Get(m, k, 0))
    else m.cells[0]
  }

  /** An n x 1 matrix holding v. */
  function ColumnOf(v: seq<int>): (m: Mat)
    ensures Valid(m) && m.nRows == |v| && m.nCols == 1 && Elems(m) == v
  {
    var m := Build(|v|, 1, (r, c) => if 0 <= r < |v| then v[r] else 0);
    assert Elems(m) == v;
    m
  }

  /** A 1 x n matrix holding v. */
  function RowOf(v: seq<int>): (m: Mat)
    ensures Valid(m) && m.nRows == 1 && m.nCols == |v|
    ensures |v| != 1 ==> Elems(m) == v
    ensures forall k | 0 <= k < |v| :: Get(m, 0, k) == v[k]
  {
    Mat(1, |v|, [v])
  }

  /** Two well-formed matrices of the same shape that agree at every index are equal. */
  lemma MatExt(m1: Mat, m2: Mat)
    requires Valid(m1) && Valid(m2)
    requires m1.nRows == m2.nRows && m1.nCols == m2.nCols
    requires forall r, c | 0 <= r < m1.nRows && 0 <= c < m1.nCols :: Get(m1, r, c) == Get(m2, r, c)
    ensures m1 == m2
  {
    forall r | 0 <= r < m1.nRows
      ensures m1.cells[r] == m2.cells[r]
    {
      forall c | 0 <= c < m1.nCols
        ensures m1.cells[r][c] == m2.cells[r][c]
      {
        assert Get(m1, r, c) == Get(m2, r, c);
      }
    }
  }
}
