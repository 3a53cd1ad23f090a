/** `glue_conv2`: 2D "full" convolution of a matrix with a filter. */
module GlueConv2 {
  import opened Sums
  import opened Matrix

  /** Output extent in one dimension: W + G - 1 when either extent is
      positive, else 0. With one extent 0 and the other positive this is
      the other extent minus one (the output is then all zeros). */
  function OutExtent(wn: nat, gn: nat): nat {
    if wn > 0 || gn > 0 then wn + gn - 1 else 0
  }

  /** The unflipped filter G: the input with fewer elements (A on a tie). */
  function Filter(a: Mat, b: Mat): Mat {
    if NElem(a) <= NElem(b) then a else b
  }

  /** The image W: the other input. */
  function Image(a: Mat, b: Mat): Mat {
    if NElem(a) <= NElem(b) then b else a
  }

  /** H, the filter flipped in both axes. */
  function Flip(g: Mat): (h: Mat)
    requires Valid(g)
    ensures Valid(h) && h.nRows == g.nRows && h.nCols == g.nCols
    ensures forall r, c | 0 <= r < g.nRows && 0 <= c < g.nCols ::
              Get(h, r, c) == Get(g, g.nRows - 1 - r, g.nCols - 1 - c)
  {
    Build(g.nRows, g.nCols, (r, c) => Get(g, g.nRows - 1 - r, g.nCols - 1 - c))
  }

  /** X, the image surrounded by pr rows and pc columns of zeros on every side. */
  function Pad(w: Mat, pr: nat, pc: nat): (x: Mat)
    requires Valid(w)
    ensures Valid(x) && x.nRows == w.nRows + 2 * pr && x.nCols == w.nCols + 2 * pc
    ensures forall i, j :: Get(x, i, j) == Get(w, i - pr, j - pc)
  {
    Build(w.nRows + 2 * pr, w.nCols + 2 * pc,
          (i, j) => if pr <= i < pr + w.nRows && pc <= j < pc + w.nCols then Get(w, i - pr, j - pc) else 0)
  }

  /** q ↦ H(p, q)·X(r + p, c + q) */
  function WinRow(h: Mat, x: Mat, r: int, c: int, p: int): int -> int {
    q => Get(h, p, q) * Get(x, r + p, c + q)
  }

  /** p ↦ Σ_q H(p, q)·X(r + p, c + q) */
  function WinOuter(h: Mat, x: Mat, r: int, c: int): int -> int {
    p => Sum(WinRow(h, x, r, c, p), 0, h.nCols)
  }

  /** `accu(H % X.submat(r, c, r + H.n_rows - 1, c + H.n_cols - 1))`: the sum
      of H times the window of X whose top-left corner is (r, c). */
  function WindowSum(h: Mat, x: Mat, r: int, c: int): int {
    Sum(WinOuter(h, x, r, c), 0, h.nRows)
  }

  /** `glue_conv2::apply`. */
  function Conv2(a: Mat, b: Mat): (out: Mat)
    requires Valid(a) && Valid(b)
    ensures Valid(out)
    ensures out.nRows == OutExtent(Image(a, b).nRows, Filter(a, b).nRows)
    ensures out.nCols == OutExtent(Image(a, b).nCols, Filter(a, b).nCols)
    ensures IsEmpty(a) || IsEmpty(b) ==> forall r, c :: Get(out, r, c) == 0
  {
    var g := Filter(a, b);
    var w := Image(a, b);
    var outRows := OutExtent(w.nRows, g.nRows);
    var outCols := OutExtent(w.nCols, g.nCols);
    if IsEmpty(g) || IsEmpty(w) then
      Zeros(outRows, outCols)
    else
      var h := Flip(g);
      var x := Pad(w, h.nRows - 1, h.nCols - 1);
      Build(outRows, outCols, (r, c) => WindowSum(h, x, r, c))
  }

  /** q ↦ G(p, q)·W(r - p, c - q), W taken as 0 outside the image */
  function RefRow(g: Mat, w: Mat, r: int, c: int, p: int): int -> int {
    q => Get(g, p, q) * Get(w, r - p, c - q)
  }

  function RefOuter(g: Mat, w: Mat, r: int, c: int): int -> int {
    p => Sum(RefRow(g, w, r, c, p), 0, g.nCols)
  }

  /** The textbook full 2D convolution at (r, c):
      Σ G(p, q)·W(r - p, c - q) over every filter position (p, q). */
  function Conv2At(g: Mat, w: Mat, r: int, c: int): int {
    Sum(RefOuter(g, w, r, c), 0, g.nRows)
  }

  /** Flipping twice gives back the filter. */
  lemma FlipInvolutive(g: Mat)
    requires Valid(g)
    ensures Flip(Flip(g)) == g
  {
    var h := Flip(g);
    var hh := Flip(h);
    forall r, c | 0 <= r < g.nRows && 0 <= c < g.nCols
      ensures Get(hh, r, c) == Get(g, r, c)
    {
      assert Get(hh, r, c) == Get(h, g.nRows - 1 - r, g.nCols - 1 - c);
    }
    MatExt(hh, g);
  }

  /** One product of the window sum, read backwards, is one product of the
      textbook convolution sum. */
  lemma WindowTermIsConvolutionTerm(g: Mat, w: Mat, r: int, c: int, p: int, q: int)
    requires Valid(g) && Valid(w) && !IsEmpty(g)
    requires 0 <= p < g.nRows && 0 <= q < g.nCols
    ensures Reflect(WinRow(Flip(g), Pad(w, g.nRows - 1, g.nCols - 1), r, c, p), g.nCols - 1)(q)
         == RefRow(g, w, r, c, g.nRows - 1 - p)(q)
  {
    var h := Flip(g);
    var x := Pad(w, g.nRows - 1, g.nCols - 1);
    var fq := g.nCols - 1 - q;
    assert g.nCols - 1 - fq == q;
    assert Get(h, p, fq) == Get(g, g.nRows - 1 - p, q);
    var i, j := r + p, c + fq;
    var wi, wj := r - (g.nRows - 1 - p), c - q;
    assert i - (g.nRows - 1) == wi && j - (g.nCols - 1) == wj;
    assert Get(x, i, j) == Get(w, wi, wj);
  }

  /** One row of the window sum of H over X is, read backwards, one row of
      the textbook convolution sum. */
  lemma WindowRowIsConvolutionRow(g: Mat, w: Mat, r: int, c: int, p: int)
    requires Valid(g) && Valid(w) && !IsEmpty(g)
    requires 0 <= p < g.nRows
    ensures WinOuter(Flip(g), Pad(w, g.nRows - 1, g.nCols - 1), r, c)(p)
         == RefOuter(g, w, r, c)(g.nRows - 1 - p)
  {
    var h := Flip(g);
    var row := WinRow(h, Pad(w, g.nRows - 1, g.nCols - 1), r, c, p);
    var ref := RefRow(g, w, r, c, g.nRows - 1 - p);
    var n: int := g.nCols;
    assert h.nCols == n;
    assert WinOuter(h, Pad(w, g.nRows - 1, g.nCols - 1), r, c)(p) == Sum(row, 0, n);
    assert RefOuter(g, w, r, c)(g.nRows - 1 - p) == Sum(ref, 0, n);
    forall q | 0 <= q < n
      ensures Reflect(row, n - 1)(q) == ref(q)
    {
      WindowTermIsConvolutionTerm(g, w, r, c, p, q);
    }
    ReversedSumsAgree(row, ref, n);
  }

  /** Filtering the zero-padded image with the flipped filter, as the source
      does, is the textbook convolution of the image with the filter. */
  lemma WindowRowsAreConvolutionRows(g: Mat, w: Mat, r: int, c: int)
    requires Valid(g) && Valid(w) && !IsEmpty(g)
    ensures forall p | 0 <= p < g.nRows ::
              Reflect(WinOuter(Flip(g), Pad(w, g.nRows - 1, g.nCols - 1), r, c), g.nRows - 1)(p)
              == RefOuter(g, w, r, c)(p)
  {
    forall p | 0 <= p < g.nRows
      ensures Reflect(WinOuter(Flip(g), Pad(w, g.nRows - 1, g.nCols - 1), r, c), g.nRows - 1)(p)
              == RefOuter(g, w, r, c)(p)
    {
      var fp := g.nRows - 1 - p;
      WindowRowIsConvolutionRow(g, w, r, c, fp);
      assert g.nRows - 1 - fp == p;
    }
  }

  lemma WindowSumIsConvolution(g: Mat, w: Mat, r: int, c: int)
    requires Valid(g) && Valid(w) && !IsEmpty(g)
    ensures WindowSum(Flip(g), Pad(w, g.nRows - 1, g.nCols - 1), r, c) == Conv2At(g, w, r, c)
  {
    var h := Flip(g);
    var outer := WinOuter(h, Pad(w, g.nRows - 1, g.nCols - 1), r, c);
    var n: int := g.nRows;
    assert h.nRows == n;
    SumReflect(outer, n - 1, 0, n);
    assert n - 1 - n + 1 == 0 && n - 1 - 0 + 1 == n;
    WindowRowsAreConvolutionRows(g, w, r, c);
    SumExt(Reflect(outer, n - 1), RefOuter(g, w, r, c), 0, n);
  }

  /** With an empty filter or image every term of the textbook sum vanishes. */
  lemma ConvolutionOfEmptyIsZero(g: Mat, w: Mat, r: int, c: int)
    requires IsEmpty(g) || IsEmpty(w)
    requires Valid(g) && Valid(w)
    ensures Conv2At(g, w, r, c) == 0
  {
    forall p | 0 <= p < g.nRows
      ensures RefOuter(g, w, r, c)(p) == 0
    {
      forall q | 0 <= q < g.nCols
        ensures RefRow(g, w, r, c, p)(q) == 0
      {
        assert Get(g, p, q) == 0 || Get(w, r - p, c - q) == 0;
      }
      SumZero(RefRow(g, w, r, c, p), 0, g.nCols);
    }
    SumZero(RefOuter(g, w, r, c), 0, g.nRows);
  }

  /** Element (r, c) of `conv2(A, B)` is the full convolution of the image W
      with the filter G (the smaller input) at (r, c). */
  lemma Conv2ElementIsConvolution(a: Mat, b: Mat, r: int, c: int)
    requires Valid(a) && Valid(b)
    requires 0 <= r < Conv2(a, b).nRows && 0 <= c < Conv2(a, b).nCols
    ensures Get(Conv2(a, b), r, c) == Conv2At(Filter(a, b), Image(a, b), r, c)
  {
    var g := Filter(a, b);
    var w := Image(a, b);
    if IsEmpty(g) || IsEmpty(w) {
      ConvolutionOfEmptyIsZero(g, w, r, c);
    } else {
      var h := Flip(g);
      var x := Pad(w, g.nRows - 1, g.nCols - 1);
      var out := Build(Conv2(a, b).nRows, Conv2(a, b).nCols, (i, j) => WindowSum(h, x, i, j));
      assert Conv2(a, b) == out;
      WindowSumIsConvolution(g, w, r, c);
    }
  }

  /** Every element of `conv2(A, B)` is the full convolution of the image W
      with the filter G. */
  lemma Conv2IsConvolution(a: Mat, b: Mat)
    requires Valid(a) && Valid(b)
    ensures var out := Conv2(a, b);
            forall r, c | 0 <= r < out.nRows && 0 <= c < out.nCols ::
              Get(out, r, c) == Conv2At(Filter(a, b), Image(a, b), r, c)
  {
    forall r, c | 0 <= r < Conv2(a, b).nRows && 0 <= c < Conv2(a, b).nCols
      ensures Get(Conv2(a, b), r, c) == Conv2At(Filter(a, b), Image(a, b), r, c)
    {
      Conv2ElementIsConvolution(a, b, r, c);
    }
  }
}
