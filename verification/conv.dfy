/** `glue_conv`: 1D "full" convolution of two vectors. */
module GlueConv {
  import opened Sums
  import opened Matrix
  import opened Errors

  /** s[n], and 0 outside s. */
  function Coef(s: seq<int>, n: int): int {
    if 0 <= n < |s| then s[n] else 0
  }

  /** j ↦ h[j]·x[i-j]: the contribution of filter tap j to output i. */
  function Term(h: seq<int>, x: seq<int>, i: int): int -> int {
    j => Coef(h, j) * Coef(x, i - j)
  }

  /** k ↦ h[i-k]·x[k]: the same products indexed by the signal position k,
      the index the source's inner loops walk. */
  function XTerm(h: seq<int>, x: seq<int>, i: int): int -> int {
    k => Coef(h, i - k) * Coef(x, k)
  }

  /** Output i of the full convolution: Σ h[j]·x[k] over j + k = i,
      0 <= j < |h|, 0 <= k < |x|. */
  function ConvAt(h: seq<int>, x: seq<int>, i: int): int {
    Sum(Term(h, x, i), 0, |h|)
  }

  /** Read backwards around i, the products indexed by filter tap are the
      products indexed by signal position. */
  lemma ReflectTermIsXTerm(h: seq<int>, x: seq<int>, i: int)
    ensures forall k :: Reflect(Term(h, x, i), i)(k) == XTerm(h, x, i)(k)
  {
    forall k
      ensures Reflect(Term(h, x, i), i)(k) == XTerm(h, x, i)(k)
    {
      assert i - (i - k) == k;
    }
  }

  /** Taps outside the filter contribute nothing. */
  lemma TermWiden(h: seq<int>, x: seq<int>, i: int, a: int, b: int)
    requires a <= 0 && |h| <= b
    ensures Sum(Term(h, x, i), a, b) == ConvAt(h, x, i)
  {
    assert forall j | a <= j < 0 || |h| <= j < b :: Coef(h, j) == 0;
    SumWiden(Term(h, x, i), 0, |h|, a, b);
  }

  /** Positions outside the signal contribute nothing. */
  lemma XTermWiden(h: seq<int>, x: seq<int>, i: int, a: int, b: int)
    requires a <= 0 && |x| <= b
    ensures Sum(XTerm(h, x, i), a, b) == Sum(XTerm(h, x, i), 0, |x|)
  {
    assert forall k | a <= k < 0 || |x| <= k < b :: Coef(x, k) == 0;
    SumWiden(XTerm(h, x, i), 0, |x|, a, b);
  }

  /** Summing over taps j is summing over positions k = i - j. */
  lemma TermToXTerm(h: seq<int>, x: seq<int>, i: int, a: int, b: int)
    ensures Sum(Term(h, x, i), a, b) == Sum(XTerm(h, x, i), i - b + 1, i - a + 1)
  {
    SumReflect(Term(h, x, i), i, a, b);
    ReflectTermIsXTerm(h, x, i);
    SumExt(Reflect(Term(h, x, i), i), XTerm(h, x, i), i - b + 1, i - a + 1);
  }

  /** The same sum taken over the positions of x. */
  lemma ConvAtAlongX(h: seq<int>, x: seq<int>, i: int)
    ensures ConvAt(h, x, i) == Sum(XTerm(h, x, i), 0, |x|)
  {
    var a := if i - |x| + 1 < 0 then i - |x| + 1 else 0;
    var b := if i + 1 > |h| then i + 1 else |h|;
    TermWiden(h, x, i, a, b);
    TermToXTerm(h, x, i, a, b);
    XTermWiden(h, x, i, i - b + 1, i - a + 1);
  }

  /** Output i only involves the positions of x from max(0, i-|h|+1) up to
      min(i, |x|-1): the range each of the source's inner loops covers. */
  lemma ConvAtWindow(h: seq<int>, x: seq<int>, i: int)
    requires 0 <= i < |h| + |x| - 1
    ensures ConvAt(h, x, i) ==
            Sum(XTerm(h, x, i), if i - |h| + 1 < 0 then 0 else i - |h| + 1,
                                if i + 1 < |x| then i + 1 else |x|)
  {
    ConvAtAlongX(h, x, i);
    var lo := if i - |h| + 1 < 0 then 0 else i - |h| + 1;
    var hi := if i + 1 < |x| then i + 1 else |x|;
    SumWiden(XTerm(h, x, i), lo, hi, 0, |x|);
  }

  /** Convolution is commutative: which input is taken as the filter does not
      change any output value. */
  lemma ConvAtCommutes(a: seq<int>, b: seq<int>, i: int)
    ensures ConvAt(a, b, i) == ConvAt(b, a, i)
  {
    ConvAtAlongX(a, b, i);
    SumExt(XTerm(a, b, i), Term(b, a, i), 0, |b|);
  }

  /** What the phases of `apply_noalias` share: h is the (non-empty) filter,
      no longer than the signal x, and out holds the first |out| outputs. */
  ghost predicate Prefix(h: seq<int>, x: seq<int>, out: seq<int>) {
    && 0 < |h| <= |x|
    && forall i | 0 <= i < |out| :: out[i] == ConvAt(h, x, i)
  }

  /** First loop of `apply_noalias`, outputs [0, |h|-1): the filter only
      partly overlaps the start of the signal. */
  method ConvHead(h: seq<int>, x: seq<int>) returns (out: seq<int>)
    requires 0 < |h| <= |x|
    ensures |out| == |h| - 1 && Prefix(h, x, out)
  {
    var hN := |h|;
    out := [];
    var outI := 0;
    while outI < hN - 1
      invariant 0 <= outI <= hN - 1
      invariant |out| == outI
      invariant Prefix(h, x, out)
    {
      var acc := 0;
      var hI := outI;
      var xI := 0;
      while xI <= outI
        invariant 0 <= xI <= outI + 1
        invariant hI == outI - xI
        invariant acc == Sum(XTerm(h, x, outI), 0, xI)
      {
        assert Coef(h, outI - xI) == h[hI] && Coef(x, xI) == x[xI];
        assert XTerm(h, x, outI)(xI) == h[hI] * x[xI];
        assert Sum(XTerm(h, x, outI), 0, xI + 1) == Sum(XTerm(h, x, outI), 0, xI) + XTerm(h, x, outI)(xI);
        acc := acc + h[hI] * x[xI];
        xI := xI + 1;
        hI := hI - 1;
      }
      ConvAtWindow(h, x, outI);
      out := out + [acc];
      outI := outI + 1;
    }
  }

  /** Second loop, outputs [|h|-1, |x|): the whole filter lies over the signal. */
  method ConvBody(h: seq<int>, x: seq<int>, head: seq<int>) returns (out: seq<int>)
    requires |head| == |h| - 1 && Prefix(h, x, head)
    ensures |out| == |x| && Prefix(h, x, out)
  {
    var hN := |h|;
    var outN := |h| + |x| - 1;
    out := head;
    var outI := hN - 1;
    while outI < outN - (hN - 1)
      invariant hN - 1 <= outI <= outN - (hN - 1)
      invariant |out| == outI
      invariant Prefix(h, x, out)
    {
      var acc := 0;
      var hI := hN - 1;
      var xI := outI - hN + 1;
      while xI <= outI
        invariant outI - hN + 1 <= xI <= outI + 1
        invariant hI == outI - xI
        invariant acc == Sum(XTerm(h, x, outI), outI - hN + 1, xI)
      {
        assert Coef(h, outI - xI) == h[hI] && Coef(x, xI) == x[xI];
        assert XTerm(h, x, outI)(xI) == h[hI] * x[xI];
        assert Sum(XTerm(h, x, outI), outI - hN + 1, xI + 1) == Sum(XTerm(h, x, outI), outI - hN + 1, xI) + XTerm(h, x, outI)(xI);
        acc := acc + h[hI] * x[xI];
        xI := xI + 1;
        hI := hI - 1;
      }
      ConvAtWindow(h, x, outI);
      out := out + [acc];
      outI := outI + 1;
    }
  }

  /** Third loop, outputs [|x|, |h|+|x|-1): the filter runs off the end of the signal. */
  method ConvTail(h: seq<int>, x: seq<int>, body: seq<int>) returns (out: seq<int>)
    requires |body| == |x| && Prefix(h, x, body)
    ensures |out| == |h| + |x| - 1 && Prefix(h, x, out)
  {
    var hN := |h|;
    var xN := |x|;
    var outN := hN + xN - 1;
    out := body;
    var outI := outN - (hN - 1);
    while outI < outN
      invariant outN - (hN - 1) <= outI <= outN
      invariant |out| == outI
      invariant Prefix(h, x, out)
    {
      var acc := 0;
      var hI := hN - 1;
      var xI := outI - hN + 1;
      while xI < xN
        invariant outI - hN + 1 <= xI <= xN
        invariant hI == outI - xI
        invariant acc == Sum(XTerm(h, x, outI), outI - hN + 1, xI)
      {
        assert Coef(h, outI - xI) == h[hI] && Coef(x, xI) == x[xI];
        assert XTerm(h, x, outI)(xI) == h[hI] * x[xI];
        assert Sum(XTerm(h, x, outI), outI - hN + 1, xI + 1) == Sum(XTerm(h, x, outI), outI - hN + 1, xI) + XTerm(h, x, outI)(xI);
        acc := acc + h[hI] * x[xI];
        xI := xI + 1;
        hI := hI - 1;
      }
      ConvAtWindow(h, x, outI);
      out := out + [acc];
      outI := outI + 1;
    }
  }

  /** `glue_conv::apply_noalias` on the element sequences of A and B: the
      shorter input (A on a tie) becomes the filter h, the other the signal
      x, and the three loops fill the output index ranges [0, |h|-1),
      [|h|-1, |x|) and [|x|, |h|+|x|-1) in turn, each index once. */
  method ConvNoAlias(a: seq<int>, b: seq<int>) returns (out: seq<int>)
    ensures |a| == 0 || |b| == 0 ==> out == []
    ensures |a| > 0 && |b| > 0 ==> |out| == |a| + |b| - 1
    ensures forall i | 0 <= i < |out| :: out[i] == ConvAt(a, b, i)
  {
    var h := if |a| <= |b| then a else b;
    var x := if |a| <= |b| then b else a;
    if |h| == 0 || |x| == 0 {
      return [];
    }
    var head := ConvHead(h, x);
    var body := ConvBody(h, x, head);
    out := ConvTail(h, x, body);
    forall i | 0 <= i < |out|
      ensures out[i] == ConvAt(a, b, i)
    {
      ConvAtCommutes(a, b, i);
    }
  }

  /** The error `glue_conv::apply` raises for a non-empty input that is not a vector. */
  const NotAVector := "conv(): given object is not a vector"

  /** `glue_conv::apply`. `aIsColType` is the static `T1::is_col` of A's
      expression type; the output is a column when that holds or A has one
      column, a row otherwise, and the empty 0x0 matrix when an input is empty. */
  method Apply(a: Mat, b: Mat, aIsColType: bool) returns (r: Result<Mat>)
    requires Valid(a) && Valid(b)
    ensures r.Err? <==> (!IsVec(a) && !IsEmpty(a)) || (!IsVec(b) && !IsEmpty(b))
    ensures r.Ok? ==> Valid(r.value)
    ensures r.Ok? && (IsEmpty(a) || IsEmpty(b)) ==> r.value == Empty()
    ensures r.Ok? && !IsEmpty(a) && !IsEmpty(b) ==>
              var n := NElem(a) + NElem(b) - 1;
              && (aIsColType || a.nCols == 1 ==> r.value.nRows == n && r.value.nCols == 1)
              && (!aIsColType && a.nCols != 1 ==> r.value.nRows == 1 && r.value.nCols == n)
              && |Elems(r.value)| == n
              && forall i | 0 <= i < n :: Elems(r.value)[i] == ConvAt(Elems(a), Elems(b), i)
  {
    if (!IsVec(a) && !IsEmpty(a)) || (!IsVec(b) && !IsEmpty(b)) {
      return Err(NotAVector);
    }
    var aIsCol := aIsColType || a.nCols == 1;
    var v := ConvNoAlias(Elems(a), Elems(b));
    if |v| == 0 {
      return Ok(Empty());
    }
    r := Ok(if aIsCol then ColumnOf(v) else RowOf(v));
  }
}
