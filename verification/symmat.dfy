/** `symmatu` / `symmatl`: reflect one triangle of a square matrix onto the
    other. Their contract is the one test `fn_symmatl_1` asserts. */
module Symmat {
  import opened Matrix
  import opened Errors

  /** The hard error for a matrix that is not square. */
  const NotSquare := "symmatu()/symmatl(): given matrix must be square sized"

  /** `symmatu(A)`: the upper triangle (diagonal included) kept, and mirrored
      into the lower one. */
  function Symmatu(a: Mat): (r: Result<Mat>)
    requires Valid(a)
    ensures r.Ok? <==> IsSquare(a)
    ensures r.Ok? ==> Valid(r.value) && r.value.nRows == a.nRows && r.value.nCols == a.nCols
    ensures r.Ok? ==> IsSymmetric(r.value)
    ensures r.Ok? ==> forall i, j | 0 <= i <= j < a.nRows :: Get(r.value, i, j) == Get(a, i, j)
  {
    if !IsSquare(a) then Err(NotSquare)
    else Ok(Build(a.nRows, a.nCols, (i, j) => if i <= j then Get(a, i, j) else Get(a, j, i)))
  }

  /** `symmatl(A)`: the lower triangle (diagonal included) kept, and mirrored
      into the upper one. */
  function Symmatl(a: Mat): (r: Result<Mat>)
    requires Valid(a)
    ensures r.Ok? <==> IsSquare(a)
    ensures r.Ok? ==> Valid(r.value) && r.value.nRows == a.nRows && r.value.nCols == a.nCols
    ensures r.Ok? ==> IsSymmetric(r.value)
    ensures r.Ok? ==> forall i, j | 0 <= j <= i < a.nRows :: Get(r.value, i, j) == Get(a, i, j)
  {
    if !IsSquare(a) then Err(NotSquare)
    else Ok(Build(a.nRows, a.nCols, (i, j) => if j <= i then Get(a, i, j) else Get(a, j, i)))
  }

  /** Element (i, j) of `symmatu(A)` is A(min(i, j), max(i, j)). */
  lemma SymmatuMirrorsUpper(a: Mat)
    requires Valid(a) && IsSquare(a)
    ensures forall i, j | 0 <= i < a.nRows && 0 <= j < a.nRows ::
              Get(Symmatu(a).value, i, j) == Get(a, if i <= j then i else j, if i <= j then j else i)
  {
    var s := Symmatu(a).value;
    forall i, j | 0 <= i < a.nRows && 0 <= j < a.nRows
      ensures Get(s, i, j) == Get(a, if i <= j then i else j, if i <= j then j else i)
    {
      if j < i {
        assert Get(s, i, j) == Get(s, j, i);
      }
    }
  }

  /** Element (i, j) of `symmatl(A)` is A(max(i, j), min(i, j)). */
  lemma SymmatlMirrorsLower(a: Mat)
    requires Valid(a) && IsSquare(a)
    ensures forall i, j | 0 <= i < a.nRows && 0 <= j < a.nRows ::
              Get(Symmatl(a).value, i, j) == Get(a, if i <= j then j else i, if i <= j then i else j)
  {
    var s := Symmatl(a).value;
    forall i, j | 0 <= i < a.nRows && 0 <= j < a.nRows
      ensures Get(s, i, j) == Get(a, if i <= j then j else i, if i <= j then i else j)
    {
      if i < j {
        assert Get(s, i, j) == Get(s, j, i);
      }
    }
  }

  /** `symmatu(A)` is the only symmetric matrix that agrees with A on and
      above the diagonal. */
  lemma SymmatuUnique(a: Mat, s: Mat)
    requires Valid(a) && IsSquare(a) && Valid(s) && IsSymmetric(s) && s.nRows == a.nRows
    requires forall i, j | 0 <= i <= j < a.nRows :: Get(s, i, j) == Get(a, i, j)
    ensures Symmatu(a) == Ok(s)
  {
    var u := Symmatu(a).value;
    forall i, j | 0 <= i < a.nRows && 0 <= j < a.nRows
      ensures Get(u, i, j) == Get(s, i, j)
    {
      if j < i {
        assert Get(u, i, j) == Get(u, j, i);
        assert Get(s, i, j) == Get(s, j, i);
      }
    }
    MatExt(u, s);
  }

  /** `symmatl(A)` is the only symmetric matrix that agrees with A on and
      below the diagonal. */
  lemma SymmatlUnique(a: Mat, s: Mat)
    requires Valid(a) && IsSquare(a) && Valid(s) && IsSymmetric(s) && s.nRows == a.nRows
    requires forall i, j | 0 <= j <= i < a.nRows :: Get(s, i, j) == Get(a, i, j)
    ensures Symmatl(a) == Ok(s)
  {
    var l := Symmatl(a).value;
    forall i, j | 0 <= i < a.nRows && 0 <= j < a.nRows
      ensures Get(l, i, j) == Get(s, i, j)
    {
      if i < j {
        assert Get(l, i, j) == Get(l, j, i);
        assert Get(s, i, j) == Get(s, j, i);
      }
    }
    MatExt(l, s);
  }

  /** A symmetric matrix is left as it is by both functions, so each is
      idempotent. */
  lemma SymmatFixesSymmetric(a: Mat)
    requires Valid(a) && IsSymmetric(a)
    ensures Symmatu(a) == Ok(a) && Symmatl(a) == Ok(a)
  {
    SymmatuUnique(a, a);
    SymmatlUnique(a, a);
  }

  /** Mirroring the lower triangle is mirroring the upper triangle of the
      transpose. */
  lemma SymmatlIsSymmatuOfTranspose(a: Mat)
    requires Valid(a)
    ensures Symmatl(a) == Symmatu(Transpose(a))
  {
    if IsSquare(a) {
      var l := Symmatl(a).value;
      var t := Transpose(a);
      forall i, j | 0 <= i <= j < a.nRows
        ensures Get(l, i, j) == Get(t, i, j)
      {
        assert Get(l, i, j) == Get(l, j, i);
      }
      SymmatuUnique(t, l);
    }
  }

  /** The 5x6 matrix A of test `fn_symmatl_1`, scaled by 10^6 to integers. */
  function TestA(): Mat {
    Mat(5, 6, [
      [  61198,  201990,   19678, -493936, -126745,   51408],
      [ 437242,   58956, -149362,  -45465,  296153,   35437],
      [-492474,  -31309,  314156,  419733,   68317, -454499],
      [ 336352,  411541,  458476, -393139, -135040,  373833],
      [ 239585, -428913, -406953, -291020, -353768,  258704]])
  }

  /** The expected `symmatu(A(0, 0, size(5, 5)))`, scaled likewise. */
  function TestBB(): Mat {
    Mat(5, 5, [
      [  61198,  201990,   19678, -493936, -126745],
      [ 201990,   58956, -149362,  -45465,  296153],
      [  19678, -149362,  314156,  419733,   68317],
      [-493936,  -45465,  419733, -393139, -135040],
      [-126745,  296153,   68317, -135040, -353768]])
  }

  /** The expected `symmatl(A(0, 0, size(5, 5)))`, scaled likewise. */
  function TestCC(): Mat {
    Mat(5, 5, [
      [  61198,  437242, -492474,  336352,  239585],
      [ 437242,   58956,  -31309,  411541, -428913],
      [-492474,  -31309,  314156,  458476, -406953],
      [ 336352,  411541,  458476, -393139, -291020],
      [ 239585, -428913, -406953, -291020, -353768]])
  }

  /** A fact about every index of a 5x5 matrix follows from its 25 cases. */
  predicate Index5(i: int) {
    i == 0 || i == 1 || i == 2 || i == 3 || i == 4
  }

  lemma TestBBExpected()
    ensures Valid(TestBB()) && IsSymmetric(TestBB())
    ensures forall i, j | 0 <= i <= j < 5 :: Get(TestBB(), i, j) == Get(TestA(), i, j)
  {
    forall i, j | 0 <= i < 5 && 0 <= j < 5
      ensures Get(TestBB(), i, j) == Get(TestBB(), j, i)
      ensures i <= j ==> Get(TestBB(), i, j) == Get(TestA(), i, j)
    {
      assert Index5(i) && Index5(j);
    }
  }

  lemma TestCCExpected()
    ensures Valid(TestCC()) && IsSymmetric(TestCC())
    ensures forall i, j | 0 <= j <= i < 5 :: Get(TestCC(), i, j) == Get(TestA(), i, j)
  {
    forall i, j | 0 <= i < 5 && 0 <= j < 5
      ensures Get(TestCC(), i, j) == Get(TestCC(), j, i)
      ensures j <= i ==> Get(TestCC(), i, j) == Get(TestA(), i, j)
    {
      assert Index5(i) && Index5(j);
    }
  }

  /** Test `fn_symmatl_1`: both results on the leading 5x5 block are the
      expected matrices, and `symmatu` of the whole 5x6 matrix is an error. */
  lemma FnSymmatl1()
    ensures Valid(TestA())
    ensures Symmatu(Submat(TestA(), 0, 0, 5, 5)) == Ok(TestBB())
    ensures Symmatl(Submat(TestA(), 0, 0, 5, 5)) == Ok(TestCC())
    ensures Symmatu(TestA()).Err?
  {
    assert Valid(TestA());
    var a := Submat(TestA(), 0, 0, 5, 5);
    TestBBExpected();
    SymmatuUnique(a, TestBB());
    TestCCExpected();
    SymmatlUnique(a, TestCC());
  }
}
