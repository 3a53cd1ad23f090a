/** Routing properties of the three `solve()` dispatchers, each stated for
    every matrix, every flag combination and every backend behaviour. */
module GlueSolveRoutes {
  import opened Matrix
  import opened Errors
  import opened GlueSolve

  /** `gen`, square A: the first routine is `solve_square_ext` (with the
      equilibrate bit passed on) when equilibrate or refine is set, and
      `solve_square` otherwise. */
  lemma GenSquareFirstCall(a: Mat, b: Mat, f: Flags, backend: Call -> Reply)
    requires IsSquare(a)
    ensures var r := Gen(a, b, f, backend);
            r.calls[0] == (if f.equilibrate || f.refine then SolveSquareExt(a, b, f.equilibrate)
                           else SolveSquare(a, b))
  {
  }

  /** `gen`, square A: `solve_approx` runs exactly when the first routine
      returned false and approx is set, and it receives the caller's A, not
      the copy the first routine overwrote. */
  lemma GenSquareFallback(a: Mat, b: Mat, f: Flags, backend: Call -> Reply)
    requires IsSquare(a)
    ensures var r := Gen(a, b, f, backend);
            && (|r.calls| == 2 <==>
                  backend(r.calls[0]).Returned? && !backend(r.calls[0]).status && f.approx)
            && (|r.calls| == 2 ==> r.calls[1] == SolveApprox(a, b))
  {
  }

  /** `gen`, non-square A: exactly one call, to `solve_approx`, whatever
      equilibrate and refine say. */
  lemma GenNonSquare(a: Mat, b: Mat, f: Flags, backend: Call -> Reply, equilibrate: bool, refine: bool)
    requires !IsSquare(a)
    ensures Gen(a, b, f, backend).calls == [SolveApprox(a, b)]
    ensures Gen(a, b, f, backend) == Gen(a, b, f.(equilibrate := equilibrate, refine := refine), backend)
  {
  }

  /** `gen` never reads rankdef, noapprox or the structural flags. */
  lemma GenIgnoredFlags(a: Mat, b: Mat, f: Flags, g: Flags, backend: Call -> Reply)
    requires f.equilibrate == g.equilibrate && f.refine == g.refine && f.approx == g.approx
    ensures Gen(a, b, f, backend) == Gen(a, b, g, backend)
  {
  }

  /** `sym` never reads rankdef, noapprox, syml or the triangular flags:
      symu alone chooses the triangle, so symu wins when both are set. */
  lemma SymIgnoredFlags(a: Mat, b: Mat, f: Flags, g: Flags, backend: Call -> Reply)
    requires Valid(a)
    requires f.equilibrate == g.equilibrate && f.refine == g.refine && f.approx == g.approx
    requires f.symu == g.symu
    ensures Sym(a, b, f, backend) == Sym(a, b, g, backend)
  {
  }

  /** `tri` never reads rankdef, noapprox, tril or the symmetric flags:
      triu alone chooses the triangle. */
  lemma TriIgnoredFlags(a: Mat, b: Mat, f: Flags, g: Flags, backend: Call -> Reply,
                        trimatu: Mat -> Result<Mat>, trimatl: Mat -> Result<Mat>)
    requires f.equilibrate == g.equilibrate && f.refine == g.refine && f.approx == g.approx
    requires f.triu == g.triu
    ensures Tri(a, b, f, backend, trimatu, trimatl) == Tri(a, b, g, backend, trimatu, trimatl)
  {
  }

  /** `sym` with a non-square A is a hard error before any routine is called,
      on every route. */
  lemma SymNonSquareIsHardError(a: Mat, b: Mat, f: Flags, backend: Call -> Reply)
    requires Valid(a) && !IsSquare(a)
    ensures Sym(a, b, f, backend).calls == []
    ensures Sym(a, b, f, backend).end.HardError?
  {
  }

  /** `sym`, square A: equilibrate takes priority over refine, refine over the
      standard route. Equilibrate passes the symmetrised A to
      `solve_square_ext` with equilibration on; refine passes A itself to
      `solve_sym_ext`, which leaves it unmodified; the standard route passes
      A to `solve_sym`. The layout is 0 exactly when symu is set. */
  lemma SymFirstCall(a: Mat, b: Mat, f: Flags, backend: Call -> Reply)
    requires Valid(a) && IsSquare(a)
    ensures var c := Sym(a, b, f, backend).calls[0];
            && (f.equilibrate ==> c == SolveSquareExt(SymmatOf(a, f.symu).value, b, true))
            && (!f.equilibrate && f.refine ==> c == SolveSymExt(a, b, Layout(f.symu)) && !c.OverwritesA())
            && (!f.equilibrate && !f.refine ==> c == SolveSym(a, b, Layout(f.symu)))
            && (!f.equilibrate ==> (c.layout == 0 <==> f.symu))
  {
  }

  /** `sym`, square A: the symmetrised matrix is `symmatu(A)` when symu is
      set and `symmatl(A)` otherwise, symmetric and of A's size. */
  lemma SymOperandIsSymmetric(a: Mat, b: Mat, f: Flags, backend: Call -> Reply)
    requires Valid(a) && IsSquare(a)
    ensures SymmatOf(a, f.symu).Ok?
    ensures f.symu ==> SymmatOf(a, f.symu) == Symmat.Symmatu(a)
    ensures !f.symu ==> SymmatOf(a, f.symu) == Symmat.Symmatl(a)
    ensures IsSymmetric(SymmatOf(a, f.symu).value)
  {
  }

  /** `sym`, square A: `solve_approx` runs exactly when the first routine
      returned false and approx is set, on a freshly symmetrised A. */
  lemma SymFallback(a: Mat, b: Mat, f: Flags, backend: Call -> Reply)
    requires Valid(a) && IsSquare(a)
    ensures var r := Sym(a, b, f, backend);
            && (|r.calls| == 2 <==>
                  backend(r.calls[0]).Returned? && !backend(r.calls[0]).status && f.approx)
            && (|r.calls| == 2 ==> r.calls[1] == SolveApprox(SymmatOf(a, f.symu).value, b))
  {
  }

  /** `tri`: with equilibrate or refine the first routine is
      `solve_square_ext` on `trimatu(A)` or `trimatl(A)` as triu says (a hard
      error if that raises); otherwise it is `solve_tri` on A itself, which
      leaves A unmodified, with layout 0 exactly when triu is set. */
  lemma TriFirstCall(a: Mat, b: Mat, f: Flags, backend: Call -> Reply,
                     trimatu: Mat -> Result<Mat>, trimatl: Mat -> Result<Mat>)
    ensures var r := Tri(a, b, f, backend, trimatu, trimatl);
            var t := if f.triu then trimatu(a) else trimatl(a);
            && ((f.equilibrate || f.refine) && t.Err? ==> r == Run([], HardError(t.reason)))
            && ((f.equilibrate || f.refine) && t.Ok? ==>
                  r.calls[0] == SolveSquareExt(t.value, b, f.equilibrate))
            && (!(f.equilibrate || f.refine) ==>
                  && r.calls[0] == SolveTri(a, b, Layout(f.triu))
                  && !r.calls[0].OverwritesA()
                  && (r.calls[0].layout == 0 <==> f.triu))
  {
  }

  /** `tri`: after a first routine that returned false with approx set, the
      fallback is `solve_approx` on a fresh triangular part of A; with a
      true status, or approx unset, nothing follows. */
  lemma TriFallback(a: Mat, b: Mat, f: Flags, backend: Call -> Reply,
                    trimatu: Mat -> Result<Mat>, trimatl: Mat -> Result<Mat>)
    ensures var r := Tri(a, b, f, backend, trimatu, trimatl);
            var t := if f.triu then trimatu(a) else trimatl(a);
            && (|r.calls| == 2 <==>
                  && |r.calls| > 0
                  && backend(r.calls[0]).Returned? && !backend(r.calls[0]).status
                  && f.approx && t.Ok?)
            && (|r.calls| == 2 ==> r.calls[1] == SolveApprox(t.value, b))
  {
  }

  /** Two replies a dispatcher cannot tell apart: the same kind, status,
      output and reason, whatever each routine left in its copy of A. */
  predicate SameOutcome(x: Reply, y: Reply) {
    && x.Returned? == y.Returned?
    && (x.Returned? ==> x.status == y.status && x.out == y.out)
    && (x.Raised? ==> x.reason == y.reason)
  }

  /** One call whose replies cannot be told apart extends a run the same way. */
  lemma AttemptSeesOnlyOutcome(done: seq<Call>, c: Call, backend: Call -> Reply, other: Call -> Reply)
    requires SameOutcome(backend(c), other(c))
    ensures Attempt(done, c, backend) == Attempt(done, c, other)
  {
  }

  /** `gen` never reads the matrix a routine overwrote: backends that differ
      only in `clobbered` give the same run, so its fallback works on the
      caller's A, never on what the first routine left behind. */
  lemma GenIgnoresClobbered(a: Mat, b: Mat, f: Flags, backend: Call -> Reply, other: Call -> Reply)
    requires forall c :: SameOutcome(backend(c), other(c))
    ensures Gen(a, b, f, backend) == Gen(a, b, f, other)
  {
    var c1 := if f.equilibrate || f.refine then SolveSquareExt(a, b, f.equilibrate) else SolveSquare(a, b);
    assert SameOutcome(backend(c1), other(c1));
    assert SameOutcome(backend(SolveApprox(a, b)), other(SolveApprox(a, b)));
    AttemptSeesOnlyOutcome([], c1, backend, other);
    AttemptSeesOnlyOutcome([], SolveApprox(a, b), backend, other);
    AttemptSeesOnlyOutcome([c1], SolveApprox(a, b), backend, other);
  }

  /** `sym` never reads the matrix a routine overwrote. */
  lemma SymIgnoresClobbered(a: Mat, b: Mat, f: Flags, backend: Call -> Reply, other: Call -> Reply)
    requires Valid(a)
    requires forall c :: SameOutcome(backend(c), other(c))
    ensures Sym(a, b, f, backend) == Sym(a, b, f, other)
  {
    var s := SymmatOf(a, f.symu);
    if s.Ok? {
      var c1 := if f.equilibrate then SolveSquareExt(s.value, b, true)
                else if f.refine then SolveSymExt(a, b, Layout(f.symu))
                else SolveSym(a, b, Layout(f.symu));
      assert SameOutcome(backend(c1), other(c1));
      assert SameOutcome(backend(SolveApprox(s.value, b)), other(SolveApprox(s.value, b)));
      AttemptSeesOnlyOutcome([], c1, backend, other);
      AttemptSeesOnlyOutcome([c1], SolveApprox(s.value, b), backend, other);
    }
  }

  /** `tri` never reads the matrix a routine overwrote. */
  lemma TriIgnoresClobbered(a: Mat, b: Mat, f: Flags, backend: Call -> Reply, other: Call -> Reply,
                            trimatu: Mat -> Result<Mat>, trimatl: Mat -> Result<Mat>)
    requires forall c :: SameOutcome(backend(c), other(c))
    ensures Tri(a, b, f, backend, trimatu, trimatl) == Tri(a, b, f, other, trimatu, trimatl)
  {
    var t := TrimatOf(a, f.triu, trimatu, trimatl);
    var c0 := SolveTri(a, b, Layout(f.triu));
    assert SameOutcome(backend(c0), other(c0));
    AttemptSeesOnlyOutcome([], c0, backend, other);
    if t.Ok? {
      var c1 := if f.equilibrate || f.refine then SolveSquareExt(t.value, b, f.equilibrate) else c0;
      assert SameOutcome(backend(c1), other(c1));
      assert SameOutcome(backend(SolveApprox(t.value, b)), other(SolveApprox(t.value, b)));
      AttemptSeesOnlyOutcome([], c1, backend, other);
      AttemptSeesOnlyOutcome([c1], SolveApprox(t.value, b), backend, other);
    }
  }
}
