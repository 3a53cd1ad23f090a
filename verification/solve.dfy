/** The routing of `glue_solve_gen`, `glue_solve_sym` and `glue_solve_tri`:
    which backend routines a `solve()` call tries, in which order, with
    which operands, and what status and output it ends with. The backend
    routines (`auxlib::solve_*`) are LAPACK factorisations and are taken as
    an oracle: any function from a call to its reply. */
module GlueSolve {
  import opened Matrix
  import opened Errors
  import Symmat

  /** The options a dispatcher reads from its flag word, one
      `bool(flags & solve_opts::flag_*)` each. */
  datatype Flags = Flags(
    equilibrate: bool, refine: bool, approx: bool, noapprox: bool, rankdef: bool,
    symu: bool, syml: bool, triu: bool, tril: bool)

  /** A call of a backend routine with the operands it was given. */
  datatype Call =
    | SolveSquare(a: Mat, b: Mat)
    | SolveSquareExt(a: Mat, b: Mat, equilibrate: bool)
    | SolveSym(a: Mat, b: Mat, layout: nat)
    | SolveSymExt(a: Mat, b: Mat, layout: nat)
    | SolveTri(a: Mat, b: Mat, layout: nat)
    | SolveApprox(a: Mat, b: Mat)
  {
    /** Whether the routine overwrites the A it is given; only `solve_sym_ext`
        and `solve_tri` leave it alone. */
    predicate OverwritesA() {
      !SolveSymExt? && !SolveTri?
    }
  }

  /** What a backend routine does with a call: it returns a status, having
      written `out` and left its copy of A as `clobbered`, or it raises. */
  datatype Reply = Returned(status: bool, out: Mat, clobbered: Mat) | Raised(reason: string)

  /** How a dispatcher finishes: with a status and the output matrix, or
      with a hard error (an `arma_debug_check` failure or a raising routine). */
  datatype End = Status(ok: bool, out: Mat) | HardError(reason: string)

  /** The backend calls a dispatcher made, in order, and how it finished. */
  datatype Run = Run(calls: seq<Call>, end: End)

  /** The run ended with a false status: the case the approximate fallback
      takes over and the resetting forms empty `out` for. */
  predicate Failed(r: Run) {
    r.end.Status? && !r.end.ok
  }

  /** r is what the backend could have produced: each call but the last
      returned false (a later routine is only tried after an earlier one
      failed), and a status is the status and output of the last call. */
  predicate Follows(r: Run, backend: Call -> Reply) {
    && (forall k | 0 <= k < |r.calls| - 1 ::
          backend(r.calls[k]).Returned? && !backend(r.calls[k]).status)
    && (r.end.Status? ==>
          && |r.calls| > 0
          && backend(r.calls[|r.calls| - 1]).Returned?
          && backend(r.calls[|r.calls| - 1]).status == r.end.ok
          && backend(r.calls[|r.calls| - 1]).out == r.end.out)
  }

  /** Makes call c after the calls in `done`; the run ends with its reply. */
  function Attempt(done: seq<Call>, c: Call, backend: Call -> Reply): Run {
    match backend(c)
    case Returned(s, o, _) => Run(done + [c], Status(s, o))
    case Raised(e) => Run(done + [c], HardError(e))
  }

  /** The layout code passed to `solve_sym`, `solve_sym_ext` and `solve_tri`:
      0 for the upper triangle, 1 for the lower. */
  function Layout(upper: bool): nat {
    if upper then 0 else 1
  }

  /** `glue_solve_gen::apply(out, A, B, flags)`, the bool-returning form.
      A square system is tried with `solve_square_ext` (equilibrate or refine)
      or `solve_square`, then with `solve_approx` on a fresh copy of A if that
      returned false and approx is set; any other system goes straight to
      `solve_approx`. */
  function Gen(a: Mat, b: Mat, f: Flags, backend: Call -> Reply): (r: Run)
    ensures Follows(r, backend)
    ensures 1 <= |r.calls| <= 2
    ensures r.end.HardError? ==> backend(r.calls[|r.calls| - 1]).Raised?
    ensures |r.calls| == 2 ==> r.calls[1] == SolveApprox(a, b)
  {
    if IsSquare(a) then
      var first := Attempt([], if f.equilibrate || f.refine then SolveSquareExt(a, b, f.equilibrate)
                               else SolveSquare(a, b), backend);
      if Failed(first) && f.approx then Attempt(first.calls, SolveApprox(a, b), backend) else first
    else
      Attempt([], SolveApprox(a, b), backend)
  }

  /** `symmatu(A)` when symu is set, else `symmatl(A)`. */
  function SymmatOf(a: Mat, symu: bool): Result<Mat>
    requires Valid(a)
  {
    if symu then Symmat.Symmatu(a) else Symmat.Symmatl(a)
  }

  /** `glue_solve_sym::apply(out, A, B, flags)`, the bool-returning form.
      Equilibrate: `solve_square_ext` on the symmetrised A; else refine:
      `solve_sym_ext` on A itself; else `solve_sym`. Then `solve_approx` on a
      freshly symmetrised A if the status is false and approx is set. */
  function Sym(a: Mat, b: Mat, f: Flags, backend: Call -> Reply): (r: Run)
    requires Valid(a)
    ensures Follows(r, backend)
    ensures |r.calls| <= 2
    ensures !IsSquare(a) <==> r == Run([], HardError(Symmat.NotSquare))
    ensures IsSquare(a) ==> 1 <= |r.calls|
    ensures IsSquare(a) && r.end.HardError? ==> backend(r.calls[|r.calls| - 1]).Raised?
  {
    var first :=
      if f.equilibrate then
        match SymmatOf(a, f.symu)
        case Err(e) => Run([], HardError(e))
        case Ok(symA) => Attempt([], SolveSquareExt(symA, b, true), backend)
      else if !IsSquare(a) then
        Run([], HardError(Symmat.NotSquare))
      else if f.refine then
        Attempt([], SolveSymExt(a, b, Layout(f.symu)), backend)
      else
        Attempt([], SolveSym(a, b, Layout(f.symu)), backend);
    if Failed(first) && f.approx then
      match SymmatOf(a, f.symu)
      case Err(e) => Run(first.calls, HardError(e))
      case Ok(symA) => Attempt(first.calls, SolveApprox(symA, b), backend)
    else
      first
  }

  /** `trimatu(A)` when triu is set, else `trimatl(A)`; both are given as
      opaque functions that may raise. */
  function TrimatOf(a: Mat, triu: bool, trimatu: Mat -> Result<Mat>, trimatl: Mat -> Result<Mat>): Result<Mat> {
    if triu then trimatu(a) else trimatl(a)
  }

  /** `glue_solve_tri::apply(out, A, B, flags)`, the bool-returning form.
      Equilibrate or refine: `solve_square_ext` on the triangular part of A;
      else `solve_tri` on A itself. Then `solve_approx` on a fresh triangular
      part of A if the status is false and approx is set. */
  function Tri(a: Mat, b: Mat, f: Flags, backend: Call -> Reply,
               trimatu: Mat -> Result<Mat>, trimatl: Mat -> Result<Mat>): (r: Run)
    ensures Follows(r, backend)
    ensures |r.calls| <= 2
    ensures !(f.equilibrate || f.refine) ==> 1 <= |r.calls|
  {
    var first :=
      if f.equilibrate || f.refine then
        match TrimatOf(a, f.triu, trimatu, trimatl)
        case Err(e) => Run([], HardError(e))
        case Ok(triA) => Attempt([], SolveSquareExt(triA, b, f.equilibrate), backend)
      else
        Attempt([], SolveTri(a, b, Layout(f.triu)), backend);
    if Failed(first) && f.approx then
      match TrimatOf(a, f.triu, trimatu, trimatl)
      case Err(e) => Run(first.calls, HardError(e))
      case Ok(triA) => Attempt(first.calls, SolveApprox(triA, b), backend)
    else
      first
  }

  /** What the resetting forms `apply(out, Glue)` do with the bool form's run:
      on a false status `out` is reset to the empty matrix, after which the
      source raises through `arma_bad`; `Status(false, Empty())` stands for
      that reset-then-raise. */
  function ResetOnFailure(r: Run): (s: Run)
    ensures s.calls == r.calls
    ensures s.end.Status? <==> r.end.Status?
    ensures s.end.Status? ==> s.end.ok == r.end.ok
    ensures Failed(s) ==> s.end.out == Empty()
    ensures !Failed(s) ==> s == r
  {
    if Failed(r) then Run(r.calls, Status(false, Empty())) else r
  }

  /** `glue_solve_gen::apply(out, X)` */
  function GenApply(a: Mat, b: Mat, f: Flags, backend: Call -> Reply): (r: Run)
    ensures r.calls == Gen(a, b, f, backend).calls
    ensures Failed(r) <==> Failed(Gen(a, b, f, backend))
    ensures Failed(r) ==> r.end.out == Empty()
    ensures !Failed(r) ==> r == Gen(a, b, f, backend)
  {
    ResetOnFailure(Gen(a, b, f, backend))
  }

  /** `glue_solve_sym::apply(out, X)` */
  function SymApply(a: Mat, b: Mat, f: Flags, backend: Call -> Reply): (r: Run)
    requires Valid(a)
    ensures r.calls == Sym(a, b, f, backend).calls
    ensures Failed(r) <==> Failed(Sym(a, b, f, backend))
    ensures Failed(r) ==> r.end.out == Empty()
    ensures !Failed(r) ==> r == Sym(a, b, f, backend)
  {
    ResetOnFailure(Sym(a, b, f, backend))
  }

  /** `glue_solve_tri::apply(out, X)` */
  function TriApply(a: Mat, b: Mat, f: Flags, backend: Call -> Reply,
                    trimatu: Mat -> Result<Mat>, trimatl: Mat -> Result<Mat>): (r: Run)
    ensures r.calls == Tri(a, b, f, backend, trimatu, trimatl).calls
    ensures Failed(r) <==> Failed(Tri(a, b, f, backend, trimatu, trimatl))
    ensures Failed(r) ==> r.end.out == Empty()
    ensures !Failed(r) ==> r == Tri(a, b, f, backend, trimatu, trimatl)
  {
    ResetOnFailure(Tri(a, b, f, backend, trimatu, trimatl))
  }
}
