# Armadillo convolution, `solve()` routing and `symmatu`/`symmatl` in Dafny

This project models three sequential pieces of the Armadillo C++ linear
algebra library and proves properties of them.

- **Convolution.** This is `glue_conv` (1D) and `glue_conv2` (2D), over integers.
  - The 1D operation is a method with the source's three index loops. Its loop invariants show that each loop fills its output range exactly once with the full-convolution sum.
  - The 2D operation is a function that follows the code: flip the filter, zero-pad the image, sum each window. A lemma shows that every element equals the textbook full 2D convolution.
- **`solve()` dispatch routing.** This covers `glue_solve_gen`, `glue_solve_sym` and `glue_solve_tri`, in their bool-returning and resetting forms.
  - Each dispatcher is a pure function from A, B, the decoded options and a backend oracle to a `Run`: the backend calls it made, in order, and how it ended.
  - A run ends with a status and output, or with a hard error.
  - The LAPACK routines (`auxlib::solve_*`) are the oracle `Call -> Reply`. `trimatu`/`trimatl` are opaque function parameters.
- **The option bits of `glue_solve`.** These are the nine `flag_*` constants, as a 32-bit word with encode and decode.
- **`symmatu` / `symmatl`.** These are defined on square integer matrices. A lemma proves that they give the results test `fn_symmatl_1` expects on its data, scaled by 10^6 so that the values are integers.

Modules:
- `Errors`: `Result`.
- `Matrix`: dense integer matrices.
- `Sums`: finite sums and reindexing.
- `GlueConv`, `GlueConv2`.
- `Symmat`.
- `GlueSolveFlags`.
- `GlueSolve`: the three dispatchers.
- `GlueSolveRoutes`: routing lemmas for all flags and all backends.

Facts about the dispatchers that the model follows:
- `glue_solve_tri` falls back to `solve_approx` when its first routine returns false and approx is set (branch-6.300/include/armadillo_bits/glue_solve_meat.hpp:277-284).
- `glue_solve_gen` on a non-square A only warns about equilibrate/refine; the route does not change (glue_solve_meat.hpp:95-98).
- The fallback is `auxlib::solve_approx`, called directly, with no separate finiteness check (glue_solve_meat.hpp:88, :197, :283).
- `Call.OverwritesA` records what the source's comments say about each routine: "A is overwritten" for `solve_square`, `solve_square_ext`, `solve_sym` and `solve_approx`, and "A is not modified" for `solve_sym_ext` and `solve_tri` (glue_solve_meat.hpp:177, :273). It is a label on the call, not something the model derives: the backend routines are not shown.

## Model

| member | source | states |
|---|---|---|
| `GlueConv.ConvAtCommutes` | branch-6.500/include/armadillo_bits/glue_conv_meat.hpp:24-25 | Every output value is the same whichever input is taken as the filter. So the "shorter input is h, A on a tie" choice never changes the result. |
| `GlueConv.ConvAtWindow` | branch-6.500/include/armadillo_bits/glue_conv_meat.hpp:40-82 | Output i of the full convolution (Σ h[j]·x[k] over j+k=i) only involves x positions max(0,i-len(h)+1) to min(i,len(x)-1). These are the ranges the inner loops walk. |
| `GlueConv.ConvHead` | branch-6.500/include/armadillo_bits/glue_conv_meat.hpp:40-52 | The first loop produces exactly the outputs [0,len(h)-1), each equal to the full-convolution sum. |
| `GlueConv.ConvBody` | branch-6.500/include/armadillo_bits/glue_conv_meat.hpp:55-67 | The second loop extends the outputs to [len(h)-1,len(x)), each equal to the full-convolution sum. |
| `GlueConv.ConvTail` | branch-6.500/include/armadillo_bits/glue_conv_meat.hpp:70-82 | The third loop extends the outputs to [len(x),len(h)+len(x)-1), each equal to the full-convolution sum. |
| `GlueConv.ConvNoAlias` | branch-6.500/include/armadillo_bits/glue_conv_meat.hpp:24-82 | An empty input gives an empty output. Otherwise the output has length len(A)+len(B)-1, and element i is Σ A[j]·B[k] over j+k=i. |
| `GlueConv.Apply` | branch-6.500/include/armadillo_bits/glue_conv_meat.hpp:99-118 | Error if and only if a non-empty input is not a vector. An empty input gives the 0x0 matrix. Otherwise the result is n x 1 when A's type is a column or A has one column, else 1 x n, with n = len(A)+len(B)-1. Its elements are the convolution sums. |
| `GlueConv2.Flip` | branch-6.500/include/armadillo_bits/glue_conv_meat.hpp:153-170 | H has G's size, with H(r,c) = G(R-1-r, C-1-c). |
| `GlueConv2.Pad` | branch-6.500/include/armadillo_bits/glue_conv_meat.hpp:172-174 | X is W with pr zero rows and pc zero columns on every side: X(i,j) = W(i-pr, j-pc), and 0 outside W. |
| `GlueConv2.Conv2` | branch-6.500/include/armadillo_bits/glue_conv_meat.hpp:143-151 | The output size in each dimension is W+G-1 when either extent is positive, else 0. All elements are zero when G or W is empty. |
| `GlueConv2.FlipInvolutive` | branch-6.500/include/armadillo_bits/glue_conv_meat.hpp:161-170 | Flipping twice gives back the filter. |
| `GlueConv2.WindowTermIsConvolutionTerm` | branch-6.500/include/armadillo_bits/glue_conv_meat.hpp:183 | One product H(p,q)·X(r+p,c+q) of the window, read backwards in q, is the convolution product G(p,q')·W(r-p',c-q'). |
| `GlueConv2.WindowRowIsConvolutionRow` | branch-6.500/include/armadillo_bits/glue_conv_meat.hpp:183 | One filter row of the window sum equals the matching row of the textbook convolution sum. |
| `GlueConv2.WindowRowsAreConvolutionRows` | branch-6.500/include/armadillo_bits/glue_conv_meat.hpp:183 | Every filter row of the window sum, read backwards, equals the matching convolution row. |
| `GlueConv2.WindowSumIsConvolution` | branch-6.500/include/armadillo_bits/glue_conv_meat.hpp:172-184 | The window sum of the flipped filter over the padded image at (r,c) is Σ G(p,q)·W(r-p, c-q), the full 2D convolution. |
| `GlueConv2.ConvolutionOfEmptyIsZero` | branch-6.500/include/armadillo_bits/glue_conv_meat.hpp:151 | With an empty filter or image, the textbook convolution is 0 everywhere, matching the zero output. |
| `GlueConv2.Conv2ElementIsConvolution` | branch-6.500/include/armadillo_bits/glue_conv_meat.hpp:143-185 | Each in-range element of `conv2(A,B)` is the full convolution of the image with the filter. |
| `GlueConv2.Conv2IsConvolution` | branch-6.500/include/armadillo_bits/glue_conv_meat.hpp:143-185 | Every element of `conv2(A,B)` is the full convolution of the image with the filter, in every case including the empty ones. |
| `Symmat.Symmatu` | tests_dense/fn_symmat.cpp:28-38 | Ok if and only if A is square. The result has A's size, is symmetric, and keeps A's upper triangle, diagonal included. |
| `Symmat.Symmatl` | tests_dense/fn_symmat.cpp:29-47 | Ok if and only if A is square. The result has A's size, is symmetric, and keeps A's lower triangle, diagonal included. |
| `Symmat.SymmatuMirrorsUpper` | tests_dense/fn_symmat.cpp:28-38 | symmatu(A)(i,j) = A(min(i,j), max(i,j)). |
| `Symmat.SymmatlMirrorsLower` | tests_dense/fn_symmat.cpp:29-47 | symmatl(A)(i,j) = A(max(i,j), min(i,j)). |
| `Symmat.SymmatuUnique` | tests_dense/fn_symmat.cpp:31-38 | Any symmetric matrix that agrees with A on and above the diagonal is symmatu(A). |
| `Symmat.SymmatlUnique` | tests_dense/fn_symmat.cpp:40-47 | Any symmetric matrix that agrees with A on and below the diagonal is symmatl(A). |
| `Symmat.SymmatFixesSymmetric` | tests_dense/fn_symmat.cpp:28-47 | A symmetric matrix is left unchanged by both functions, so both are idempotent. |
| `Symmat.SymmatlIsSymmatuOfTranspose` | tests_dense/fn_symmat.cpp:28-29 | symmatl(A) = symmatu(Aᵀ). |
| `Symmat.TestBBExpected` | tests_dense/fn_symmat.cpp:31-38 | The expected matrix BB of the test is symmetric and agrees with A's leading 5x5 block on and above the diagonal. |
| `Symmat.TestCCExpected` | tests_dense/fn_symmat.cpp:40-47 | The expected matrix CC of the test is symmetric and agrees with A's leading 5x5 block on and below the diagonal. |
| `Symmat.FnSymmatl1` | tests_dense/fn_symmat.cpp:17-54 | On the test's data: symmatu and symmatl of the leading 5x5 block are BB and CC, and symmatu of the 5x6 A is an error. |
| `GlueSolveFlags.Encode` | branch-6.300/include/armadillo_bits/glue_solve_bones.hpp:36-44 | The encoded word is below 512. Testing any one flag in it gives exactly whether that option was set. |
| `GlueSolveFlags.Decode` | branch-6.300/include/armadillo_bits/glue_solve_bones.hpp:36-44 | Re-encoding the decoded options gives the word's low nine bits: bits above flag_tril carry nothing. |
| `GlueSolveFlags.DecodeEncode` | branch-6.300/include/armadillo_bits/glue_solve_bones.hpp:36-44 | Decoding an encoded option set gives it back. |
| `GlueSolveFlags.FlagsAreSingleBits` | branch-6.300/include/armadillo_bits/glue_solve_bones.hpp:36-44 | Flag k is 1 << k, a single set bit. |
| `GlueSolveFlags.FlagsDisjoint` | branch-6.300/include/armadillo_bits/glue_solve_bones.hpp:36-44 | No two of the nine flags share a bit. |
| `GlueSolveFlags.PairsNotExclusive` | branch-6.300/include/armadillo_bits/glue_solve_bones.hpp:41-44 | A word with symu, syml, triu and tril all set decodes with all four set. The encoding does not forbid contradictory pairs. |
| `GlueSolve.Gen` | branch-6.300/include/armadillo_bits/glue_solve_meat.hpp:41-102 | The run is one the backend can produce: every call but the last returned false, and the status and output are the last call's. It makes one or two calls. A hard error comes from a raising routine. A second call is `solve_approx` on the original A and B. |
| `GlueSolve.Sym` | branch-6.300/include/armadillo_bits/glue_solve_meat.hpp:131-201 | The run is one the backend can produce, with at most two calls. A non-square A is exactly the case of a hard error with no call made. For a square A, a hard error comes from a raising routine. |
| `GlueSolve.Tri` | branch-6.300/include/armadillo_bits/glue_solve_meat.hpp:230-287 | The run is one the backend can produce, with at most two calls. Without equilibrate/refine at least one call is made. |
| `GlueSolve.ResetOnFailure` | branch-6.300/include/armadillo_bits/glue_solve_meat.hpp:27-33 | The same calls. A false status leaves `out` as the empty matrix. Any other end is passed through unchanged. The end `Status(false, Empty())` stands for "out reset, then the call raises" (see `arma_bad` under Left out). |
| `GlueSolve.GenApply` | branch-6.300/include/armadillo_bits/glue_solve_meat.hpp:20-34 | The resetting `gen` form fails exactly when the bool form does. It then resets `out` to empty; in the source it then raises. Otherwise it is the bool form. |
| `GlueSolve.SymApply` | branch-6.300/include/armadillo_bits/glue_solve_meat.hpp:110-124 | The same for `sym`. |
| `GlueSolve.TriApply` | branch-6.300/include/armadillo_bits/glue_solve_meat.hpp:209-223 | The same for `tri`. |
| `GlueSolveRoutes.GenSquareFirstCall` | branch-6.300/include/armadillo_bits/glue_solve_meat.hpp:64-79 | Square A: the first call is `solve_square_ext` with the equilibrate bit when equilibrate or refine is set, else `solve_square`. |
| `GlueSolveRoutes.GenSquareFallback` | branch-6.300/include/armadillo_bits/glue_solve_meat.hpp:81-89 | Square A: `solve_approx` runs if and only if the first call returned false and approx is set. It gets the caller's A, not the overwritten copy. |
| `GlueSolveRoutes.GenNonSquare` | branch-6.300/include/armadillo_bits/glue_solve_meat.hpp:91-99 | Non-square A: exactly one call, `solve_approx`. Changing equilibrate/refine changes nothing. |
| `GlueSolveRoutes.GenIgnoredFlags` | branch-6.300/include/armadillo_bits/glue_solve_meat.hpp:45-49 | Two option sets that agree on equilibrate, refine and approx give the same run: rankdef and noapprox are never used. |
| `GlueSolveRoutes.SymIgnoredFlags` | branch-6.300/include/armadillo_bits/glue_solve_meat.hpp:135-141 | Only equilibrate, refine, approx and symu affect `sym`: rankdef, noapprox and syml never do, so symu wins if both are set. |
| `GlueSolveRoutes.TriIgnoredFlags` | branch-6.300/include/armadillo_bits/glue_solve_meat.hpp:234-240 | Only equilibrate, refine, approx and triu affect `tri`: rankdef, noapprox and tril never do. |
| `GlueSolveRoutes.SymNonSquareIsHardError` | branch-6.300/include/armadillo_bits/glue_solve_meat.hpp:158-188 | A non-square A is a hard error with no backend call on every route, never a false status. |
| `GlueSolveRoutes.SymFirstCall` | branch-6.300/include/armadillo_bits/glue_solve_meat.hpp:156-188 | Equilibrate takes priority over refine, which takes priority over the standard route. The equilibrate call is `solve_square_ext` on the symmetrised A with equilibration on. The refine call is `solve_sym_ext` on A itself, a routine the source labels as not modifying A. The standard call is `solve_sym`. The layout is 0 if and only if symu is set. |
| `GlueSolveRoutes.SymOperandIsSymmetric` | branch-6.300/include/armadillo_bits/glue_solve_meat.hpp:162 | For square A the symmetrised matrix is symmatu(A) when symu is set, else symmatl(A), and it is symmetric. |
| `GlueSolveRoutes.SymFallback` | branch-6.300/include/armadillo_bits/glue_solve_meat.hpp:191-198 | Square A: `solve_approx` runs if and only if the first call returned false and approx is set. It runs on a freshly symmetrised A. |
| `GlueSolveRoutes.TriFirstCall` | branch-6.300/include/armadillo_bits/glue_solve_meat.hpp:255-274 | With equilibrate or refine, the first call is `solve_square_ext` on trimatu/trimatl(A), chosen by triu, or a hard error if that raises. Otherwise it is `solve_tri` on A itself, a routine the source labels as not modifying A, with layout 0 if and only if triu. |
| `GlueSolveRoutes.TriFallback` | branch-6.300/include/armadillo_bits/glue_solve_meat.hpp:277-284 | `solve_approx` runs if and only if the first call returned false, approx is set and the triangular part could be formed. It runs on a fresh triangular part of A. |
| `GlueSolveRoutes.GenIgnoresClobbered` | branch-6.300/include/armadillo_bits/glue_solve_meat.hpp:72-88 | Backends that differ only in what a routine left in its copy of A give the same `gen` run. The fallback at :87-88 re-reads the caller's A instead of the overwritten one. |
| `GlueSolveRoutes.SymIgnoresClobbered` | branch-6.300/include/armadillo_bits/glue_solve_meat.hpp:162-197 | The same for `sym`: its fallback symmetrises the caller's A afresh (:195). |
| `GlueSolveRoutes.TriIgnoresClobbered` | branch-6.300/include/armadillo_bits/glue_solve_meat.hpp:259-283 | The same for `tri`: its fallback takes a fresh triangular part of the caller's A (:281). |
| `Matrix.Submat` | tests_dense/fn_symmat.cpp:28 | `A(r0,c0,size(nr,nc))` is the nr x nc block with element (r,c) = A(r0+r, c0+c). |
| `Matrix.Elems` | branch-6.500/include/armadillo_bits/glue_conv_meat.hpp:35-36 | A vector's elements in memory order: element k is A(k,0) for a column and A(0,k) for a row. There are n_elem of them. |
| `Sums.ReversedSumsAgree` | branch-6.500/include/armadillo_bits/glue_conv_meat.hpp:183 | A row read backwards that agrees term by term with another row has the same sum. This is how the flipped filter's window sum meets the textbook sum. |
| `Sums.SumReflect` | branch-6.500/include/armadillo_bits/glue_conv_meat.hpp:46-48 | Summing over filter taps j is summing over signal positions k = i - j. |

## Left out

- `auxlib::solve_square`, `solve_square_ext`, `solve_sym`, `solve_sym_ext`, `solve_tri`, `solve_approx`: LAPACK-backed floating-point routines that are not shown. They are an arbitrary oracle, and nothing is claimed about residuals or accuracy.
- `trimatu` / `trimatl`: not shown. They are opaque function parameters that may raise.
- `arma_bad("solve(): solution not found")` raises a runtime error right after the reset in each resetting form (glue_solve_meat.hpp:29-33, :119-123, :218-222). The model ends the resetting forms with `Status(false, Empty())`, which stands for "out reset, then the call raises". A resetting call never returns normally with an empty `out`.
- `arma_debug_warn` and all debug prints are not modelled.
- `arma_debug_check` is taken as enabled (the default). `ARMA_NO_DEBUG` is not modelled. Without debug checks, `GlueConv.Apply`'s non-vector error (glue_conv_meat.hpp:99-103) and `sym`'s non-square checks (glue_solve_meat.hpp:175, :185) vanish, and the source goes on to the loops or the backend.
- The alias branch of `glue_conv::apply` (temporary plus `steal_mem`), `unwrap_check` and `quasi_unwrap`: matrices are values here. The aliased and non-aliased paths therefore compute the same thing by construction, and no separate member states it.
- Aliasing in `solve`: the dispatchers are modelled with `out` distinct from A and B. In the expression form, `A = solve(A, B)` could make the re-read of `A_expr` for the fallback (glue_solve_meat.hpp:87, :195, :281) see what the first routine wrote to `out`. The model does not cover that case, so `GlueSolveRoutes.GenSquareFallback`'s "the caller's A" assumes no such alias.
- `glue_solve_gen`/`sym`/`tri` read `solve_opts::flag_*`, whose values are not shown. They are a different generation from `glue_solve`'s private `flag_*` constants, so the dispatchers take the decoded options (`GlueSolve.Flags`) and the two flag sets are not reconciled.
- `glue_solve::encode_flags` is declared but its body is not shown. `GlueSolveFlags.Encode` is the encoding the bit constants imply.
- Element types: everything is over unbounded `int`. Floating-point rounding and the order of the `accu` summation are not modelled; over integers the order does not matter.
- `uword` is taken as 32 bits. `ARMA_64BIT_WORD` is not modelled. The unsigned `out_n_elem = h_n_elem + x_n_elem - 1` is computed before the emptiness check (glue_conv_meat.hpp:29), so with both inputs empty it wraps to the largest `uword`. This is harmless only because the check at :31 returns before the value is used; the model computes the length only on the non-empty path.
- `fn_solve.hpp` and `fn_kmeans.cpp` are not part of this model: the first only forwards overloads, the second wraps a floating-point routine that is not shown.
- `GlueSolveFlags.Encode`: "testing one flag in a union of flags" is stated for the unions `Encode` builds, not for arbitrary bit-or of words.
