# RBniCS reduced-basis core, modelled in Dafny

This project models five sequential pieces of RBniCS, a reduced-order
modelling library built on FEniCS. Each piece is stated in Dafny and its
contracts are proved.

- **The POD compressor** (`ProperOrthogonalDecompositionBase`), in `pod.dfy`. It holds:
  - a snapshot matrix (a `FunctionsList` of degree-of-freedom vectors);
  - an optional inner-product matrix `X`;
  - the last eigen-solver.

  `apply(Nmax)` forms the correlation matrix `SᵀXS` (or `SᵀS`) and hands it to the eigen-solver. It then normalises `S·vᵢ` for `i = 0..Nmax-1` into a fresh basis container and only then replaces the stored solver. The model also covers:
  - `clear`;
  - the printed eigenvalue lines and the eigenvalue-file lines, including the check that each imaginary part is close to zero;
  - the retained-energy file, `cumsum(λ)/sum(λ)`, with IEEE results for a zero total.

  The eigen-solver is a function parameter (an oracle). `sqrt` is a parameter constrained by `IsSqrt`.
- **The affine product** (`product` and `ProductOutput` of the NumPy backend), in `product.dfy`.
  - Order 1 accumulates `Σ θᵢ·Aᵢ` in a loop. It then writes the tags `M`/`N` of the first operator and the three component dictionaries onto a fresh result object.
  - Order 2 is the scalar `θᵀ·M·θ₂`. It is proved equal to the double loop the source keeps in a comment.
  - Every assertion and exception of the source is a `ProductError`, in the order the source checks them.
- **The functions-list × online-matrix product** (`functions_list_mul_online_matrix`), in `functions_list.dfy`. Its nested accumulation loops produce `out_j = Σᵢ M[i,j]·fᵢ`, column by column, into a fresh list.
- **The parametrized expression** (`ParametrizedExpression`), in `parametrized_expression.dfy`.
  - Rewriting `mu[p]` to `mu_p` in a string, a vector of strings or a matrix of strings is a pure function. Python's `str.replace` is modelled exactly, in `strings.dfy`.
  - The `mu_p` keyword dictionary is built by a loop.
  - The wrapped `set_mu` / `set_time` are methods on an `Expression` and a `TruthProblem` object.
- **The backends factory**, in `backends_factory.dfy`:
  - `get_input_types`, the structural typing of arguments;
  - `are_subclass`;
  - the selection rule of `backend_selector`: the eligible backends in first-match order, then the pairwise elimination that keeps the most specific one;
  - the enabled-backend list and the once-only guard;
  - the `Online…`/`online_…` naming.

  Python's `issubclass` and the container wrappers' own `are_subclass` are the two relations of a `Hierarchy` parameter.

There are two shared modules:
- `linear_algebra.dfy` holds vectors and matrices over `real`, dot products, linear combinations, the inner product `aᵀXb` and the Gram matrix, with their algebraic lemmas.
- `wrappers.dfy` holds `Option`, `Result` and `Outcome`.

A Python `assert` or `raise` becomes a `Failure`/`Fail` value of an error datatype. No precondition stands in for a check the source makes.

`are_subclass` called on a first tuple that holds `None` can reach `issubclass(None, cls)`, which raises `TypeError`; `BackendsFactory.AreSubclass` keeps this as the error `NotAClass` and states that it needs a `None` position. The selector never gets there. It admits a backend only when its signature without `None` is as long as the arguments (line 62). So when line 72 compares an eligible signature holding `None` as the first tuple, that tuple is longer than the stripped second one, and `are_subclass` returns `False` on the length test (line 264). `BackendsFactory.EligibleComparisonsSucceed` proves this. As a consequence, the selector never raises `NotAClass`. A backend with an optional (`None`) argument is never preferred over another eligible backend. Two eligible backends that both have one are incomparable, and the selector raises its `RuntimeError` (line 79).

## Model

| member | source | states |
|---|---|---|
| ProperOrthogonalDecomposition.ProperOrthogonalDecompositionBase.constructor | RBniCS/backends/basic/proper_orthogonal_decomposition_base.py:39-51 | a new compressor has an empty snapshot container on the given space, the given inner product, and a fresh eigen-solver |
| ProperOrthogonalDecomposition.ProperOrthogonalDecompositionBase.Clear | RBniCS/backends/basic/proper_orthogonal_decomposition_base.py:54-56 | afterwards the snapshot container is empty and the eigen-solver is a fresh one |
| ProperOrthogonalDecomposition.ProperOrthogonalDecompositionBase.Correlation | RBniCS/backends/basic/proper_orthogonal_decomposition_base.py:68-71 | the correlation matrix is square, with one row and one column per snapshot |
| ProperOrthogonalDecomposition.ProperOrthogonalDecompositionBase.Apply | RBniCS/backends/basic/proper_orthogonal_decomposition_base.py:63-92 | it returns a fresh container on the snapshot space holding exactly `Nmax` functions, together with `Nmax`; function `i` is the normalised combination of the snapshots by eigenvector `i` and has unit norm in the chosen inner product; the snapshots are untouched, and the stored solver becomes the one solved on the correlation matrix |
| ProperOrthogonalDecomposition.BasisFunction | RBniCS/backends/basic/proper_orthogonal_decomposition_base.py:84-88 | the rescaled combination `S·v / sqrt(bᵀXb)` is a function of the snapshot space |
| ProperOrthogonalDecomposition.BasisFunctionUnitNorm | RBniCS/backends/basic/proper_orthogonal_decomposition_base.py:84-88 | when the norm is non-zero, a basis function has norm 1 in `X` (or in the Euclidean product without `X`) |
| ProperOrthogonalDecomposition.SnapshotEnergy | RBniCS/backends/basic/proper_orthogonal_decomposition_base.py:68-88 | the squared norm of `S·v` equals `λ·vᵀv` when `v` is an eigenvector of the correlation matrix for `λ` |
| ProperOrthogonalDecomposition.BasisFunctionsOrthogonal | RBniCS/backends/basic/proper_orthogonal_decomposition_base.py:68-88 | basis functions built from two orthogonal eigenvectors of the correlation matrix are orthogonal in the chosen inner product |
| ProperOrthogonalDecomposition.EigenvalueLines | RBniCS/backends/basic/proper_orthogonal_decomposition_base.py:106-111 | the lines succeed exactly when each of the first `N` eigenvalues exists and has an imaginary part within `1e-8` of zero; line `i` is `(i, real part of λᵢ)` in ascending `i`; a failure names the first bad index and whether the eigenvalue was missing or not real |
| ProperOrthogonalDecomposition.EigenvalueLinesFailureStays | RBniCS/backends/basic/proper_orthogonal_decomposition_base.py:108-110 | once an index fails, every longer loop fails with that same error |
| ProperOrthogonalDecomposition.ProperOrthogonalDecompositionBase.ReadEigenvalues | RBniCS/backends/basic/proper_orthogonal_decomposition_base.py:108-110 | the loop over `i = 0..N-1` produces exactly `EigenvalueLines` for `N`, stopping at the first failing check |
| ProperOrthogonalDecomposition.ProperOrthogonalDecompositionBase.PrintEigenvalues | RBniCS/backends/basic/proper_orthogonal_decomposition_base.py:95-101 | the printed lines are the eigenvalue lines for the given `N`, or for the number of snapshots when `N` is not given |
| ProperOrthogonalDecomposition.ProperOrthogonalDecompositionBase.SaveEigenvaluesFile | RBniCS/backends/basic/proper_orthogonal_decomposition_base.py:104-112 | a process that does no I/O writes nothing; the I/O process writes one line per snapshot, which are the eigenvalue lines, or it fails with their error |
| ProperOrthogonalDecomposition.RealParts | RBniCS/backends/basic/proper_orthogonal_decomposition_base.py:117-120 | reading succeeds exactly when every requested eigenvalue exists; the values are the real parts in index order; a failure names the first missing index |
| ProperOrthogonalDecomposition.Divide | RBniCS/backends/basic/proper_orthogonal_decomposition_base.py:121-123 | division with a non-zero divisor is the real quotient; with a zero divisor the result is `+inf`, `-inf` or `nan` according to the sign of the dividend |
| ProperOrthogonalDecomposition.RetainedEnergy | RBniCS/backends/basic/proper_orthogonal_decomposition_base.py:117-123 | there is one retained-energy entry per eigenvalue |
| ProperOrthogonalDecomposition.PrefixSumMonotone | RBniCS/backends/basic/proper_orthogonal_decomposition_base.py:121-122 | cumulative sums of non-negative eigenvalues are non-negative and never decrease |
| ProperOrthogonalDecomposition.RetainedEnergyLastIsOne | RBniCS/backends/basic/proper_orthogonal_decomposition_base.py:121-123 | with a non-zero total, the last retained energy is exactly 1 |
| ProperOrthogonalDecomposition.RetainedEnergyMonotone | RBniCS/backends/basic/proper_orthogonal_decomposition_base.py:121-123 | with non-negative eigenvalues and a non-zero total, every retained energy is finite, lies in `[0, 1]`, and the sequence never decreases |
| ProperOrthogonalDecomposition.RetainedEnergyZeroTotal | RBniCS/backends/basic/proper_orthogonal_decomposition_base.py:121-123 | when all eigenvalues are zero, every retained energy is `nan` |
| ProperOrthogonalDecomposition.EnergyLines | RBniCS/backends/basic/proper_orthogonal_decomposition_base.py:124-126 | there is one line per eigenvalue, and line `i` is `(i, retained energy i)` |
| ProperOrthogonalDecomposition.ProperOrthogonalDecompositionBase.SaveRetainedEnergyFile | RBniCS/backends/basic/proper_orthogonal_decomposition_base.py:115-127 | a process that does no I/O writes nothing; the I/O process fills the array of real parts in a loop and writes the energy lines of that array, or it fails at the first missing eigenvalue |
| FunctionsLists.FunctionsList.Enrich | RBniCS/backends/basic/proper_orthogonal_decomposition_base.py:89 | the function is appended at the end, after the ones already held |
| FunctionsLists.FunctionsList.Clear | RBniCS/backends/basic/proper_orthogonal_decomposition_base.py:55 | afterwards the list is empty |
| FunctionsLists.FunctionsListMulOnlineMatrix | RBniCS/backends/fenics/wrapping/functions_list_mul.py:31-46 | the input list is unchanged; a list not on a `FunctionSpace`, a column length that differs from the list length, or an empty list fails as the source does; otherwise the result is a fresh list on the same space, and its `j`-th function is `Σᵢ M[i,j]·fᵢ`, accumulated column by column |
| FunctionsLists.MulSpec | RBniCS/backends/fenics/wrapping/functions_list_mul.py:36-45 | the product holds one function per matrix column, each of the space's dimension |
| FunctionsLists.MulSpecEntry | RBniCS/backends/fenics/wrapping/functions_list_mul.py:40-44 | entry `k` of output function `j` is the matrix-product entry `Σᵢ fᵢ[k]·M[i,j]` |
| FunctionsLists.MulSpecIdentity | RBniCS/backends/fenics/wrapping/functions_list_mul.py:38-45 | multiplying by the identity matrix gives back the same functions |
| FunctionsLists.MulOutcome | RBniCS/backends/fenics/wrapping/functions_list_mul.py:31-46 | the product succeeds exactly on a `FunctionSpace` list when the matrix has no columns, or has as many rows as the list has functions and the list is non-empty. The result has one function per column, each of the space's dimension, and it is the product `S·M` |
| AffineProduct.Product | RBniCS/backends/numpy/product.py:34-107 | it fails exactly as `product` raises, in the same order; otherwise it returns a `ProductOutput` holding the float result, or a fresh object whose entries, tags and dictionaries are those of the specification |
| AffineProduct.ProductSpec | RBniCS/backends/numpy/product.py:34-107 | a result needs consistent component dictionaries. An operator result comes only from order 1 without `thetas2`, with one coefficient per operator, and has the length of the first operator's data. A float result comes only from order 2 with `thetas2` |
| AffineProduct.ProductOrder1 | RBniCS/backends/numpy/product.py:38-107 | the order-1 branch: its checks, then the accumulated sum `Σ θᵢ·Aᵢ` starting from zero, the tags of the first operator, and the dictionaries written only when present |
| AffineProduct.ProductOrder2 | RBniCS/backends/numpy/product.py:56-107 | the order-2 branch: its checks, then the float `θᵀ·M·θ₂`, which takes no dictionaries |
| AffineProduct.ProductOrder1Entries | RBniCS/backends/numpy/product.py:43-54 | entry `k` of the order-1 sum equals entry `k` of the vectorised form `thetas · operators.as_matrix()ᵀ` |
| AffineProduct.ProductSingleOperator | RBniCS/backends/numpy/product.py:43-46 | a single matrix or vector operator with weight 1 is returned with its own entries and tags and the expansion's dictionaries |
| AffineProduct.DoubleSumIsBilinear | RBniCS/backends/numpy/product.py:71-83 | the double loop over the grid equals the bilinear form `θᵀ·(M·θ₂)` |
| AffineProduct.ProductOrder2DoubleSum | RBniCS/backends/numpy/product.py:71-83 | the order-2 result is the double sum `Σᵢ Σⱼ θᵢ·Mᵢⱼ·θ₂ⱼ` of the commented loop |
| AffineProduct.ProductOutcome | RBniCS/backends/numpy/product.py:35-105 | any order other than 1 or 2 is rejected. An order-1 result exists exactly when the lengths match, the first operator is a matrix or a vector, there is no `thetas2`, and the dictionaries are consistent. A float result exists exactly for a float grid whose shape matches `thetas` and `thetas2`, with no dictionaries. An order-1 result carries `M` and `N` from a first matrix, only `N` from a first vector, and exactly the expansion's dictionaries |
| ParametrizedExpressions.MuNameInjective | rbnics/backends/dolfin/wrapping/parametrized_expression.py:69-76 | distinct components get distinct keyword names `mu_p` |
| ParametrizedExpressions.ReplaceMuLeavesNoPattern | rbnics/backends/dolfin/wrapping/parametrized_expression.py:47-58 | after `s.replace("mu[p]", "mu_p")` no `mu[p]` is left, and no `mu[q]` appears that was not already there |
| ParametrizedExpressions.ReplaceEachProperties | rbnics/backends/dolfin/wrapping/parametrized_expression.py:51-56 | a rewritten vector keeps its length and stays a vector of strings; it holds no `mu[p]`, and it gains no `mu[q]` |
| ParametrizedExpressions.RewriteRowsProperties | rbnics/backends/dolfin/wrapping/parametrized_expression.py:40-50 | rewritten matrix rows keep their number and their entry counts; they hold no `mu[p]`, and they gain no `mu[q]` |
| ParametrizedExpressions.RewriteStepProperties | rbnics/backends/dolfin/wrapping/parametrized_expression.py:37-58 | one pass keeps a string a string, a vector a vector of the same length and a matrix a matrix of the same shape; it removes every `mu[p]` and adds no `mu[q]` |
| ParametrizedExpressions.RewriteStepByShape | rbnics/backends/dolfin/wrapping/parametrized_expression.py:38-60 | whether a pass is rejected, and with which error, depends only on the shape of the code |
| ParametrizedExpressions.RewriteStepWithoutPattern | rbnics/backends/dolfin/wrapping/parametrized_expression.py:37-58 | a pass over code without `mu[p]` leaves it as it is |
| ParametrizedExpressions.RewriteStep | rbnics/backends/dolfin/wrapping/parametrized_expression.py:37-60 | a string is always accepted and stays a string; an accepted tuple stays a tuple of the same length; any other object is rejected |
| ParametrizedExpressions.Rewrite | rbnics/backends/dolfin/wrapping/parametrized_expression.py:36-60 | a string is always accepted and stays a string; an accepted tuple stays a tuple of the same length; with at least one component, any other object is rejected |
| ParametrizedExpressions.RewriteOutcome | rbnics/backends/dolfin/wrapping/parametrized_expression.py:36-60 | the rewriting succeeds exactly when `mu` is empty or the first pass succeeds; a rejection carries the first pass's error |
| ParametrizedExpressions.RewritePass | rbnics/backends/dolfin/wrapping/parametrized_expression.py:37-58 | the pass for `p` over code free of every `mu[q]` with `q < p` keeps the shape and leaves it free of every `mu[q]` with `q ≤ p` |
| ParametrizedExpressions.RewriteRemovesPatterns | rbnics/backends/dolfin/wrapping/parametrized_expression.py:36-60 | after all passes the code keeps its shape, and no string holds `mu[q]` for any component `q` |
| ParametrizedExpressions.IndexedLookup | rbnics/backends/dolfin/wrapping/parametrized_expression.py:69-76 | the dictionary has exactly the keys `mu_0 .. mu_(P-1)`, and `mu_p` holds value `p` |
| ParametrizedExpressions.ComponentValuesOutcome | rbnics/backends/dolfin/wrapping/parametrized_expression.py:70-76 | the component values succeed exactly when every component is a number or a parametrized constant; a number is kept as it is and a constant becomes its value; a failure names the first bad component |
| ParametrizedExpressions.ParametrizedExpressionSpec | rbnics/backends/dolfin/wrapping/parametrized_expression.py:28-82 | the result is `None` exactly when there is no code. A built expression needs a tuple `mu` whose components all give values; it keeps that tuple, and its code is the full rewriting for all components |
| ParametrizedExpressions.ExpressionKeywords | rbnics/backends/dolfin/wrapping/parametrized_expression.py:69-78 | a built expression no longer has the keyword `mu`. Its keywords are the others plus one `mu_p` per component. `mu_p` holds component `p`'s value and overrides any caller keyword of that name, and every other keyword is passed on unchanged |
| ParametrizedExpressions.NewParametrizedExpression | rbnics/backends/dolfin/wrapping/parametrized_expression.py:28-82 | no code gives `None`; a missing, `None` or non-tuple `mu`, a rejected code or a bad component fails, in the source's order; otherwise it gives a fresh expression with the rewritten code, the keyword dictionary built by the loop, and the tuple `mu` |
| ParametrizedExpressions.OverriddenSetMu | rbnics/backends/dolfin/wrapping/parametrized_expression.py:92-99 | the problem always stores the new `mu`, and its time is unchanged. When `mu` is the very object the expression follows, the expression is untouched. Otherwise a non-tuple fails, and so does a tuple of another length, both leaving the expression as it was. In the remaining case every `mu_p` attribute is set to component `p`, and the expression's `mu` becomes the new tuple |
| ParametrizedExpressions.EqualTupleStoresComponent | rbnics/backends/dolfin/wrapping/parametrized_expression.py:72-98 | a new expression holds a parametrized constant's value under `mu_p`. Setting an equal tuple that is not the same object stores the constant itself there, so the attribute changes |
| ParametrizedExpressions.SetMuAttributes | rbnics/backends/dolfin/wrapping/parametrized_expression.py:97-98 | after synchronisation each `mu_p` attribute holds component `p`, other attributes keep their values, and the only attributes added are the `mu_p` |
| ParametrizedExpressions.OverriddenSetTime | rbnics/backends/dolfin/wrapping/parametrized_expression.py:109-113 | the problem stores `t`, the expression's `t` attribute is set to `t` only when it has one, and nothing else changes |
| BackendsFactory.Collapse | rbnics/utils/factories/backends_factory.py:117-120 | when all item types are equal the single type is kept; otherwise the set of distinct types is kept, and it never has exactly one element |
| BackendsFactory.InputTypesConcat | rbnics/utils/factories/backends_factory.py:109-143 | the types of a concatenation of arguments are the concatenation of their types |
| BackendsFactory.InputTypesSkipNone | rbnics/utils/factories/backends_factory.py:139-141 | a `None` argument contributes no type |
| BackendsFactory.InputTypes | rbnics/utils/factories/backends_factory.py:109-143 | there are never more types than arguments; without `None` arguments there is exactly one type per argument, in argument order |
| BackendsFactory.TypeEntry | rbnics/utils/factories/backends_factory.py:111-141 | `None` gives no entry and every other argument exactly one; the entry is a container wrapper exactly for an exact list, tuple or dict, or an array of `object` dtype |
| BackendsFactory.UniformListType | rbnics/utils/factories/backends_factory.py:117-124 | a list is typed `list_of(t)` for a single type `t` exactly when it has typed items and all of them have type `t` |
| BackendsFactory.StripNone | rbnics/utils/factories/backends_factory.py:262 | every non-`None` type of the signature is kept, as often as it occurs, and nothing else; the result is shorter exactly when the signature holds `None` |
| BackendsFactory.StripNoneConcat | rbnics/utils/factories/backends_factory.py:262 | stripping works position by position, so the kept types stay in signature order |
| BackendsFactory.MatchAll | rbnics/utils/factories/backends_factory.py:266-300 | the position-by-position comparison can fail only by `issubclass(None, …)`, and only when a compared input position is `None` |
| BackendsFactory.AreSubclass | rbnics/utils/factories/backends_factory.py:259-300 | `are_subclass` can fail only by `issubclass(None, …)`, and only when the first signature holds `None` |
| BackendsFactory.MatchAllTypes | rbnics/utils/factories/backends_factory.py:266-300 | over argument types, the comparison holds exactly when every position matches: a class matches a class it is a subclass of, and a wrapper matches a wrapper of the same kind that it is a subclass of |
| BackendsFactory.AreSubclassTypes | rbnics/utils/factories/backends_factory.py:259-300 | argument types match a signature exactly when the signature has as many non-`None` positions and each position matches; it never fails, and no arguments match a signature of `None` slots only |
| BackendsFactory.EligibleUpTo | rbnics/utils/factories/backends_factory.py:60-64 | there are at most as many eligible backends as map entries read, and every eligible backend is enabled |
| BackendsFactory.EligibleNames | rbnics/utils/factories/backends_factory.py:60-66 | each eligible backend is listed once, and the listed backends are exactly those with a kept signature |
| BackendsFactory.EligibleBackendsMatch | rbnics/utils/factories/backends_factory.py:60-64 | a backend is eligible exactly when some signature of it matches the arguments and it is enabled |
| BackendsFactory.EligibleSignaturesMatch | rbnics/utils/factories/backends_factory.py:60-64 | the signature kept for an eligible backend is one of its matching signatures |
| BackendsFactory.Factory.EligibleBackends | rbnics/utils/factories/backends_factory.py:60-64 | the loop over the input map computes the eligible backends and their signatures |
| BackendsFactory.EligibleComparisonsSucceed | rbnics/utils/factories/backends_factory.py:62-75 | two signatures that both match the arguments compare without raising, and a first signature holding `None` never lies below the other |
| BackendsFactory.OptionalPairIncomparable | rbnics/utils/factories/backends_factory.py:62-79 | two eligible signatures that both hold `None` are a pair where neither lies below the other, which is what makes the selector raise at line 79 |
| BackendsFactory.EligiblePairsCompare | rbnics/utils/factories/backends_factory.py:69-79 | among eligible backends no comparison raises, so every pair is either comparable or one where neither lies below the other |
| BackendsFactory.Narrow | rbnics/utils/factories/backends_factory.py:65-81 | a single eligible backend is selected as it is. The comparisons get through exactly when every pair is comparable, and then the result is a selection or the leftover-count failure. A selected backend lies below every other eligible one. `Incomparable` names a pair where neither lies below the other, and `NotAClass` a pair whose comparison raised |
| BackendsFactory.EliminateAgainst | rbnics/utils/factories/backends_factory.py:67-79 | comparing `[i]` with every later backend gets through exactly when each of these pairs is comparable, and then the more general backend of each pair is gone and none is added. Otherwise `Incomparable` names a later backend where neither lies below the other, and `NotAClass` one whose comparison raised |
| BackendsFactory.SurvivorIsMostSpecific | rbnics/utils/factories/backends_factory.py:65-82 | once every pair has been compared, the one backend left lies below every other eligible backend |
| BackendsFactory.Factory.BackendSelector | rbnics/utils/factories/backends_factory.py:48-106 | two or more keyword arguments fail, and no arguments give `None`. `TypeError` is raised exactly when no backend is eligible. A single eligible backend is selected. The `RuntimeError` of line 79 is raised exactly when some pair of eligible backends has neither below the other. When every pair is comparable the result is a selection or the leftover-count failure. A selected backend lies below every other eligible one, and every eligible pair was comparable. No other failure occurs |
| BackendsFactory.Factory.constructor | rbnics/utils/factories/backends_factory.py:159-160 | the factory starts with no enabled backend and not yet called |
| BackendsFactory.Factory.BackendsFactory | rbnics/utils/factories/backends_factory.py:28-29 | the first call passes and every later call fails; the flag is set afterwards and the enabled list is unchanged |
| BackendsFactory.Factory.EnableBackend | rbnics/utils/factories/backends_factory.py:163-165 | the backend is appended to the enabled list |
| BackendsFactory.Factory.DisableBackend | rbnics/utils/factories/backends_factory.py:167-170 | disabling a backend that is not enabled fails and changes nothing; otherwise its first occurrence is removed |
| BackendsFactory.Remove | rbnics/utils/factories/backends_factory.py:170 | removal keeps every other element, adds none, and shortens the list by one when the element is present |
| BackendsFactory.RemoveMultiset | rbnics/utils/factories/backends_factory.py:170 | removal takes exactly one copy of the element away |
| BackendsFactory.OnlineName | rbnics/utils/factories/backends_factory.py:190-194 | an empty name fails, a class name with `_` fails, and every other name gives a longer name that ends with the original |
| BackendsFactory.OnlineNameRoundTrip | rbnics/utils/factories/backends_factory.py:190-194 | every accepted name is recovered from its online name |
| BackendsFactory.OnlineNameInjective | rbnics/utils/factories/backends_factory.py:190-194 | distinct accepted names get distinct online names |

## Left out

- MPI and I/O in the POD exports. `is_io_process` becomes a boolean parameter. `mpi_comm.barrier()` is left out. A file is modelled as its sequence of `(index, value)` lines, and `str(float)` formatting is not modelled. The lines written before an assertion fails are not modelled: a failure returns only the error.
- The eigen-solve. `OnlineEigenSolver` is an oracle `solve` applied to the correlation matrix, and its spectrum is not verified. Its parameters (Hermitian, largest real part first) are not modelled.
- Square root and rounding. Floats are `real` and `sqrt` is a parameter with `sqrt(q)·sqrt(q) == q` for `q > 0`. `numpy.isclose(v, 0)` is `|v| ≤ 1e-8`.
- ProperOrthogonalDecomposition.ProperOrthogonalDecompositionBase.Apply: requires that the solver returns at least `Nmax` eigenpairs whose combinations have positive norm. The source checks neither and would divide by zero or fail inside the solver.
- ProperOrthogonalDecomposition.ProperOrthogonalDecompositionBase.Correlation: does not state symmetry, which holds only for a symmetric `X`; `LinearAlgebra.GramSymmetric` states it for that case.
- The order-2 product over matrix or vector entries. Writing `M`/`N` onto the float result cannot succeed, so order 2 is modelled over float entries only (`Supported`).
- `functions_list_mul_online_vector` and `functions_list_mul_online_function`. They cannot run as written: the first uses an undefined `self`, and the second calls a misspelled function.
- The dolfin side of the parametrized expression. The following are not modelled:
  - mesh detection and the `domain` keyword;
  - `Expression(...)` construction, beyond keeping its code and keywords;
  - `ufl_domain`;
  - the `types.MethodType` patching itself: the wrapped setters are the methods `OverriddenSetMu` and `OverriddenSetTime`.

  A parametrized constant is given with its value, so `parametrized_constant_to_float` is not modelled. The problem's own `set_mu` and `set_time` are modelled as storing the value.
- ParametrizedExpressions.OverriddenSetMu: object identity is not a property of values, so the outcome of `expression.mu is not mu` is the parameter `sameObject`. The model does not track which objects exist.
- ParametrizedExpressions.OverriddenSetTime: `expression.t is not t` is modelled as value inequality, for the same reason.
- Reflection in the backends factory. The following are not modelled: building the selectors from the decorators' maps; `setattr` on modules; logging; the `return_map` lookup and the call of the selected implementation (`BackendSelector` returns the selected backend's name); the online selector body; and the `_online_backend` assertion. `issubclass` and the wrappers' own `are_subclass` are the relations of `Hierarchy`. Exact `type()` tests become the constructors of `PyValue`.
- BackendsFactory.AreSubclass: the `backend_input_type is None` branch (line 267) is not modelled, because stripping `None` first makes it unreachable.
- Python 2 dictionary order. `iteritems()` and `keys()` are taken in insertion order. The contract of `Narrow` (the selected backend lies below every other eligible one) does not depend on this order. The order of `tuple(set(...))` is not modelled: duplicate-free item types are a set.
- `str.isupper()` on the first character is modelled for ASCII letters only.
- The context files (online backend imports, wrapping re-exports, the POD-Galerkin decorator, the shape-parametrization decorator, the abstract basis-functions matrix, the time quadrature, the linear-solver test) hold no behaviour of the modelled core and are not part of this model.
