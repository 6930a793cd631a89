/** The proper orthogonal decomposition (POD) of a set of snapshots: the
    correlation matrix of the snapshots, its eigenpairs, the basis built from
    the leading eigenvectors, and the eigenvalue and retained-energy exports.
    The eigen-solver is an oracle `solve` that maps the correlation matrix to
    its eigenpairs; `sqrt` is the square root on positive reals. */
module ProperOrthogonalDecomposition {
  import opened Wrappers
  import opened LinearAlgebra
  import opened FunctionsLists

  /** One eigenpair as the online eigen-solver reports it. */
  datatype EigenPair = EigenPair(eigenvalueReal: real, eigenvalueImag: real, eigenvector: Vector)

  /** The online eigen-solver: freshly constructed with no operator, or solved
      on `operator` with the eigenpairs `pairs`, largest real part first. */
  datatype EigenSolver = Fresh | Solved(operator: Matrix, pairs: seq<EigenPair>)

  datatype PodError =
    | EigenvalueUnavailable(index: nat)
    | ImaginaryPartNotZero(index: nat)

  /** A float as numpy produces it from a division. */
  datatype FloatValue = Finite(value: real) | PositiveInfinity | NegativeInfinity | NotANumber

  /** The contents of an export file: not written on a process that does no
      I/O, otherwise one entry per line. */
  datatype Export<L> = NotWritten | Written(lines: seq<L>)

  /** Line `"i value"` of the eigenvalue file; the text form of the float is
      left to the formatter. */
  datatype EigenvalueLine = EigenvalueLine(index: nat, value: real)

  /** Line `"i value"` of the retained-energy file. */
  datatype EnergyLine = EnergyLine(index: nat, value: FloatValue)

  /** `numpy.isclose(v, 0)` with its default tolerances: the relative term
      vanishes against 0 and the absolute tolerance is `1e-8`. */
  const AbsoluteTolerance: real := 0.00000001

  predicate IsCloseToZero(v: real) {
    -AbsoluteTolerance <= v <= AbsoluteTolerance
  }

  ghost predicate IsSqrt(sqrt: real -> real) {
    forall q: real :: 0.0 < q ==> 0.0 < sqrt(q) && sqrt(q) * sqrt(q) == q
  }

  // ---------------------------------------------------------------------------
  // The basis

  /** The squared norm `transpose(b)*X*b` (or `transpose(b)*b`) of the
      combination `b = S*v` of the snapshots. */
  function SquaredNorm(snapshots: seq<Vector>, x: Option<Matrix>, n: nat, v: Vector): real
    requires HasDim(snapshots, n) && InnerProductFits(x, n) && |v| == |snapshots|
  {
    var b := LinComb(snapshots, v, n);
    Inner(x, b, b)
  }

  /** Basis function for the eigenvector `v`: `b = S*v` rescaled by
      `sqrt(transpose(b)*X*b)` (or `sqrt(transpose(b)*b)` without `X`). */
  function BasisFunction(snapshots: seq<Vector>, x: Option<Matrix>, n: nat, v: Vector, sqrt: real -> real): (z: Vector)
    requires HasDim(snapshots, n) && InnerProductFits(x, n) && |v| == |snapshots|
    requires IsSqrt(sqrt) && 0.0 < SquaredNorm(snapshots, x, n, v)
    ensures |z| == n
  {
    Scale(1.0 / sqrt(SquaredNorm(snapshots, x, n, v)), LinComb(snapshots, v, n))
  }

  /** The first `count` eigenvectors fit the snapshots and give combinations
      of positive norm: what `apply` silently relies on. */
  predicate Normalizable(snapshots: seq<Vector>, x: Option<Matrix>, n: nat, pairs: seq<EigenPair>, count: nat)
    requires HasDim(snapshots, n) && InnerProductFits(x, n)
  {
    count <= |pairs| &&
    forall i :: 0 <= i < count ==>
      |pairs[i].eigenvector| == |snapshots| && 0.0 < SquaredNorm(snapshots, x, n, pairs[i].eigenvector)
  }

  /** `b` rescaled by `1/s`, where `s*s` is its squared norm, has norm 1. */
  lemma {:induction false} RescaledNorm(q: real, s: real)
    requires 0.0 < s && s * s == q
    ensures (1.0 / s) * (1.0 / s) * q == 1.0
  {
    calc {
      (1.0 / s) * (1.0 / s) * q;
      (1.0 / s) * (1.0 / s) * (s * s);
      ((1.0 / s) * s) * ((1.0 / s) * s);
      1.0;
    }
  }

  /** Every basis function has unit norm in the chosen inner product. */
  lemma {:induction false} BasisFunctionUnitNorm(snapshots: seq<Vector>, x: Option<Matrix>, n: nat, v: Vector, sqrt: real -> real)
    requires HasDim(snapshots, n) && InnerProductFits(x, n) && |v| == |snapshots| && IsSqrt(sqrt)
    requires 0.0 < SquaredNorm(snapshots, x, n, v)
    ensures Inner(x, BasisFunction(snapshots, x, n, v, sqrt), BasisFunction(snapshots, x, n, v, sqrt)) == 1.0
  {
    var b := LinComb(snapshots, v, n);
    var q := Inner(x, b, b);
    var s := sqrt(q);
    InnerScaleEach(x, 1.0 / s, b, 1.0 / s, b);
    RescaledNorm(q, s);
  }

  /** `v` is an eigenvector of `c` for the eigenvalue `lambda`. */
  predicate IsEigenPair(c: Matrix, lambda: real, v: Vector)
    requires HasDim(c, |v|)
  {
    MatVec(c, v) == Scale(lambda, v)
  }

  /** The squared norm of `S*v` is `v` weighted by the correlation `C*v`;
      for an eigenvector this is `lambda * transpose(v)*v`: the energy the
      eigenvalue measures. */
  lemma {:induction false} SnapshotEnergy(snapshots: seq<Vector>, x: Option<Matrix>, n: nat, v: Vector, lambda: real)
    requires HasDim(snapshots, n) && InnerProductFits(x, n) && |v| == |snapshots|
    requires IsEigenPair(Gram(snapshots, x, n), lambda, v)
    ensures SquaredNorm(snapshots, x, n, v) == lambda * Dot(v, v)
  {
    InnerOfLinCombs(x, snapshots, v, v, n);
    DotScaleRight(lambda, v, v);
  }

  /** Basis functions built from two orthogonal eigenvectors of the
      correlation matrix are orthogonal in the chosen inner product. */
  lemma {:induction false} BasisFunctionsOrthogonal(snapshots: seq<Vector>, x: Option<Matrix>, n: nat,
                                                    v: Vector, w: Vector, mu: real, sqrt: real -> real)
    requires HasDim(snapshots, n) && InnerProductFits(x, n) && |v| == |w| == |snapshots|
    requires IsSqrt(sqrt) && 0.0 < SquaredNorm(snapshots, x, n, v) && 0.0 < SquaredNorm(snapshots, x, n, w)
    requires IsEigenPair(Gram(snapshots, x, n), mu, w) && Dot(v, w) == 0.0
    ensures Inner(x, BasisFunction(snapshots, x, n, v, sqrt), BasisFunction(snapshots, x, n, w, sqrt)) == 0.0
  {
    var bv := LinComb(snapshots, v, n);
    var bw := LinComb(snapshots, w, n);
    var cv := 1.0 / sqrt(Inner(x, bv, bv));
    var cw := 1.0 / sqrt(Inner(x, bw, bw));
    calc {
      Inner(x, Scale(cv, bv), Scale(cw, bw));
      { InnerScaleEach(x, cv, bv, cw, bw); }
      cv * cw * Inner(x, bv, bw);
      { InnerOfLinCombs(x, snapshots, v, w, n); }
      cv * cw * Dot(v, Scale(mu, w));
      { DotScaleRight(mu, v, w); }
      cv * cw * (mu * Dot(v, w));
      0.0;
    }
  }

  // ---------------------------------------------------------------------------
  // Eigenvalue export

  /** Eigenvalue `i` can be read and its imaginary part is close to zero. */
  predicate Checked(solver: EigenSolver, i: nat) {
    solver.Solved? && i < |solver.pairs| && IsCloseToZero(solver.pairs[i].eigenvalueImag)
  }

  /** The eigenvalue lines for `i = 0..count-1` in ascending order, or the
      error raised at the first index that cannot be read or is not real. */
  function EigenvalueLines(solver: EigenSolver, count: nat): (r: Result<seq<EigenvalueLine>, PodError>)
    ensures r.Success? <==> forall i :: 0 <= i < count ==> Checked(solver, i)
    ensures r.Success? ==>
      && |r.value| == count
      && (count == 0 || (solver.Solved? && count <= |solver.pairs|))
      && forall i :: 0 <= i < count ==> r.value[i] == EigenvalueLine(i, solver.pairs[i].eigenvalueReal)
    ensures r.Failure? ==>
      && r.error.index < count
      && !Checked(solver, r.error.index)
      && (forall i :: 0 <= i < r.error.index ==> Checked(solver, i))
      && (r.error.EigenvalueUnavailable? <==> !(solver.Solved? && r.error.index < |solver.pairs|))
  {
    if count == 0 then Success([])
    else
      var previous := EigenvalueLines(solver, count - 1);
      var i := count - 1;
      if previous.Failure? then previous
      else if !(solver.Solved? && i < |solver.pairs|) then
        assert !Checked(solver, i);
        Failure(EigenvalueUnavailable(i))
      else if !IsCloseToZero(solver.pairs[i].eigenvalueImag) then
        assert !Checked(solver, i);
        Failure(ImaginaryPartNotZero(i))
      else Success(previous.value + [EigenvalueLine(i, solver.pairs[i].eigenvalueReal)])
  }

  /** Once a prefix fails, every longer prefix fails with the same error. */
  lemma {:induction false} EigenvalueLinesFailureStays(solver: EigenSolver, count: nat, more: nat)
    requires count <= more && EigenvalueLines(solver, count).Failure?
    ensures EigenvalueLines(solver, more) == EigenvalueLines(solver, count)
    decreases more - count
  {
    if count < more {
      EigenvalueLinesFailureStays(solver, count, more - 1);
    }
  }

  // ---------------------------------------------------------------------------
  // Retained energy

  /** `eigs[0] + ... + eigs[k-1]`. */
  function PrefixSum(eigs: seq<real>, k: nat): real
    requires k <= |eigs|
  {
    if k == 0 then 0.0 else PrefixSum(eigs, k - 1) + eigs[k - 1]
  }

  /** `a / b` in floating point, with the IEEE results of a division by zero. */
  function Divide(a: real, b: real): (r: FloatValue)
    ensures b != 0.0 ==> r == Finite(a / b)
    ensures b == 0.0 ==> (r == PositiveInfinity <==> a > 0.0) && (r == NegativeInfinity <==> a < 0.0)
    ensures b == 0.0 ==> (r == NotANumber <==> a == 0.0)
  {
    if b != 0.0 then Finite(a / b)
    else if a > 0.0 then PositiveInfinity
    else if a < 0.0 then NegativeInfinity
    else NotANumber
  }

  /** `cumsum(eigs) / sum(eigs)`: entry `i` is the share of the total energy
      held by the first `i + 1` eigenvalues. */
  function RetainedEnergy(eigs: seq<real>): (r: seq<FloatValue>)
    ensures |r| == |eigs|
  {
    seq(|eigs|, i requires 0 <= i < |eigs| => Divide(PrefixSum(eigs, i + 1), PrefixSum(eigs, |eigs|)))
  }

  /** With a non-zero total, the last entry is exactly 1. */
  lemma {:induction false} RetainedEnergyLastIsOne(eigs: seq<real>)
    requires |eigs| > 0 && PrefixSum(eigs, |eigs|) != 0.0
    ensures RetainedEnergy(eigs)[|eigs| - 1] == Finite(1.0)
  {
    var total := PrefixSum(eigs, |eigs|);
    assert RetainedEnergy(eigs)[|eigs| - 1] == Divide(total, total);
    DivideSelf(total);
  }

  lemma {:induction false} DivideSelf(t: real)
    requires t != 0.0
    ensures t / t == 1.0
  {
    assert (t / t) * t == 1.0 * t;
  }

  lemma {:induction false} DivideMonotone(a: real, b: real, t: real)
    requires 0.0 < t && a <= b
    ensures a / t <= b / t
  {
    var inv := 1.0 / t;
    assert 0.0 < inv;
    assert a * inv <= b * inv;
  }

  lemma {:induction false} PrefixSumMonotone(eigs: seq<real>, j: nat, k: nat)
    requires j <= k <= |eigs|
    requires forall i :: 0 <= i < |eigs| ==> eigs[i] >= 0.0
    ensures 0.0 <= PrefixSum(eigs, j) <= PrefixSum(eigs, k)
    decreases k
  {
    if j < k {
      PrefixSumMonotone(eigs, j, k - 1);
    } else if j > 0 {
      PrefixSumMonotone(eigs, j - 1, j - 1);
    }
  }

  /** With non-negative eigenvalues and a positive total, the retained
      energies are finite, lie in `[0, 1]` and never decrease. */
  lemma {:induction false} RetainedEnergyMonotone(eigs: seq<real>, i: nat, j: nat)
    requires i <= j < |eigs|
    requires forall k :: 0 <= k < |eigs| ==> eigs[k] >= 0.0
    requires PrefixSum(eigs, |eigs|) != 0.0
    ensures RetainedEnergy(eigs)[i].Finite? && RetainedEnergy(eigs)[j].Finite?
    ensures 0.0 <= RetainedEnergy(eigs)[i].value <= RetainedEnergy(eigs)[j].value <= 1.0
  {
    var total := PrefixSum(eigs, |eigs|);
    PrefixSumMonotone(eigs, i + 1, j + 1);
    PrefixSumMonotone(eigs, j + 1, |eigs|);
    var a := PrefixSum(eigs, i + 1);
    var b := PrefixSum(eigs, j + 1);
    assert RetainedEnergy(eigs)[i] == Finite(a / total);
    assert RetainedEnergy(eigs)[j] == Finite(b / total);
    SharesOrdered(a, b, total);
  }

  lemma {:induction false} SharesOrdered(a: real, b: real, t: real)
    requires 0.0 <= a <= b <= t && t != 0.0
    ensures 0.0 <= a / t <= b / t <= 1.0
  {
    DivideMonotone(0.0, a, t);
    DivideMonotone(a, b, t);
    DivideMonotone(b, t, t);
    DivideSelf(t);
  }

  /** With a zero total (all-zero eigenvalues, say) numpy divides by zero:
      an empty prefix sum reads as not-a-number. */
  lemma {:induction false} RetainedEnergyZeroTotal(eigs: seq<real>)
    requires |eigs| > 0 && forall k :: 0 <= k < |eigs| ==> eigs[k] == 0.0
    ensures forall i :: 0 <= i < |eigs| ==> RetainedEnergy(eigs)[i] == NotANumber
  {
    PrefixSumOfZeros(eigs, |eigs|);
    forall i | 0 <= i < |eigs| ensures RetainedEnergy(eigs)[i] == NotANumber {
      PrefixSumOfZeros(eigs, i + 1);
    }
  }

  lemma {:induction false} PrefixSumOfZeros(eigs: seq<real>, k: nat)
    requires k <= |eigs| && forall i :: 0 <= i < |eigs| ==> eigs[i] == 0.0
    ensures PrefixSum(eigs, k) == 0.0
  {
    if k > 0 {
      PrefixSumOfZeros(eigs, k - 1);
    }
  }

  /** The energy lines for the eigenvalues `eigs`, in ascending index order. */
  function EnergyLines(eigs: seq<real>): (lines: seq<EnergyLine>)
    ensures |lines| == |eigs| && forall i :: 0 <= i < |eigs| ==> lines[i] == EnergyLine(i, RetainedEnergy(eigs)[i])
  {
    var energy := RetainedEnergy(eigs);
    seq(|eigs|, i requires 0 <= i < |eigs| => EnergyLine(i, energy[i]))
  }

  /** The real parts of the first `count` eigenvalues, which is what the
      energy export reads (it ignores the imaginary parts), or the error at
      the first eigenvalue that cannot be read. */
  function RealParts(solver: EigenSolver, count: nat): (r: Result<seq<real>, PodError>)
    ensures r.Success? <==> count == 0 || (solver.Solved? && count <= |solver.pairs|)
    ensures r.Success? ==>
      && |r.value| == count
      && forall i :: 0 <= i < count ==> r.value[i] == solver.pairs[i].eigenvalueReal
    ensures r.Failure? ==>
      r.error == EigenvalueUnavailable(if solver.Solved? then |solver.pairs| else 0)
  {
    if count == 0 then Success([])
    else if !(solver.Solved? && count <= |solver.pairs|) then
      Failure(EigenvalueUnavailable(if solver.Solved? then |solver.pairs| else 0))
    else Success(seq(count, i requires 0 <= i < count => solver.pairs[i].eigenvalueReal))
  }

  // ---------------------------------------------------------------------------
  // The compressor

  class ProperOrthogonalDecompositionBase {
    /** The optional inner-product matrix. */
    const x: Option<Matrix>
    const snapshotsMatrix: FunctionsList
    var eigensolver: EigenSolver

    predicate Valid()
      reads this, snapshotsMatrix
    {
      snapshotsMatrix.Valid() && InnerProductFits(x, snapshotsMatrix.space.dim)
    }

    constructor(space: Space, x: Option<Matrix>)
      requires InnerProductFits(x, space.dim)
      ensures Valid() && fresh(snapshotsMatrix)
      ensures this.x == x && snapshotsMatrix.space == space && snapshotsMatrix.functions == []
      ensures eigensolver == Fresh
    {
      this.x := x;
      snapshotsMatrix := new FunctionsList(space);
      eigensolver := Fresh;
    }

    /** Empties the snapshot container and installs a fresh eigen-solver. */
    method Clear()
      requires Valid()
      modifies this, snapshotsMatrix
      ensures Valid() && snapshotsMatrix.functions == [] && eigensolver == Fresh
    {
      snapshotsMatrix.Clear();
      eigensolver := Fresh;
    }

    /** The correlation matrix `transpose(S)*X*S` (or `transpose(S)*S`): one
        row and one column per snapshot. */
    function Correlation(): (c: Matrix)
      requires Valid()
      reads this, snapshotsMatrix
      ensures IsSquare(c, snapshotsMatrix.Length())
    {
      Gram(snapshotsMatrix.functions, x, snapshotsMatrix.space.dim)
    }

    /** Builds the correlation matrix, solves it and returns the first `nmax`
        normalised basis functions in a fresh container, in eigen-index order.
        The stored eigen-solver is replaced only once the basis is complete. */
    method Apply(nmax: nat, solve: Matrix -> seq<EigenPair>, sqrt: real -> real) returns (z: FunctionsList, count: nat)
      requires Valid() && IsSqrt(sqrt)
      requires Normalizable(snapshotsMatrix.functions, x, snapshotsMatrix.space.dim, solve(Correlation()), nmax)
      modifies this
      ensures Valid() && unchanged(snapshotsMatrix)
      ensures eigensolver == Solved(Correlation(), solve(Correlation()))
      ensures fresh(z) && z.Valid() && z.space == snapshotsMatrix.space && count == nmax
      ensures |z.functions| == nmax
      ensures forall i :: 0 <= i < nmax ==>
        z.functions[i] == BasisFunction(snapshotsMatrix.functions, x, snapshotsMatrix.space.dim,
                                        eigensolver.pairs[i].eigenvector, sqrt)
      ensures forall i :: 0 <= i < nmax ==> Inner(x, z.functions[i], z.functions[i]) == 1.0
    {
      var snapshots := snapshotsMatrix.functions;
      var n := snapshotsMatrix.space.dim;
      var correlation := Correlation();
      var pairs := solve(correlation);
      z := new FunctionsList(snapshotsMatrix.space);
      for i := 0 to nmax
        invariant z.Valid() && z.space == snapshotsMatrix.space && fresh(z)
        invariant |z.functions| == i
        invariant forall k :: 0 <= k < i ==> z.functions[k] == BasisFunction(snapshots, x, n, pairs[k].eigenvector, sqrt)
        invariant forall k :: 0 <= k < i ==> Inner(x, z.functions[k], z.functions[k]) == 1.0
        invariant eigensolver == old(eigensolver)
      {
        var v := pairs[i].eigenvector;
        var b := LinComb(snapshots, v, n);
        var norm := sqrt(Inner(x, b, b));
        b := Scale(1.0 / norm, b);
        BasisFunctionUnitNorm(snapshots, x, n, v, sqrt);
        z.Enrich(b);
      }
      eigensolver := Solved(correlation, pairs);
      count := nmax;
    }

    /** The lines `lambda_i = value` printed for `i = 0..N-1`, with `N` the
        number of snapshots when not given. */
    method PrintEigenvalues(limit: Option<nat>) returns (r: Result<seq<EigenvalueLine>, PodError>)
      ensures r == EigenvalueLines(eigensolver, if limit.Some? then limit.value else snapshotsMatrix.Length())
    {
      var count := if limit.Some? then limit.value else snapshotsMatrix.Length();
      r := ReadEigenvalues(count);
    }

    /** The eigenvalue file: one line `"i value"` per snapshot, on the I/O
        process only. */
    method SaveEigenvaluesFile(isIoProcess: bool) returns (r: Result<Export<EigenvalueLine>, PodError>)
      ensures !isIoProcess ==> r == Success(NotWritten)
      ensures isIoProcess ==> match EigenvalueLines(eigensolver, snapshotsMatrix.Length())
        case Success(lines) => r == Success(Written(lines))
        case Failure(e) => r == Failure(e)
    {
      if !isIoProcess {
        return Success(NotWritten);
      }
      var lines := ReadEigenvalues(snapshotsMatrix.Length());
      match lines
      case Success(ls) => r := Success(Written(ls));
      case Failure(e) => r := Failure(e);
    }

    /** Reads eigenvalues `0..count-1` in order, checking each imaginary part. */
    method ReadEigenvalues(count: nat) returns (r: Result<seq<EigenvalueLine>, PodError>)
      ensures r == EigenvalueLines(eigensolver, count)
    {
      var lines: seq<EigenvalueLine> := [];
      for i := 0 to count
        invariant EigenvalueLines(eigensolver, i) == Success(lines)
      {
        if !(eigensolver.Solved? && i < |eigensolver.pairs|) {
          EigenvalueLinesFailureStays(eigensolver, i + 1, count);
          return Failure(EigenvalueUnavailable(i));
        }
        var pair := eigensolver.pairs[i];
        if !IsCloseToZero(pair.eigenvalueImag) {
          EigenvalueLinesFailureStays(eigensolver, i + 1, count);
          return Failure(ImaginaryPartNotZero(i));
        }
        lines := lines + [EigenvalueLine(i, pair.eigenvalueReal)];
      }
      return Success(lines);
    }

    /** The retained-energy file: the real parts of the eigenvalues are read
        into an array, then line `i` holds their cumulative sum up to `i`
        over their total. */
    method SaveRetainedEnergyFile(isIoProcess: bool) returns (r: Result<Export<EnergyLine>, PodError>)
      ensures !isIoProcess ==> r == Success(NotWritten)
      ensures isIoProcess ==> match RealParts(eigensolver, snapshotsMatrix.Length())
        case Success(eigs) => r == Success(Written(EnergyLines(eigs)))
        case Failure(e) => r == Failure(e)
    {
      if !isIoProcess {
        return Success(NotWritten);
      }
      var count := snapshotsMatrix.Length();
      var eigs := new real[count];
      for i := 0 to count
        invariant RealParts(eigensolver, i) == Success(eigs[..i])
      {
        if !(eigensolver.Solved? && i < |eigensolver.pairs|) {
          return Failure(EigenvalueUnavailable(i));
        }
        eigs[i] := eigensolver.pairs[i].eigenvalueReal;
        assert eigs[..i + 1] == eigs[..i] + [eigs[i]];
        var next := RealParts(eigensolver, i + 1);
        assert next.Success?;
        assert forall k :: 0 <= k < i + 1 ==> next.value[k] == eigs[..i + 1][k];
        assert next.value == eigs[..i + 1];
        assert next == Success(eigs[..i + 1]);
      }
      assert eigs[..] == eigs[..count];
      return Success(Written(EnergyLines(eigs[..])));
    }
  }
}
