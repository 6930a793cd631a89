/** The list of finite-element functions that backs a snapshot matrix or a
    reduced basis, and its product with a dense online coefficient matrix.
    A function is represented by its vector of degrees of freedom. */
module FunctionsLists {
  import opened Wrappers
  import opened LinearAlgebra

  /** The space a list is built on: a finite-element `FunctionSpace` of the
      given dimension, or some other space (a reduced space, say). */
  datatype Space = FunctionSpace(dim: nat) | OtherSpace(dim: nat)

  /** A list of functions on one space, enriched one function at a time. */
  class FunctionsList {
    const space: Space
    var functions: seq<Vector>

    /** Every stored function lives in `space`. */
    predicate Valid()
      reads this
    {
      HasDim(functions, space.dim)
    }

    constructor(space: Space)
      ensures Valid() && this.space == space && functions == []
    {
      this.space := space;
      functions := [];
    }

    function Length(): (n: nat)
      reads this
      ensures n == |functions|
    {
      |functions|
    }

    /** Appends `f` at the end of the list. */
    method Enrich(f: Vector)
      requires Valid() && |f| == space.dim
      modifies this
      ensures Valid() && functions == old(functions) + [f]
    {
      functions := functions + [f];
    }

    /** Removes every function. */
    method Clear()
      requires Valid()
      modifies this
      ensures Valid() && functions == []
    {
      functions := [];
    }
  }

  /** A dense online matrix with its numpy shape: `rows` by `cols`. */
  datatype OnlineMatrix = OnlineMatrix(rows: nat, cols: nat, entries: seq<seq<real>>)
  {
    predicate WellFormed() {
      |entries| == rows && HasDim(entries, cols)
    }

    /** Column `j`, the slice `[:, j]`. */
    function Column(j: nat): (c: Vector)
      requires WellFormed() && j < cols
      ensures |c| == rows && forall i :: 0 <= i < rows ==> c[i] == entries[i][j]
    {
      seq(rows, i requires 0 <= i < rows => entries[i][j])
    }
  }

  datatype MulError =
    | NotAFunctionSpace
    | ColumnLengthMismatch(column: nat)
    | EmptyFunctionsList

  /** The functions `S*M`: column `j` of `M` weights the functions of `fs`. */
  function MulSpec(fs: seq<Vector>, m: OnlineMatrix, n: nat): (out: seq<Vector>)
    requires HasDim(fs, n) && m.WellFormed() && m.rows == |fs|
    ensures |out| == m.cols && HasDim(out, n)
  {
    seq(m.cols, j requires 0 <= j < m.cols => LinComb(fs, m.Column(j), n))
  }

  /** The outcome `functions_list_mul_online_matrix` reaches on a list on
      `space` holding `fs`: the first failing check, or the product. */
  function MulOutcome(space: Space, fs: seq<Vector>, m: OnlineMatrix): (r: Result<seq<Vector>, MulError>)
    requires HasDim(fs, space.dim) && m.WellFormed()
    ensures r.Success? <==> space.FunctionSpace? && (m.cols == 0 || (m.rows == |fs| && |fs| > 0))
    ensures r.Success? ==> |r.value| == m.cols && HasDim(r.value, space.dim)
    ensures r.Success? && m.rows == |fs| ==> r.value == MulSpec(fs, m, space.dim)
  {
    if !space.FunctionSpace? then Failure(NotAFunctionSpace)
    else if m.cols == 0 then Success([])
    else if m.rows != |fs| then Failure(ColumnLengthMismatch(0))
    else if |fs| == 0 then Failure(EmptyFunctionsList)
    else Success(MulSpec(fs, m, space.dim))
  }

  /** `functions_list * online_matrix`: a fresh list on the same space whose
      `j`-th function is `sum_i M[i, j] * f_i`, accumulated in list order into
      a zeroed copy of the first function. */
  method FunctionsListMulOnlineMatrix(functionsList: FunctionsList, m: OnlineMatrix)
    returns (r: Result<FunctionsList, MulError>)
    requires functionsList.Valid() && m.WellFormed()
    ensures unchanged(functionsList)
    ensures r.Success? ==> fresh(r.value) && r.value.Valid() && r.value.space == functionsList.space
    ensures match MulOutcome(functionsList.space, functionsList.functions, m)
            case Success(out) => r.Success? && r.value.functions == out
            case Failure(e) => r == Failure(e)
  {
    var space := functionsList.space;
    if !space.FunctionSpace? {
      return Failure(NotAFunctionSpace);
    }
    var fs := functionsList.functions;
    var n := space.dim;
    var output := new FunctionsList(space);
    var j := 0;
    while j < m.cols
      invariant 0 <= j <= m.cols
      invariant output.Valid() && output.space == space
      invariant j > 0 ==> m.rows == |fs| && |fs| > 0
      invariant j > 0 ==> output.functions == MulSpec(fs, m, n)[..j]
      invariant j == 0 ==> output.functions == []
      invariant fs == functionsList.functions
    {
      if m.rows != |fs| {
        return Failure(ColumnLengthMismatch(j));
      }
      if |fs| == 0 {
        return Failure(EmptyFunctionsList);
      }
      var column := m.Column(j);
      var acc := Zeros(n);
      var i := 0;
      while i < |fs|
        invariant 0 <= i <= |fs|
        invariant acc == LinCombPrefix(fs, column, n, i)
      {
        acc := Add(acc, Scale(column[i], fs[i]));
        i := i + 1;
      }
      output.Enrich(acc);
      j := j + 1;
    }
    return Success(output);
  }

  // ---------------------------------------------------------------------------
  // What the product computes

  /** Entry `k` of the `j`-th output function is the matrix product entry
      `(S*M)[k, j] = sum_i S[k, i] * M[i, j]`, with `S` the matrix whose
      columns are the functions. */
  lemma {:induction false} MulSpecEntry(fs: seq<Vector>, m: OnlineMatrix, n: nat, j: nat, k: nat)
    requires HasDim(fs, n) && m.WellFormed() && m.rows == |fs| && j < m.cols && k < n
    ensures MulSpec(fs, m, n)[j][k] == Dot(m.Column(j), Row(fs, k, n))
  {
    LinCombAt(fs, m.Column(j), n, |fs|, k);
  }

  /** Multiplying by the identity matrix gives back the same functions. */
  lemma {:induction false} MulSpecIdentity(fs: seq<Vector>, n: nat)
    requires HasDim(fs, n)
    ensures MulSpec(fs, OnlineMatrix(|fs|, |fs|, Identity(|fs|)), n) == fs
  {
    var m := OnlineMatrix(|fs|, |fs|, Identity(|fs|));
    forall j | 0 <= j < |fs| ensures MulSpec(fs, m, n)[j] == fs[j] {
      assert m.Column(j) == Unit(|fs|, j);
      LinCombUnit(fs, n, j);
    }
  }
}
