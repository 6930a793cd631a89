/** The NumPy-backend `product` that assembles an online affine expansion:
    the weighted sum `sum_q theta_q * A_q` of an order-1 expansion, or the
    bilinear form `transpose(theta) * M * theta2` of an order-2 expansion,
    with the dimension tags and the component-name maps of the expansion
    copied onto the result, wrapped in a `ProductOutput`. */
module AffineProduct {
  import opened Wrappers
  import opened LinearAlgebra

  /** One online operator of an expansion. A matrix carries its tags `M`
      and `N`, a vector its tag `N`; the entries of a matrix are flattened. */
  datatype OnlineOperator =
    | MatrixOperator(m: nat, n: nat, entries: Vector)
    | VectorOperator(n: nat, entries: Vector)
    | FunctionOperator(entries: Vector)
    | FloatOperator(value: real)
  {
    /** The data the arithmetic works on; a float is a single entry. */
    function Data(): (d: Vector)
      ensures FloatOperator? ==> d == [value]
      ensures !FloatOperator? ==> d == entries
    {
      if FloatOperator? then [value] else entries
    }

    /** Same kind of operator with the same tags and number of entries. */
    predicate SameShape(other: OnlineOperator) {
      match (this, other)
      case (MatrixOperator(m, n, e), MatrixOperator(m', n', e')) => m == m' && n == n' && |e| == |e'|
      case (VectorOperator(n, e), VectorOperator(n', e')) => n == n' && |e| == |e'|
      case (FunctionOperator(e), FunctionOperator(e')) => |e| == |e'|
      case (FloatOperator(_), FloatOperator(_)) => true
      case _ => false
    }
  }

  /** The three component-name dictionaries of an expansion (or of an
      operator), `None` when not set. */
  datatype ComponentMaps = ComponentMaps(
    basisComponentIndexToComponentName: Option<map<nat, string>>,
    componentNameToBasisComponentIndex: Option<map<string, nat>>,
    componentNameToBasisComponentLength: Option<map<string, nat>>)
  {
    /** The three dictionaries are all set or all unset. */
    predicate Consistent() {
      && (basisComponentIndexToComponentName.None? == componentNameToBasisComponentIndex.None?)
      && (componentNameToBasisComponentIndex.None? == componentNameToBasisComponentLength.None?)
    }
  }

  const NoComponentMaps := ComponentMaps(None, None, None)

  /** The content of an affine expansion storage, by its order. */
  datatype Content =
    | Order1(operators: seq<OnlineOperator>)
    | Order2(grid: seq<seq<OnlineOperator>>)
    | OtherOrder(order: nat)

  datatype AffineExpansionStorage = AffineExpansionStorage(content: Content, maps: ComponentMaps)
  {
    function Order(): nat {
      match content
      case Order1(_) => 1
      case Order2(_) => 2
      case OtherOrder(order) => order
    }

    /** What a storage guarantees: every operator has the shape of the first
        one, an order-2 grid is rectangular, and an order given by number is
        neither 1 nor 2. */
    predicate Valid() {
      match content
      case Order1(ops) => forall i :: 0 <= i < |ops| ==> ops[i].SameShape(ops[0])
      case Order2(grid) =>
        forall i :: 0 <= i < |grid| ==>
          |grid[i]| == |grid[0]| && forall j :: 0 <= j < |grid[i]| ==> grid[i][j].SameShape(grid[0][0])
      case OtherOrder(order) => order != 1 && order != 2
    }

    /** The part of the behaviour the model covers: an order-2 grid does not
        hold matrices or vectors. */
    predicate Supported() {
      content.Order2? && |content.grid| > 0 && |content.grid[0]| > 0 ==>
        !content.grid[0][0].MatrixOperator? && !content.grid[0][0].VectorOperator?
    }
  }

  /** The exceptions `product` raises, in the order it checks for them. */
  datatype ProductError =
    | InvalidOrder               // the order is neither 1 nor 2
    | EmptyStorage               // there is no first operator to index
    | InvalidFirstOperator       // the first operator has a kind the order does not accept
    | UnexpectedThetas2          // order 1 given a second set of coefficients
    | LengthMismatch             // order 1 with as many coefficients as operators not met
    | MissingThetas2             // order 2 without a second set of coefficients
    | ShapeMismatch              // the matrix product of order 2 does not conform
    | FunctionNotImplemented     // order 1 over functions
    | InconsistentComponentMaps  // some component dictionaries set, others not
    | AttributeOnFloat           // component dictionaries written onto a float result

  /** The state `product` leaves on an order-1 result: its entries, its tags
      and its component dictionaries. */
  datatype OutputState = OutputState(entries: Vector, m: Option<nat>, n: Option<nat>, maps: ComponentMaps)

  datatype ProductValue = OperatorValue(state: OutputState) | ScalarValue(value: real)

  function OperatorsData(ops: seq<OnlineOperator>): (ds: seq<Vector>)
    ensures |ds| == |ops| && forall i :: 0 <= i < |ops| ==> ds[i] == ops[i].Data()
  {
    seq(|ops|, i requires 0 <= i < |ops| => ops[i].Data())
  }

  predicate AllFloats(grid: seq<seq<OnlineOperator>>) {
    forall i, j :: 0 <= i < |grid| && 0 <= j < |grid[i]| ==> grid[i][j].FloatOperator?
  }

  /** The values of an order-2 grid of floats, `operators.as_matrix()`. */
  function Values(grid: seq<seq<OnlineOperator>>): (g: Matrix)
    requires AllFloats(grid)
    ensures |g| == |grid| && forall i :: 0 <= i < |grid| ==> |g[i]| == |grid[i]|
    ensures forall i, j :: 0 <= i < |grid| && 0 <= j < |grid[i]| ==> g[i][j] == grid[i][j].value
  {
    seq(|grid|, i requires 0 <= i < |grid| =>
      seq(|grid[i]|, j requires 0 <= j < |grid[i]| => grid[i][j].value))
  }

  /** What `product(thetas, operators, thetas2)` returns or raises. */
  function ProductSpec(thetas: Vector, operators: AffineExpansionStorage, thetas2: Option<Vector>): (r: Result<ProductValue, ProductError>)
    requires operators.Valid() && operators.Supported()
    ensures r.Success? ==> operators.maps.Consistent()
    ensures r.Success? && r.value.OperatorValue? ==>
      && operators.content.Order1? && thetas2.None? && |operators.content.operators| == |thetas| > 0
      && |r.value.state.entries| == |operators.content.operators[0].Data()|
    ensures r.Success? && r.value.ScalarValue? ==> operators.content.Order2? && thetas2.Some?
  {
    match operators.content
    case OtherOrder(_) => Failure(InvalidOrder)
    case Order1(ops) =>
      if |ops| == 0 then Failure(EmptyStorage)
      else if ops[0].FloatOperator? then Failure(InvalidFirstOperator)
      else if thetas2.Some? then Failure(UnexpectedThetas2)
      else if |thetas| != |ops| then Failure(LengthMismatch)
      else if ops[0].FunctionOperator? then Failure(FunctionNotImplemented)
      else if !operators.maps.Consistent() then Failure(InconsistentComponentMaps)
      else
        var sum := LinComb(OperatorsData(ops), thetas, |ops[0].Data()|);
        var m := if ops[0].MatrixOperator? then Some(ops[0].m) else None;
        Success(OperatorValue(OutputState(sum, m, Some(ops[0].n), operators.maps)))
    case Order2(grid) =>
      if |grid| == 0 || |grid[0]| == 0 then Failure(EmptyStorage)
      else if grid[0][0].FunctionOperator? then Failure(InvalidFirstOperator)
      else if thetas2.None? then Failure(MissingThetas2)
      else if |thetas| != |grid| || |grid[0]| != |thetas2.value| then Failure(ShapeMismatch)
      else if !operators.maps.Consistent() then Failure(InconsistentComponentMaps)
      else if operators.maps.basisComponentIndexToComponentName.Some? then Failure(AttributeOnFloat)
      else Success(ScalarValue(Dot(thetas, MatVec(Values(grid), thetas2.value))))
  }

  /** An order-1 result: the sum object that the tags and the component
      dictionaries are written onto. */
  class OnlineOutput {
    var entries: Vector
    /** The tags `M` and `N`. */
    var m: Option<nat>
    var n: Option<nat>
    var maps: ComponentMaps

    /** A fresh sum carries no tags and no dictionaries. */
    constructor(entries: Vector)
      ensures this.entries == entries && m == None && n == None && maps == NoComponentMaps
    {
      this.entries := entries;
      m := None;
      n := None;
      maps := NoComponentMaps;
    }

    function State(): OutputState
      reads this
    {
      OutputState(entries, m, n, maps)
    }
  }

  /** An order-1 result object or an order-2 float. */
  datatype ProductResult = OperatorResult(output: OnlineOutput) | ScalarResult(value: real)

  /** Marks the value returned by `product` for the `sum` that consumes it. */
  datatype ProductOutput = ProductOutput(sumProductReturnValue: ProductResult)

  /** `product(thetas, operators, thetas2)`: the order-1 sum is accumulated
      operator by operator from zero; the order-2 form is a single matrix
      expression. */
  method Product(thetas: Vector, operators: AffineExpansionStorage, thetas2: Option<Vector>)
    returns (r: Result<ProductOutput, ProductError>)
    requires operators.Valid() && operators.Supported()
    ensures match ProductSpec(thetas, operators, thetas2)
            case Failure(e) => r == Failure(e)
            case Success(ScalarValue(v)) => r == Success(ProductOutput(ScalarResult(v)))
            case Success(OperatorValue(s)) =>
              && r.Success? && r.value.sumProductReturnValue.OperatorResult?
              && fresh(r.value.sumProductReturnValue.output)
              && r.value.sumProductReturnValue.output.State() == s
  {
    match operators.content
    case OtherOrder(_) =>
      r := Failure(InvalidOrder);
    case Order1(_) =>
      r := ProductOrder1(thetas, operators, thetas2);
    case Order2(_) =>
      r := ProductOrder2(thetas, operators, thetas2);
  }

  /** The order-1 branch: a sum of weighted operators, then the tags of the
      first operator and the component dictionaries written onto it. */
  method ProductOrder1(thetas: Vector, operators: AffineExpansionStorage, thetas2: Option<Vector>)
    returns (r: Result<ProductOutput, ProductError>)
    requires operators.Valid() && operators.Supported() && operators.content.Order1?
    ensures match ProductSpec(thetas, operators, thetas2)
            case Failure(e) => r == Failure(e)
            case Success(ScalarValue(v)) => r == Success(ProductOutput(ScalarResult(v)))
            case Success(OperatorValue(s)) =>
              && r.Success? && r.value.sumProductReturnValue.OperatorResult?
              && fresh(r.value.sumProductReturnValue.output)
              && r.value.sumProductReturnValue.output.State() == s
  {
    var ops: seq<OnlineOperator> := operators.content.operators;
    if |ops| == 0 {
      return Failure(EmptyStorage);
    }
    var first := ops[0];
    if first.FloatOperator? {
      return Failure(InvalidFirstOperator);
    }
    if thetas2.Some? {
      return Failure(UnexpectedThetas2);
    }
    if |thetas| != |ops| {
      return Failure(LengthMismatch);
    }
    var data := OperatorsData(ops);
    var d := |first.Data()|;
    assert HasDim(data, d) by {
      forall i | 0 <= i < |ops| ensures |data[i]| == d {
        assert ops[i].SameShape(ops[0]);
      }
    }
    var sum := Zeros(d);
    for i := 0 to |ops|
      invariant sum == LinCombPrefix(data, thetas, d, i)
    {
      sum := Add(sum, Scale(thetas[i], ops[i].Data()));
    }
    var output := new OnlineOutput(sum);
    match first {
      case MatrixOperator(m, n, _) =>
        output.m := Some(m);
        output.n := Some(n);
      case VectorOperator(n, _) =>
        output.n := Some(n);
      case FunctionOperator(_) =>
        return Failure(FunctionNotImplemented);
    }
    if !operators.maps.Consistent() {
      return Failure(InconsistentComponentMaps);
    }
    if operators.maps.basisComponentIndexToComponentName.Some? {
      output.maps := operators.maps;
    }
    return Success(ProductOutput(OperatorResult(output)));
  }

  /** The order-2 branch: `asmatrix(thetas) * operators.as_matrix() *
      asmatrix(thetas2).transpose()`, a float that takes no attributes. */
  method ProductOrder2(thetas: Vector, operators: AffineExpansionStorage, thetas2: Option<Vector>)
    returns (r: Result<ProductOutput, ProductError>)
    requires operators.Valid() && operators.Supported() && operators.content.Order2?
    ensures match ProductSpec(thetas, operators, thetas2)
            case Failure(e) => r == Failure(e)
            case Success(ScalarValue(v)) => r == Success(ProductOutput(ScalarResult(v)))
            case Success(OperatorValue(_)) => false
  {
    var grid: seq<seq<OnlineOperator>> := operators.content.grid;
    if |grid| == 0 || |grid[0]| == 0 {
      return Failure(EmptyStorage);
    }
    if grid[0][0].FunctionOperator? {
      return Failure(InvalidFirstOperator);
    }
    if thetas2.None? {
      return Failure(MissingThetas2);
    }
    if |thetas| != |grid| || |grid[0]| != |thetas2.value| {
      return Failure(ShapeMismatch);
    }
    var output := Dot(thetas, MatVec(Values(grid), thetas2.value));
    if !operators.maps.Consistent() {
      return Failure(InconsistentComponentMaps);
    }
    if operators.maps.basisComponentIndexToComponentName.Some? {
      return Failure(AttributeOnFloat);
    }
    return Success(ProductOutput(ScalarResult(output)));
  }

  // ---------------------------------------------------------------------------
  // What the product computes

  /** Entry `k` of an order-1 sum is the `k`-th entry of the row vector
      `thetas * transpose(operators.as_matrix())`, the vectorised form of the
      accumulation. */
  lemma {:induction false} ProductOrder1Entries(thetas: Vector, operators: AffineExpansionStorage, k: nat)
    requires operators.Valid() && operators.Supported() && operators.content.Order1?
    requires ProductSpec(thetas, operators, None).Success?
    requires k < |ProductSpec(thetas, operators, None).value.state.entries|
    ensures ProductSpec(thetas, operators, None).value.OperatorValue?
    ensures var ops := operators.content.operators;
      && |ProductSpec(thetas, operators, None).value.state.entries| == |ops[0].entries|
      && ProductSpec(thetas, operators, None).value.state.entries[k]
         == Dot(thetas, Row(OperatorsData(ops), k, |ops[0].entries|))
  {
    var ops := operators.content.operators;
    LinCombAt(OperatorsData(ops), thetas, |ops[0].entries|, |ops|, k);
  }

  /** A single operator with weight one is returned as it is, with its own
      tags and the expansion's component dictionaries. */
  lemma {:induction false} ProductSingleOperator(op: OnlineOperator, maps: ComponentMaps)
    requires op.MatrixOperator? || op.VectorOperator?
    requires maps.Consistent()
    ensures var operators := AffineExpansionStorage(Order1([op]), maps);
      && operators.Valid() && operators.Supported()
      && ProductSpec([1.0], operators, None)
         == Success(OperatorValue(OutputState(op.entries, if op.MatrixOperator? then Some(op.m) else None, Some(op.n), maps)))
  {
    var operators := AffineExpansionStorage(Order1([op]), maps);
    assert [1.0] == Unit(1, 0);
    LinCombUnit([op.entries], |op.entries|, 0);
    assert OperatorsData([op]) == [op.entries];
  }

  /** `t * (row[0] * t2[0] + ... + row[l-1] * t2[l-1])`, term by term. */
  function RowSum(t: real, row: Vector, t2: Vector, l: nat): real
    requires l <= |row| == |t2|
  {
    if l == 0 then 0.0 else RowSum(t, row, t2, l - 1) + t * row[l - 1] * t2[l - 1]
  }

  /** The double loop `output += thetas[i] * operators[i, j] * thetas2[j]`
      over the first `k` rows. */
  function DoubleSum(thetas: Vector, g: Matrix, thetas2: Vector, k: nat): real
    requires k <= |thetas| == |g| && HasDim(g, |thetas2|)
  {
    if k == 0 then 0.0 else DoubleSum(thetas, g, thetas2, k - 1) + RowSum(thetas[k - 1], g[k - 1], thetas2, |thetas2|)
  }

  lemma {:induction false} RowSumFactor(t: real, row: Vector, t2: Vector, l: nat)
    requires l <= |row| == |t2|
    ensures RowSum(t, row, t2, l) == t * DotPrefix(row, t2, l)
  {
    if l > 0 {
      RowSumFactor(t, row, t2, l - 1);
      var p := DotPrefix(row, t2, l - 1);
      assert t * (p + row[l - 1] * t2[l - 1]) == t * p + t * row[l - 1] * t2[l - 1];
    }
  }

  lemma {:induction false} DoubleSumIsBilinear(thetas: Vector, g: Matrix, thetas2: Vector, k: nat)
    requires k <= |thetas| == |g| && HasDim(g, |thetas2|)
    ensures DoubleSum(thetas, g, thetas2, k) == DotPrefix(thetas, MatVec(g, thetas2), k)
  {
    if k > 0 {
      DoubleSumIsBilinear(thetas, g, thetas2, k - 1);
      RowSumFactor(thetas[k - 1], g[k - 1], thetas2, |thetas2|);
    }
  }

  /** The order-2 result equals the double loop over the grid that the
      vectorised form replaced. */
  lemma {:induction false} ProductOrder2DoubleSum(thetas: Vector, operators: AffineExpansionStorage, thetas2: Vector)
    requires operators.Valid() && operators.Supported() && operators.content.Order2?
    requires ProductSpec(thetas, operators, Some(thetas2)).Success?
    ensures var grid := operators.content.grid;
      && AllFloats(grid) && |grid| == |thetas| && HasDim(Values(grid), |thetas2|)
      && ProductSpec(thetas, operators, Some(thetas2))
         == Success(ScalarValue(DoubleSum(thetas, Values(grid), thetas2, |thetas|)))
  {
    var grid := operators.content.grid;
    DoubleSumIsBilinear(thetas, Values(grid), thetas2, |thetas|);
  }

  /** When `product` succeeds: an order-1 result carries the sum, both tags
      of a first matrix or the single tag of a first vector, and exactly the
      expansion's dictionaries; an order-2 result is a float. Every failure
      is one of the checks, in the order they run. */
  lemma {:induction false} ProductOutcome(thetas: Vector, operators: AffineExpansionStorage, thetas2: Option<Vector>)
    requires operators.Valid() && operators.Supported()
    ensures var r := ProductSpec(thetas, operators, thetas2);
      && (r == Failure(InvalidOrder) <==> operators.Order() != 1 && operators.Order() != 2)
      && (r.Success? && r.value.OperatorValue? <==>
            && operators.content.Order1?
            && |operators.content.operators| == |thetas| > 0
            && (operators.content.operators[0].MatrixOperator? || operators.content.operators[0].VectorOperator?)
            && thetas2.None? && operators.maps.Consistent())
      && (r.Success? && r.value.ScalarValue? <==>
            && operators.content.Order2?
            && |operators.content.grid| == |thetas| > 0
            && |operators.content.grid[0]| > 0 && operators.content.grid[0][0].FloatOperator?
            && thetas2.Some? && |operators.content.grid[0]| == |thetas2.value|
            && operators.maps == NoComponentMaps)
      && (r.Success? && r.value.OperatorValue? ==>
            var first := operators.content.operators[0];
            && r.value.state.m == (if first.MatrixOperator? then Some(first.m) else None)
            && r.value.state.n == Some(first.n)
            && r.value.state.maps == operators.maps)
  {
  }
}
