/** A parametrized expression: C++ expression code written against the
    parameter tuple `mu` is rewritten to use one scalar `mu_p` per component,
    the expression receives one keyword `mu_p` per component, and the truth
    problem's `set_mu` / `set_time` are wrapped so that the expression follows
    the problem's parameter and time. */
module ParametrizedExpressions {
  import opened Wrappers
  import opened Strings

  // ---------------------------------------------------------------------------
  // Names and patterns

  /** The text `mu[p]` that indexes the parameter tuple in expression code. */
  function MuPattern(p: nat): (w: string)
    ensures |w| >= 4 && w[0] == 'm' && w[2] == '['
    ensures forall j :: 1 <= j < |w| ==> w[j] != 'm'
  {
    "mu[" + NatToString(p) + "]"
  }

  /** The scalar name `mu_p` that replaces it. */
  function MuName(p: nat): (w: string)
    ensures |w| >= 4 && w[0] == 'm' && w[2] == '_'
    ensures forall j :: 1 <= j < |w| ==> w[j] != 'm'
  {
    "mu_" + NatToString(p)
  }

  /** Distinct components get distinct names. */
  lemma {:induction false} MuNameInjective(p: nat, q: nat)
    requires p != q
    ensures MuName(p) != MuName(q)
  {
    NatToStringInjective(p, q);
    assert MuName(p)[3..] == NatToString(p);
    assert MuName(q)[3..] == NatToString(q);
  }

  /** `s.replace("mu[" + str(p) + "]", "mu_" + str(p))`. */
  function ReplaceMu(s: string, p: nat): string {
    Replace(s, MuPattern(p), MuName(p))
  }

  /** A name `mu_p` in front adds no occurrence of any `mu[q]`. */
  lemma {:induction false} MuNameAddsNoPattern(p: nat, q: nat, t: string)
    ensures Contains(MuName(p) + t, MuPattern(q)) == Contains(t, MuPattern(q))
  {
    var a := MuName(p) + t;
    var w := MuPattern(q);
    if |w| <= |a| {
      assert a[..|w|][2] == a[2] == '_';
    }
    assert !StartsWith(a, w);
    assert a[1..] == MuName(p)[1..] + t;
    ContainsSkip(MuName(p)[1..], t, w);
  }

  /** Replacing `mu[p]` leaves no `mu[p]` behind and creates no `mu[q]`. */
  lemma {:induction false} ReplaceMuLeavesNoPattern(s: string, p: nat, q: nat)
    requires q == p || !Contains(s, MuPattern(q))
    ensures !Contains(ReplaceMu(s, p), MuPattern(q))
    decreases |s|
  {
    var pat := MuPattern(p);
    var w := MuPattern(q);
    if |s| < |pat| {
      if q == p && Contains(s, w) {
        ContainsFits(s, w);
      }
    } else if s[..|pat|] == pat {
      var rest := s[|pat|..];
      if q != p {
        NotContainsSuffix(s, w, |pat|);
      }
      ReplaceMuLeavesNoPattern(rest, p, q);
      MuNameAddsNoPattern(p, q, ReplaceMu(rest, p));
    } else {
      var tail := ReplaceMu(s[1..], p);
      var out := ReplaceMu(s, p);
      assert out == [s[0]] + tail;
      if q != p {
        NotContainsSuffix(s, w, 1);
      }
      ReplaceMuLeavesNoPattern(s[1..], p, q);
      assert out[1..] == tail;
      if StartsWith(out, w) {
        assert StartsWith(tail, w[1..]) by {
          assert tail[..|w| - 1] == out[1..|w|];
        }
        ReplacePrefix(s[1..], pat, MuName(p), w[1..]);
        assert false;
      }
    }
  }

  // ---------------------------------------------------------------------------
  // Code rewriting

  /** Expression code: a string, a tuple (a vector of strings, or a matrix
      given as a tuple of tuples of strings), or any other object. */
  datatype Code = StringCode(text: string) | TupleCode(items: seq<Code>) | OtherCode

  datatype CodeError =
    | InvalidCodeType   // neither a string nor a tuple
    | EmptyTuple        // a tuple without a first item to inspect
    | RowNotTuple       // a row of a matrix that is not a tuple
    | EntryNotString    // an entry of a vector or of a matrix row that is not a string

  predicate AllStrings(items: seq<Code>) {
    forall i :: 0 <= i < |items| ==> items[i].StringCode?
  }

  /** A tuple of strings with `mu[p]` replaced in each. */
  function ReplaceEach(items: seq<Code>, p: nat): (out: seq<Code>)
    requires AllStrings(items)
    ensures |out| == |items| && AllStrings(out)
    ensures forall i :: 0 <= i < |items| ==> out[i] == StringCode(ReplaceMu(items[i].text, p))
  {
    seq(|items|, i requires 0 <= i < |items| => StringCode(ReplaceMu(items[i].text, p)))
  }

  /** The rows of a matrix rewritten in order; the first bad row decides the
      error. */
  function RewriteRows(rows: seq<Code>, p: nat): (r: Result<seq<Code>, CodeError>)
    ensures r.Success? ==> |r.value| == |rows|
    decreases |rows|
  {
    if |rows| == 0 then Success([])
    else if !rows[0].TupleCode? then Failure(RowNotTuple)
    else if !AllStrings(rows[0].items) then Failure(EntryNotString)
    else match RewriteRows(rows[1..], p)
      case Failure(e) => Failure(e)
      case Success(rest) => Success([TupleCode(ReplaceEach(rows[0].items, p))] + rest)
  }

  /** One pass of the rewriting loop, for component `p`. */
  function RewriteStep(code: Code, p: nat): (r: Result<Code, CodeError>)
    ensures code.StringCode? ==> r.Success? && r.value.StringCode?
    ensures r.Success? && code.TupleCode? ==> r.value.TupleCode? && |r.value.items| == |code.items|
    ensures r.Success? ==> !code.OtherCode?
  {
    match code
    case StringCode(s) => Success(StringCode(ReplaceMu(s, p)))
    case OtherCode => Failure(InvalidCodeType)
    case TupleCode(items) =>
      if |items| == 0 then Failure(EmptyTuple)
      else if items[0].TupleCode? then
        match RewriteRows(items, p)
        case Failure(e) => Failure(e)
        case Success(rows) => Success(TupleCode(rows))
      else if AllStrings(items) then Success(TupleCode(ReplaceEach(items, p)))
      else Failure(EntryNotString)
  }

  /** The passes for `p = 0 .. count - 1`, each on the output of the last. */
  function Rewrite(code: Code, count: nat): (r: Result<Code, CodeError>)
    ensures code.StringCode? ==> r.Success? && r.value.StringCode?
    ensures r.Success? && code.TupleCode? ==> r.value.TupleCode? && |r.value.items| == |code.items|
    ensures r.Success? && count > 0 ==> !code.OtherCode?
  {
    if count == 0 then Success(code)
    else match Rewrite(code, count - 1)
      case Failure(e) => Failure(e)
      case Success(c) => RewriteStep(c, count - 1)
  }

  /** Same nesting: strings for strings, tuples of the same length whose
      items have the same nesting, other objects for other objects. */
  predicate SameShape(a: Code, b: Code)
    decreases a
  {
    match (a, b)
    case (StringCode(_), StringCode(_)) => true
    case (OtherCode, OtherCode) => true
    case (TupleCode(xs), TupleCode(ys)) =>
      |xs| == |ys| && forall i :: 0 <= i < |xs| ==> SameShape(xs[i], ys[i])
    case _ => false
  }

  /** No string anywhere in the code contains `mu[q]`. */
  predicate FreeOf(code: Code, q: nat)
    decreases code
  {
    match code
    case StringCode(s) => !Contains(s, MuPattern(q))
    case OtherCode => true
    case TupleCode(items) => forall i :: 0 <= i < |items| ==> FreeOf(items[i], q)
  }

  lemma {:induction false} SameShapeReflexive(a: Code)
    ensures SameShape(a, a)
    decreases a
  {
    if a.TupleCode? {
      forall i | 0 <= i < |a.items| ensures SameShape(a.items[i], a.items[i]) {
        SameShapeReflexive(a.items[i]);
      }
    }
  }

  lemma {:induction false} SameShapeTransitive(a: Code, b: Code, c: Code)
    requires SameShape(a, b) && SameShape(b, c)
    ensures SameShape(a, c)
    decreases a
  {
    if a.TupleCode? {
      forall i | 0 <= i < |a.items| ensures SameShape(a.items[i], c.items[i]) {
        SameShapeTransitive(a.items[i], b.items[i], c.items[i]);
      }
    }
  }

  /** Rewritten rows keep their count and their entry counts, and are free
      of `mu[p]`; they also stay free of any `mu[q]` the input lacked. */
  lemma {:induction false} RewriteRowsProperties(rows: seq<Code>, p: nat, q: nat)
    requires RewriteRows(rows, p).Success?
    ensures var out := RewriteRows(rows, p).value;
      && |out| == |rows|
      && (forall i :: 0 <= i < |rows| ==> SameShape(out[i], rows[i]))
      && (forall i :: 0 <= i < |rows| ==> FreeOf(out[i], p))
      && (forall i :: 0 <= i < |rows| ==> FreeOf(rows[i], q) ==> FreeOf(out[i], q))
    decreases |rows|
  {
    if |rows| > 0 {
      RewriteRowsProperties(rows[1..], p, q);
      var out := RewriteRows(rows, p).value;
      var items := rows[0].items;
      ReplaceEachProperties(items, p, q);
      assert out[0] == TupleCode(ReplaceEach(items, p));
      forall i | 1 <= i < |rows|
        ensures SameShape(out[i], rows[i]) && FreeOf(out[i], p) && (FreeOf(rows[i], q) ==> FreeOf(out[i], q))
      {
        assert out[i] == RewriteRows(rows[1..], p).value[i - 1];
        assert rows[i] == rows[1..][i - 1];
      }
    }
  }

  lemma {:induction false} ReplaceEachProperties(items: seq<Code>, p: nat, q: nat)
    requires AllStrings(items)
    ensures SameShape(TupleCode(ReplaceEach(items, p)), TupleCode(items))
    ensures FreeOf(TupleCode(ReplaceEach(items, p)), p)
    ensures FreeOf(TupleCode(items), q) ==> FreeOf(TupleCode(ReplaceEach(items, p)), q)
  {
    var out := ReplaceEach(items, p);
    forall i | 0 <= i < |items| ensures FreeOf(out[i], p) {
      ReplaceMuLeavesNoPattern(items[i].text, p, p);
    }
    if FreeOf(TupleCode(items), q) {
      forall i | 0 <= i < |items| ensures FreeOf(out[i], q) {
        assert FreeOf(items[i], q);
        ReplaceMuLeavesNoPattern(items[i].text, p, q);
      }
    }
  }

  /** A pass keeps the shape of the code, removes every `mu[p]`, and brings
      back no `mu[q]` that an earlier pass removed. */
  lemma {:induction false} RewriteStepProperties(code: Code, p: nat, q: nat)
    requires RewriteStep(code, p).Success?
    ensures SameShape(RewriteStep(code, p).value, code)
    ensures FreeOf(RewriteStep(code, p).value, p)
    ensures FreeOf(code, q) ==> FreeOf(RewriteStep(code, p).value, q)
  {
    match code
    case StringCode(s) =>
      ReplaceMuLeavesNoPattern(s, p, p);
      if FreeOf(code, q) {
        ReplaceMuLeavesNoPattern(s, p, q);
      }
    case TupleCode(items) =>
      if items[0].TupleCode? {
        RewriteRowsProperties(items, p, q);
      } else {
        ReplaceEachProperties(items, p, q);
      }
  }

  /** Rows of the same shape are accepted or rejected alike. */
  lemma {:induction false} RewriteRowsByShape(rows: seq<Code>, rows': seq<Code>, p: nat, p': nat)
    requires |rows| == |rows'| && forall i :: 0 <= i < |rows| ==> SameShape(rows[i], rows'[i])
    ensures RewriteRows(rows, p).Success? == RewriteRows(rows', p').Success?
    ensures RewriteRows(rows, p).Failure? ==> RewriteRows(rows, p).error == RewriteRows(rows', p').error
    decreases |rows|
  {
    if |rows| > 0 {
      RewriteRowsByShape(rows[1..], rows'[1..], p, p');
      if rows[0].TupleCode? {
        assert AllStrings(rows[0].items) == AllStrings(rows'[0].items) by {
          if AllStrings(rows[0].items) {
            forall i | 0 <= i < |rows'[0].items| ensures rows'[0].items[i].StringCode? {
              assert SameShape(rows[0].items[i], rows'[0].items[i]);
            }
          }
          if AllStrings(rows'[0].items) {
            forall i | 0 <= i < |rows[0].items| ensures rows[0].items[i].StringCode? {
              assert SameShape(rows[0].items[i], rows'[0].items[i]);
            }
          }
        }
      }
    }
  }

  /** Whether a pass succeeds, and which error it raises, depends only on the
      shape of the code. */
  lemma {:induction false} RewriteStepByShape(code: Code, code': Code, p: nat, p': nat)
    requires SameShape(code, code')
    ensures RewriteStep(code, p).Success? == RewriteStep(code', p').Success?
    ensures RewriteStep(code, p).Failure? ==> RewriteStep(code, p).error == RewriteStep(code', p').error
  {
    if code.TupleCode? && |code.items| > 0 {
      var items := code.items;
      var items' := code'.items;
      assert SameShape(items[0], items'[0]);
      if items[0].TupleCode? {
        RewriteRowsByShape(items, items', p, p');
      } else {
        assert AllStrings(items) == AllStrings(items') by {
          if AllStrings(items) {
            forall i | 0 <= i < |items'| ensures items'[i].StringCode? {
              assert SameShape(items[i], items'[i]);
            }
          }
          if AllStrings(items') {
            forall i | 0 <= i < |items| ensures items[i].StringCode? {
              assert SameShape(items[i], items'[i]);
            }
          }
        }
      }
    }
  }

  /** Only the first pass can fail, and its error is the one reported; with
      no components any code is accepted as it is. */
  lemma {:induction false} RewriteOutcome(code: Code, count: nat)
    ensures Rewrite(code, count).Success? <==> count == 0 || RewriteStep(code, 0).Success?
    ensures Rewrite(code, count).Failure? ==> Rewrite(code, count).error == RewriteStep(code, 0).error
  {
    if count > 0 {
      RewriteOutcome(code, count - 1);
      var previous := Rewrite(code, count - 1);
      if previous.Success? {
        RewriteRemovesPatterns(code, count - 1);
        RewriteStepByShape(previous.value, code, count - 1, 0);
      } else {
        assert count - 1 > 0;
      }
    }
  }

  /** After the passes for `p < count`: the code keeps its shape and no
      string holds any `mu[q]` with `q < count`. */
  lemma {:induction false} RewriteRemovesPatterns(code: Code, count: nat)
    requires Rewrite(code, count).Success?
    ensures SameShape(Rewrite(code, count).value, code)
    ensures forall q :: 0 <= q < count ==> FreeOf(Rewrite(code, count).value, q)
  {
    if count == 0 {
      SameShapeReflexive(code);
    } else {
      RewriteRemovesPatterns(code, count - 1);
      var c := Rewrite(code, count - 1).value;
      assert Rewrite(code, count) == RewriteStep(c, count - 1);
      RewritePass(c, code, count - 1);
    }
  }

  /** The pass for `p` on code free of every `mu[q]` with `q < p`. */
  lemma {:induction false} RewritePass(c: Code, code: Code, p: nat)
    requires RewriteStep(c, p).Success? && SameShape(c, code)
    requires forall q :: 0 <= q < p ==> FreeOf(c, q)
    ensures SameShape(RewriteStep(c, p).value, code)
    ensures forall q :: 0 <= q <= p ==> FreeOf(RewriteStep(c, p).value, q)
  {
    var next := RewriteStep(c, p).value;
    RewriteStepProperties(c, p, 0);
    SameShapeTransitive(next, c, code);
    forall q | 0 <= q <= p ensures FreeOf(next, q) {
      RewriteStepProperties(c, p, q);
    }
  }

  /** A pass over code without `mu[p]` changes nothing. */
  lemma {:induction false} RewriteStepWithoutPattern(code: Code, p: nat)
    requires RewriteStep(code, p).Success? && FreeOf(code, p)
    ensures RewriteStep(code, p).value == code
  {
    match code
    case StringCode(s) =>
      ReplaceAbsent(s, MuPattern(p), MuName(p));
    case TupleCode(items) =>
      if items[0].TupleCode? {
        RewriteRowsWithoutPattern(items, p);
      } else {
        forall i | 0 <= i < |items| ensures ReplaceEach(items, p)[i] == items[i] {
          assert FreeOf(items[i], p);
          ReplaceAbsent(items[i].text, MuPattern(p), MuName(p));
        }
      }
  }

  lemma {:induction false} RewriteRowsWithoutPattern(rows: seq<Code>, p: nat)
    requires RewriteRows(rows, p).Success? && forall i :: 0 <= i < |rows| ==> FreeOf(rows[i], p)
    ensures RewriteRows(rows, p).value == rows
    decreases |rows|
  {
    if |rows| > 0 {
      RewriteRowsWithoutPattern(rows[1..], p);
      var items := rows[0].items;
      forall i | 0 <= i < |items| ensures ReplaceEach(items, p)[i] == items[i] {
        assert FreeOf(items[i], p);
        ReplaceAbsent(items[i].text, MuPattern(p), MuName(p));
      }
      assert ReplaceEach(items, p) == items;
      assert rows == [rows[0]] + rows[1..];
    }
  }

  // ---------------------------------------------------------------------------
  // Keyword arguments

  /** A keyword argument or attribute value, as far as the expression cares. */
  datatype Argument =
    | NoneArgument
    | NumberArgument(number: real)
    | ParametrizedConstant(constant: real)   // a constant expression and its value
    | OtherExpression
    | TupleArgument(elements: seq<Argument>)
    | OtherArgument

  datatype ExpressionError =
    | MissingMu                          // no `mu` keyword
    | MuIsNone
    | MuNotTuple
    | CodeRejected(codeError: CodeError)
    | InvalidMuComponent(index: nat)     // neither an expression nor a number
    | NotAParametrizedConstant(index: nat)

  /** The keywords `mu_0 .. mu_(k-1)` bound to `values[0 .. k-1]`. */
  function Indexed(values: seq<Argument>, k: nat): map<string, Argument>
    requires k <= |values|
  {
    if k == 0 then map[] else Indexed(values, k - 1)[MuName(k - 1) := values[k - 1]]
  }

  /** Exactly one keyword per component, `mu_p` bound to component `p`. */
  lemma {:induction false} IndexedLookup(values: seq<Argument>, k: nat)
    requires k <= |values|
    ensures Indexed(values, k).Keys == set p | 0 <= p < k :: MuName(p)
    ensures forall p :: 0 <= p < k ==> Indexed(values, k)[MuName(p)] == values[p]
  {
    if k > 0 {
      IndexedLookup(values, k - 1);
      forall p | 0 <= p < k - 1 ensures MuName(p) != MuName(k - 1) {
        MuNameInjective(p, k - 1);
      }
    }
  }

  /** The float that component `p` contributes: a number as it is, a
      parametrized constant as its value. */
  function ComponentValue(component: Argument, p: nat): Result<Argument, ExpressionError> {
    match component
    case NumberArgument(x) => Success(NumberArgument(x))
    case ParametrizedConstant(x) => Success(NumberArgument(x))
    case OtherExpression => Failure(NotAParametrizedConstant(p))
    case _ => Failure(InvalidMuComponent(p))
  }

  /** The values of components `0 .. k-1`, or the error at the first bad one. */
  function ComponentValues(mu: seq<Argument>, k: nat): (r: Result<seq<Argument>, ExpressionError>)
    requires k <= |mu|
    ensures r.Success? ==> |r.value| == k
  {
    if k == 0 then Success([])
    else match ComponentValues(mu, k - 1)
      case Failure(e) => Failure(e)
      case Success(values) =>
        match ComponentValue(mu[k - 1], k - 1)
        case Failure(e) => Failure(e)
        case Success(v) => Success(values + [v])
  }

  /** The values are read in order: they succeed exactly when every
      component is a number or a parametrized constant, and a failure names
      the first component that is not. */
  lemma {:induction false} ComponentValuesOutcome(mu: seq<Argument>, k: nat)
    requires k <= |mu|
    ensures ComponentValues(mu, k).Success? <==> forall p :: 0 <= p < k ==> ComponentValue(mu[p], p).Success?
    ensures ComponentValues(mu, k).Success? ==>
      forall p :: 0 <= p < k ==> ComponentValues(mu, k).value[p] == ComponentValue(mu[p], p).value
    ensures ComponentValues(mu, k).Failure? ==>
      exists p :: 0 <= p < k && ComponentValue(mu[p], p).Failure?
        && ComponentValues(mu, k).error == ComponentValue(mu[p], p).error
        && forall p' :: 0 <= p' < p ==> ComponentValue(mu[p'], p').Success?
  {
    if k > 0 {
      ComponentValuesOutcome(mu, k - 1);
    }
  }

  /** The state of a new expression: its rewritten code, its keyword
      arguments (which become its attributes) and its parameter tuple. */
  datatype ExpressionState = ExpressionState(code: Code, attributes: map<string, Argument>, mu: seq<Argument>)

  /** What `ParametrizedExpression(truth_problem, code, **kwargs)` builds: `None`
      for no code; otherwise `mu` is checked, the code rewritten, and `mu` is
      replaced among the keywords by one `mu_p` per component. */
  function ParametrizedExpressionSpec(code: Option<Code>, kwargs: map<string, Argument>)
    : (r: Result<Option<ExpressionState>, ExpressionError>)
    ensures r == Success(None) <==> code.None?
    ensures r.Success? && code.Some? ==>
      && "mu" in kwargs && kwargs["mu"].TupleArgument? && r.value.Some?
      && r.value.value.mu == kwargs["mu"].elements
      && Rewrite(code.value, |kwargs["mu"].elements|) == Success(r.value.value.code)
      && ComponentValues(kwargs["mu"].elements, |kwargs["mu"].elements|).Success?
  {
    if code.None? then Success(None)
    else if "mu" !in kwargs then Failure(MissingMu)
    else if kwargs["mu"].NoneArgument? then Failure(MuIsNone)
    else if !kwargs["mu"].TupleArgument? then Failure(MuNotTuple)
    else
      var mu := kwargs["mu"].elements;
      match Rewrite(code.value, |mu|)
      case Failure(e) => Failure(CodeRejected(e))
      case Success(rewritten) =>
        match ComponentValues(mu, |mu|)
        case Failure(e) => Failure(e)
        case Success(values) =>
          Success(Some(ExpressionState(rewritten, (kwargs - {"mu"}) + Indexed(values, |mu|), mu)))
  }

  /** The keywords of a new expression: every keyword but `mu` is passed on,
      and `mu_p` holds the value of component `p`, overriding any keyword of
      that name. */
  lemma {:induction false} ExpressionKeywords(code: Code, kwargs: map<string, Argument>)
    requires ParametrizedExpressionSpec(Some(code), kwargs).Success?
    ensures "mu" in kwargs && kwargs["mu"].TupleArgument?
    ensures var mu := kwargs["mu"].elements;
      var state := ParametrizedExpressionSpec(Some(code), kwargs).value.value;
      && "mu" !in state.attributes
      && state.attributes.Keys == (kwargs.Keys - {"mu"}) + (set p | 0 <= p < |mu| :: MuName(p))
      && (forall p :: 0 <= p < |mu| ==>
            ComponentValue(mu[p], p).Success? && state.attributes[MuName(p)] == ComponentValue(mu[p], p).value)
      && (forall key :: key in kwargs && key != "mu" && key !in (set p | 0 <= p < |mu| :: MuName(p))
            ==> state.attributes[key] == kwargs[key])
  {
    var mu := kwargs["mu"].elements;
    var values := ComponentValues(mu, |mu|).value;
    ComponentValuesOutcome(mu, |mu|);
    IndexedLookup(values, |mu|);
    forall p | 0 <= p < |mu| ensures MuName(p) != "mu" {
      assert MuName(p)[2] != "mu"[1];
    }
  }

  // ---------------------------------------------------------------------------
  // The expression and the problem it follows

  class Expression {
    const code: Code
    /** The attributes the expression exposes: its keyword arguments, and
        whatever is written onto it later. */
    var attributes: map<string, Argument>
    /** The parameter tuple the attributes `mu_p` were last taken from. */
    var mu: seq<Argument>

    constructor(code: Code, attributes: map<string, Argument>, mu: seq<Argument>)
      ensures this.code == code && this.attributes == attributes && this.mu == mu
    {
      this.code := code;
      this.attributes := attributes;
      this.mu := mu;
    }
  }

  /** The part of the truth problem the wrapped setters touch. */
  class TruthProblem {
    var mu: Argument
    var t: real
    /** Whether the problem has a `set_time` to wrap. */
    const hasSetTime: bool

    constructor(mu: Argument, t: real, hasSetTime: bool)
      ensures this.mu == mu && this.t == t && this.hasSetTime == hasSetTime
    {
      this.mu := mu;
      this.t := t;
      this.hasSetTime := hasSetTime;
    }
  }

  /** `ParametrizedExpression(truth_problem, code, **kwargs)`: the keyword
      dictionary is built component by component, then the expression. */
  method NewParametrizedExpression(code: Option<Code>, kwargs: map<string, Argument>)
    returns (r: Result<Option<Expression>, ExpressionError>)
    ensures match ParametrizedExpressionSpec(code, kwargs)
            case Failure(e) => r == Failure(e)
            case Success(None) => r == Success(None)
            case Success(Some(state)) =>
              && r.Success? && r.value.Some? && fresh(r.value.value)
              && r.value.value.code == state.code
              && r.value.value.attributes == state.attributes
              && r.value.value.mu == state.mu
  {
    if code.None? {
      return Success(None);
    }
    if "mu" !in kwargs {
      return Failure(MissingMu);
    }
    var muArgument := kwargs["mu"];
    if muArgument.NoneArgument? {
      return Failure(MuIsNone);
    }
    if !muArgument.TupleArgument? {
      return Failure(MuNotTuple);
    }
    var mu := muArgument.elements;
    var rewritten := Rewrite(code.value, |mu|);
    if rewritten.Failure? {
      return Failure(CodeRejected(rewritten.error));
    }
    var muDict: map<string, Argument> := map[];
    ghost var values: seq<Argument> := [];
    for p := 0 to |mu|
      invariant ComponentValues(mu, p) == Success(values)
      invariant muDict == Indexed(values, p)
    {
      var value := ComponentValue(mu[p], p);
      if value.Failure? {
        ComponentValuesFailureStays(mu, p + 1, |mu|);
        return Failure(value.error);
      }
      muDict := muDict[MuName(p) := value.value];
      values := values + [value.value];
      assert Indexed(values, p) == Indexed(values[..p], p) by {
        IndexedPrefix(values, p);
      }
    }
    var attributes := (kwargs - {"mu"}) + muDict;
    var expression := new Expression(rewritten.value, attributes, mu);
    return Success(Some(expression));
  }

  /** `Indexed` reads only the first `k` values. */
  lemma {:induction false} IndexedPrefix(values: seq<Argument>, k: nat)
    requires k <= |values|
    ensures Indexed(values, k) == Indexed(values[..k], k)
    decreases k
  {
    if k > 0 {
      IndexedPrefix(values, k - 1);
      IndexedPrefix(values[..k], k - 1);
      assert values[..k][..k - 1] == values[..k - 1];
    }
  }

  /** Once a component fails, every longer prefix fails with its error. */
  lemma {:induction false} ComponentValuesFailureStays(mu: seq<Argument>, k: nat, more: nat)
    requires k <= more <= |mu| && ComponentValues(mu, k).Failure?
    ensures ComponentValues(mu, more) == ComponentValues(mu, k)
    decreases more - k
  {
    if k < more {
      ComponentValuesFailureStays(mu, k, more - 1);
    }
  }

  datatype SyncError = NewMuNotTuple | NewMuLengthMismatch

  /** The wrapped `set_mu(mu)`: the problem's own `set_mu` stores `mu`; then,
      unless `mu` is the very object the expression follows, each attribute
      `mu_p` is set to component `p` of the new tuple, which must be as long
      as the old one. Object identity is not a property of values, so
      `sameObject` says whether `mu` is the object last stored on the
      expression; an identical object is in particular an equal tuple. */
  method OverriddenSetMu(problem: TruthProblem, expression: Expression, mu: Argument, sameObject: bool) returns (r: Outcome<SyncError>)
    requires sameObject ==> mu == TupleArgument(expression.mu)
    modifies problem, expression
    ensures problem.mu == mu && problem.t == old(problem.t)
    ensures sameObject ==> r == Pass && unchanged(expression)
    ensures !sameObject && !mu.TupleArgument? ==>
      r == Fail(NewMuNotTuple) && unchanged(expression)
    ensures !sameObject && mu.TupleArgument? && |mu.elements| != |old(expression.mu)| ==>
      r == Fail(NewMuLengthMismatch) && unchanged(expression)
    ensures !sameObject && mu.TupleArgument? && |mu.elements| == |old(expression.mu)| ==>
      && r == Pass
      && expression.mu == mu.elements
      && expression.attributes == old(expression.attributes) + Indexed(mu.elements, |mu.elements|)
  {
    problem.mu := mu;
    if sameObject {
      return Pass;
    }
    if !mu.TupleArgument? {
      return Fail(NewMuNotTuple);
    }
    if |mu.elements| != |expression.mu| {
      return Fail(NewMuLengthMismatch);
    }
    ghost var before := expression.attributes;
    for p := 0 to |mu.elements|
      invariant expression.attributes == before + Indexed(mu.elements, p)
      invariant problem.mu == mu && problem.t == old(problem.t)
    {
      expression.attributes := expression.attributes[MuName(p) := mu.elements[p]];
    }
    expression.mu := mu.elements;
    return Pass;
  }

  /** A new expression holds the value of a parametrized-constant component
      under `mu_p`; setting an equal tuple that is not the same object
      stores the component itself there instead, so the attribute changes. */
  lemma {:induction false} EqualTupleStoresComponent(code: Code, kwargs: map<string, Argument>, p: nat)
    requires ParametrizedExpressionSpec(Some(code), kwargs).Success?
    requires "mu" in kwargs && kwargs["mu"].TupleArgument? && p < |kwargs["mu"].elements|
    requires kwargs["mu"].elements[p].ParametrizedConstant?
    ensures var state := ParametrizedExpressionSpec(Some(code), kwargs).value.value;
      var synced := state.attributes + Indexed(state.mu, |state.mu|);
      && MuName(p) in state.attributes
      && state.attributes[MuName(p)] == NumberArgument(kwargs["mu"].elements[p].constant)
      && synced[MuName(p)] == kwargs["mu"].elements[p]
      && synced[MuName(p)] != state.attributes[MuName(p)]
  {
    ExpressionKeywords(code, kwargs);
    var state := ParametrizedExpressionSpec(Some(code), kwargs).value.value;
    IndexedLookup(state.mu, |state.mu|);
  }

  /** After a successful synchronisation, the expression's `mu_p` attributes
      are the components of the new tuple, and no other attribute changed. */
  lemma {:induction false} SetMuAttributes(before: map<string, Argument>, mu: seq<Argument>)
    ensures var after := before + Indexed(mu, |mu|);
      && (forall p :: 0 <= p < |mu| ==> MuName(p) in after && after[MuName(p)] == mu[p])
      && (forall key :: key in before && key !in (set p | 0 <= p < |mu| :: MuName(p)) ==> after[key] == before[key])
      && after.Keys == before.Keys + (set p | 0 <= p < |mu| :: MuName(p))
  {
    IndexedLookup(mu, |mu|);
  }

  /** The wrapped `set_time(t)`, installed only on a problem that has
      `set_time`: the problem's own `set_time` stores `t`; the expression's
      attribute `t`, when it has one, is set to `t`. */
  method OverriddenSetTime(problem: TruthProblem, expression: Expression, t: real)
    requires problem.hasSetTime
    modifies problem, expression
    ensures problem.t == t && problem.mu == old(problem.mu)
    ensures expression.mu == old(expression.mu)
    ensures "t" in old(expression.attributes) ==> expression.attributes == old(expression.attributes)["t" := NumberArgument(t)]
    ensures "t" !in old(expression.attributes) ==> expression.attributes == old(expression.attributes)
  {
    problem.t := t;
    if "t" in expression.attributes {
      if expression.attributes["t"] != NumberArgument(t) {
        expression.attributes := expression.attributes["t" := NumberArgument(t)];
      }
    }
  }
}
