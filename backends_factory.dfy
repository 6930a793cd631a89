/** The backends factory: every class or function of the abstract backend
    interface gets a selector that, from the types of its arguments, picks
    the enabled backend with the most specific matching signature. Python's
    `issubclass` and the container wrappers' own comparison are given as a
    `Hierarchy`. */
module BackendsFactory {
  import opened Wrappers

  /** A Python class, by name. */
  type ClassId = string

  const NdArrayClass: ClassId := "ndarray"

  /** The type recorded for one argument: its class, or a container wrapper
      (`tuple_of`, `list_of`, `array_of`, `dict_of`) around the types of
      its items. */
  datatype InputType =
    | Plain(cls: ClassId)
    | TupleOf(sub: Subtypes)
    | ListOf(sub: Subtypes)
    | ArrayOf(sub: Subtypes)
    | DictOf(keys: Subtypes, values: Subtypes)
  {
    predicate IsWrapper() {
      !Plain?
    }
  }

  /** The item types of a container: the single type when all items share
      it, otherwise the set of distinct types (in no particular order). */
  datatype Subtypes = Single(t: InputType) | Several(ts: set<InputType>)

  /** A Python argument, as far as its type is concerned. */
  datatype PyValue =
    | NoneValue
    | Instance(cls: ClassId)                             // any other object, of its exact class
    | ListValue(items: seq<PyValue>)                    // exactly a `list`
    | TupleValue(items: seq<PyValue>)                   // exactly a `tuple`
    | ArrayValue(items: seq<PyValue>, objectDtype: bool) // exactly a numpy array
    | DictValue(keys: seq<PyValue>, values: seq<PyValue>) // exactly a `dict`

  /** One position of a backend signature: a type, or `None` for an argument
      that may be left out. */
  datatype SignatureEntry = NoneEntry | Entry(t: InputType)

  type Signature = seq<SignatureEntry>

  /** `issubclass` on classes, and `input_type.are_subclass(backend_type)` on
      two wrappers of the same kind. */
  datatype Hierarchy = Hierarchy(
    isSubclass: (ClassId, ClassId) -> bool,
    wrapperIsSubclass: (InputType, InputType) -> bool)

  datatype FactoryError =
    | AlreadyCalled           // `backends_factory` called a second time
    | NotEnabled              // disabling a backend that is not enabled
    | TooManyKeywords         // a selector called with two or more keyword arguments
    | NoBackendFound          // no enabled backend matches the argument types
    | Incomparable            // two eligible signatures, neither below the other
    | NotUnique               // the elimination did not leave exactly one backend
    | NotAClass               // `issubclass(None, cls)` while comparing two signatures
    | EmptyName               // a class or function name without a first character
    | UnderscoreInClassName   // a class name holding `_`

  // ---------------------------------------------------------------------------
  // get_input_types

  function Distinct(ts: seq<InputType>): set<InputType> {
    set i | 0 <= i < |ts| :: ts[i]
  }

  /** `tuple(set(ts))`, unwrapped when it holds a single type. */
  function Collapse(ts: seq<InputType>): (s: Subtypes)
    ensures s.Single? ==> Distinct(ts) == {s.t}
    ensures s.Several? ==> s.ts == Distinct(ts) && |s.ts| != 1
  {
    if |ts| > 0 && forall i :: 0 <= i < |ts| ==> ts[i] == ts[0] then
      assert Distinct(ts) == {ts[0]};
      Single(ts[0])
    else
      var d := Distinct(ts);
      assert |d| == 1 ==> false by {
        if |d| == 1 {
          var t :| t in d;
          assert d == {t} by {
            forall u | u in d ensures u == t {
              SingletonMembers(d, t, u);
            }
          }
          forall i | 0 <= i < |ts| ensures ts[i] == ts[0] {
            assert ts[i] in d && ts[0] in d;
          }
        }
      }
      Several(d)
  }

  lemma {:induction false} SingletonMembers(d: set<InputType>, t: InputType, u: InputType)
    requires |d| == 1 && t in d && u in d
    ensures u == t
  {
    var rest := d - {t};
    assert d == rest + {t};
  }

  /** `get_input_types(inputs)`: one entry per argument that is not `None`;
      without `None` arguments, entry `i` is the type of argument `i`. */
  function InputTypes(inputs: seq<PyValue>): (ts: seq<InputType>)
    ensures |ts| <= |inputs|
    ensures (forall i :: 0 <= i < |inputs| ==> !inputs[i].NoneValue?) ==>
      |ts| == |inputs| && forall i :: 0 <= i < |inputs| ==> TypeEntry(inputs[i]) == [ts[i]]
    decreases inputs
  {
    if |inputs| == 0 then []
    else
      var rest := InputTypes(inputs[1..]);
      assert forall i :: 1 <= i < |inputs| ==> inputs[1..][i - 1] == inputs[i];
      TypeEntry(inputs[0]) + rest
  }

  /** The entry of one argument: nothing for `None`; a wrapper for an exact
      list, tuple, object array or dict; the argument's class otherwise. */
  function TypeEntry(v: PyValue): (r: seq<InputType>)
    ensures |r| == 0 <==> v.NoneValue?
    ensures |r| <= 1
    ensures |r| == 1 ==>
      (r[0].IsWrapper() <==> v.ListValue? || v.TupleValue? || v.DictValue? || (v.ArrayValue? && v.objectDtype))
    decreases v
  {
    match v
    case NoneValue => []
    case Instance(c) => [Plain(c)]
    case ListValue(items) => [ListOf(Collapse(InputTypes(items)))]
    case TupleValue(items) => [TupleOf(Collapse(InputTypes(items)))]
    case ArrayValue(items, objectDtype) =>
      if objectDtype then [ArrayOf(Collapse(InputTypes(items)))] else [Plain(NdArrayClass)]
    case DictValue(keys, values) => [DictOf(Collapse(InputTypes(keys)), Collapse(InputTypes(values)))]
  }

  /** The arguments' types are taken one argument at a time: the types of a
      concatenation are the concatenation of the types. */
  lemma {:induction false} InputTypesConcat(a: seq<PyValue>, b: seq<PyValue>)
    ensures InputTypes(a + b) == InputTypes(a) + InputTypes(b)
    decreases |a|
  {
    if |a| == 0 {
      assert a + b == b;
    } else {
      assert (a + b)[1..] == a[1..] + b;
      InputTypesConcat(a[1..], b);
    }
  }

  /** A `None` argument is skipped: removing it leaves the types unchanged. */
  lemma {:induction false} InputTypesSkipNone(a: seq<PyValue>, b: seq<PyValue>)
    ensures InputTypes(a + [NoneValue] + b) == InputTypes(a + b)
  {
    InputTypesConcat(a + [NoneValue], b);
    InputTypesConcat(a, [NoneValue]);
    InputTypesConcat(a, b);
    assert InputTypes([NoneValue]) == [] by {
      assert [NoneValue][1..] == [];
    }
  }

  /** A list is recorded as `list_of(t)` for a single type `t` exactly when
      it has typed items and all of them have type `t`; otherwise it is
      recorded with the tuple of its distinct item types. */
  lemma {:induction false} UniformListType(items: seq<PyValue>, t: InputType)
    ensures var ts := InputTypes(items);
      TypeEntry(ListValue(items)) == [ListOf(Single(t))] <==> |ts| > 0 && forall i :: 0 <= i < |ts| ==> ts[i] == t
  {
    var ts := InputTypes(items);
    if Collapse(ts) == Single(t) {
      assert t in Distinct(ts);
      forall i | 0 <= i < |ts| ensures ts[i] == t {
        assert ts[i] in Distinct(ts);
      }
    }
  }

  // ---------------------------------------------------------------------------
  // are_subclass

  /** The backend types without their `None` positions: every type of the
      signature is kept as often as it occurs, and a signature loses length
      exactly when it holds `None`. */
  function StripNone(sig: Signature): (ts: seq<InputType>)
    ensures multiset(AsSignature(ts)) == multiset(sig)[NoneEntry := 0]
    ensures |ts| == |sig| <==> NoneEntry !in sig
    ensures |ts| <= |sig|
  {
    if |sig| == 0 then []
    else
      var rest := StripNone(sig[1..]);
      assert sig == [sig[0]] + sig[1..];
      if sig[0].NoneEntry? then rest
      else
        assert AsSignature([sig[0].t] + rest) == [sig[0]] + AsSignature(rest);
        [sig[0].t] + rest
  }

  /** Stripping works position by position, so it keeps the order of the
      types: a signature split in two is stripped part by part. */
  lemma {:induction false} StripNoneConcat(a: Signature, b: Signature)
    ensures StripNone(a + b) == StripNone(a) + StripNone(b)
    decreases |a|
  {
    if |a| > 0 {
      assert (a + b)[1..] == a[1..] + b;
      StripNoneConcat(a[1..], b);
    } else {
      assert a + b == b;
    }
  }

  /** Whether one position matches: a wrapper only a wrapper of the same kind
      it is a subclass of, a class only a class it is a subclass of. A `None`
      position compared against a class makes `issubclass` raise. */
  function MatchOne(h: Hierarchy, input: SignatureEntry, t: InputType): Result<bool, FactoryError> {
    match input
    case NoneEntry => if t.IsWrapper() then Success(false) else Failure(NotAClass)
    case Entry(it) =>
      match it
      case Plain(c) => Success(t.Plain? && h.isSubclass(c, t.cls))
      case TupleOf(_) => Success(t.TupleOf? && h.wrapperIsSubclass(it, t))
      case ListOf(_) => Success(t.ListOf? && h.wrapperIsSubclass(it, t))
      case ArrayOf(_) => Success(t.ArrayOf? && h.wrapperIsSubclass(it, t))
      case DictOf(_, _) => Success(t.DictOf? && h.wrapperIsSubclass(it, t))
  }

  /** The positions compared left to right, stopping at the first mismatch. */
  function MatchAll(h: Hierarchy, inputs: Signature, ts: seq<InputType>): (r: Result<bool, FactoryError>)
    requires |inputs| == |ts|
    ensures r.Failure? ==> r.error == NotAClass && exists i :: 0 <= i < |inputs| && inputs[i].NoneEntry?
    decreases |inputs|
  {
    if |inputs| == 0 then Success(true)
    else match MatchOne(h, inputs[0], ts[0])
      case Failure(e) => Failure(e)
      case Success(false) => Success(false)
      case Success(true) => MatchAll(h, inputs[1..], ts[1..])
  }

  /** `are_subclass(input_types, backend_input_types)`. */
  function AreSubclass(h: Hierarchy, inputs: Signature, backend: Signature): (r: Result<bool, FactoryError>)
    ensures r.Failure? ==> r.error == NotAClass && exists i :: 0 <= i < |inputs| && inputs[i].NoneEntry?
  {
    var ts := StripNone(backend);
    if |inputs| != |ts| then Success(false) else MatchAll(h, inputs, ts)
  }

  /** The argument types as a signature to compare. */
  function AsSignature(ts: seq<InputType>): (sig: Signature)
    ensures |sig| == |ts| && forall i :: 0 <= i < |ts| ==> sig[i] == Entry(ts[i])
  {
    seq(|ts|, i requires 0 <= i < |ts| => Entry(ts[i]))
  }

  /** Position `i` matches, as a plain truth value. */
  predicate Matches(h: Hierarchy, it: InputType, t: InputType) {
    if it.Plain? then t.Plain? && h.isSubclass(it.cls, t.cls)
    else
      && (it.TupleOf? ==> t.TupleOf?)
      && (it.ListOf? ==> t.ListOf?)
      && (it.ArrayOf? ==> t.ArrayOf?)
      && (it.DictOf? ==> t.DictOf?)
      && h.wrapperIsSubclass(it, t)
  }

  lemma {:induction false} MatchAllTypes(h: Hierarchy, ts: seq<InputType>, backend: seq<InputType>)
    requires |ts| == |backend|
    ensures MatchAll(h, AsSignature(ts), backend)
            == Success(forall i :: 0 <= i < |ts| ==> Matches(h, ts[i], backend[i]))
    decreases |ts|
  {
    if |ts| > 0 {
      assert AsSignature(ts)[1..] == AsSignature(ts[1..]);
      MatchAllTypes(h, ts[1..], backend[1..]);
      if Matches(h, ts[0], backend[0]) {
        forall i | 0 <= i < |ts| && i > 0 ensures Matches(h, ts[i], backend[i]) <==> Matches(h, ts[1..][i - 1], backend[1..][i - 1]) {
        }
      }
    }
  }

  /** For argument types, which never hold `None`, `are_subclass` never
      raises: it holds exactly when the signature without its `None`
      positions has the same length and every position matches. With no
      arguments, it holds for every signature made only of `None`. */
  lemma {:induction false} AreSubclassTypes(h: Hierarchy, ts: seq<InputType>, backend: Signature)
    ensures AreSubclass(h, AsSignature(ts), backend) == Success(
      && |ts| == |StripNone(backend)|
      && forall i :: 0 <= i < |ts| ==> Matches(h, ts[i], StripNone(backend)[i]))
  {
    if |ts| == |StripNone(backend)| {
      MatchAllTypes(h, ts, StripNone(backend));
    }
  }

  /** Two signatures that both match the same argument types compare
      without raising: a first signature holding `None` is longer than the
      arguments, so `are_subclass` returns `False` on the length test before
      any `issubclass(None, …)`. Such a backend therefore never lies below
      another eligible one. */
  lemma {:induction false} EligibleComparisonsSucceed(h: Hierarchy, ts: seq<InputType>, s1: Signature, s2: Signature)
    requires AreSubclass(h, AsSignature(ts), s1) == Success(true)
    requires AreSubclass(h, AsSignature(ts), s2) == Success(true)
    ensures AreSubclass(h, s1, s2).Success?
    ensures NoneEntry in s1 ==> AreSubclass(h, s1, s2) == Success(false)
  {
    AreSubclassTypes(h, ts, s1);
    AreSubclassTypes(h, ts, s2);
    if |s1| == |StripNone(s2)| {
      assert forall i :: 0 <= i < |s1| ==> s1[i] != NoneEntry;
    }
  }

  /** Two eligible backends that both take an optional argument are never
      comparable: neither lies below the other. */
  lemma {:induction false} OptionalPairIncomparable(h: Hierarchy, ts: seq<InputType>, s1: Signature, s2: Signature)
    requires AreSubclass(h, AsSignature(ts), s1) == Success(true)
    requires AreSubclass(h, AsSignature(ts), s2) == Success(true)
    requires NoneEntry in s1 && NoneEntry in s2
    ensures NeitherBelow(h, s1, s2)
  {
    EligibleComparisonsSucceed(h, ts, s1, s2);
    EligibleComparisonsSucceed(h, ts, s2, s1);
  }

  // ---------------------------------------------------------------------------
  // The selector

  /** Entry `e` of the input map matches the argument types and its backend
      is enabled. */
  predicate EligibleEntry(h: Hierarchy, ts: seq<InputType>, inputMap: seq<(Signature, string)>, enabled: seq<string>, e: nat)
    requires e < |inputMap|
  {
    AreSubclass(h, AsSignature(ts), inputMap[e].0) == Success(true) && inputMap[e].1 in enabled
  }

  /** The eligible backends after the first `k` entries of the input map:
      their names in first-match order, and for each the signature of its
      last matching entry. */
  function EligibleUpTo(h: Hierarchy, ts: seq<InputType>, inputMap: seq<(Signature, string)>, enabled: seq<string>, k: nat)
    : (r: (seq<string>, map<string, Signature>))
    requires k <= |inputMap|
    ensures |r.0| <= k
    ensures forall b :: b in r.0 ==> b in enabled
  {
    if k == 0 then ([], map[])
    else
      var previous := EligibleUpTo(h, ts, inputMap, enabled, k - 1);
      if EligibleEntry(h, ts, inputMap, enabled, k - 1) then
        var (signature, backend) := inputMap[k - 1];
        (if backend in previous.1 then previous.0 else previous.0 + [backend], previous.1[backend := signature])
      else previous
  }

  predicate NoDuplicates(s: seq<string>) {
    forall i, j :: 0 <= i < j < |s| ==> s[i] != s[j]
  }

  /** Each eligible backend is listed once, and the listed backends are the
      keys of the signature map. */
  lemma {:induction false} EligibleNames(h: Hierarchy, ts: seq<InputType>, inputMap: seq<(Signature, string)>, enabled: seq<string>, k: nat)
    requires k <= |inputMap|
    ensures var (names, signatures) := EligibleUpTo(h, ts, inputMap, enabled, k);
      NoDuplicates(names) && forall b :: b in signatures <==> b in names
  {
    if k > 0 {
      EligibleNames(h, ts, inputMap, enabled, k - 1);
    }
  }

  /** A backend is eligible exactly when some entry for it matches the
      argument types and it is enabled. */
  lemma {:induction false} EligibleBackendsMatch(h: Hierarchy, ts: seq<InputType>, inputMap: seq<(Signature, string)>, enabled: seq<string>, k: nat)
    requires k <= |inputMap|
    ensures forall b :: b in EligibleUpTo(h, ts, inputMap, enabled, k).1 <==>
      exists e :: 0 <= e < k && inputMap[e].1 == b && EligibleEntry(h, ts, inputMap, enabled, e)
  {
    if k > 0 {
      EligibleBackendsMatch(h, ts, inputMap, enabled, k - 1);
    }
  }

  /** Every signature in `signatures` is that of a matching entry among the
      first `k`, for the backend it is kept under. */
  predicate FromMatchingEntries(h: Hierarchy, ts: seq<InputType>, inputMap: seq<(Signature, string)>, enabled: seq<string>, k: nat, signatures: map<string, Signature>)
    requires k <= |inputMap|
  {
    forall b :: b in signatures ==>
      exists e :: 0 <= e < k && inputMap[e] == (signatures[b], b) && EligibleEntry(h, ts, inputMap, enabled, e)
  }

  /** The signature kept for an eligible backend is that of one of its
      matching entries. */
  lemma {:induction false} EligibleSignaturesMatch(h: Hierarchy, ts: seq<InputType>, inputMap: seq<(Signature, string)>, enabled: seq<string>, k: nat)
    requires k <= |inputMap|
    ensures FromMatchingEntries(h, ts, inputMap, enabled, k, EligibleUpTo(h, ts, inputMap, enabled, k).1)
  {
    if k > 0 {
      EligibleSignaturesMatch(h, ts, inputMap, enabled, k - 1);
      var signatures := EligibleUpTo(h, ts, inputMap, enabled, k - 1).1;
      var signatures' := EligibleUpTo(h, ts, inputMap, enabled, k).1;
      assert FromMatchingEntries(h, ts, inputMap, enabled, k - 1, signatures);
      if EligibleEntry(h, ts, inputMap, enabled, k - 1) {
        var backend := inputMap[k - 1].1;
        assert signatures' == signatures[backend := inputMap[k - 1].0];
        forall b | b in signatures'
          ensures exists e :: 0 <= e < k && inputMap[e] == (signatures'[b], b) && EligibleEntry(h, ts, inputMap, enabled, e)
        {
          if b == backend {
            assert inputMap[k - 1] == (signatures'[b], b);
          } else {
            assert b in signatures;
            var e :| 0 <= e < k - 1 && inputMap[e] == (signatures[b], b) && EligibleEntry(h, ts, inputMap, enabled, e);
            assert inputMap[e] == (signatures'[b], b);
          }
        }
      } else {
        assert signatures' == signatures;
      }
    }
  }

  /** `list.remove(x)`: drops the first occurrence of `x`. */
  function Remove(s: seq<string>, x: string): (r: seq<string>)
    ensures forall y :: y in r ==> y in s
    ensures forall y :: y in s && y != x ==> y in r
    ensures NoDuplicates(s) ==> NoDuplicates(r) && x !in r
    ensures x in s ==> |r| == |s| - 1
  {
    if |s| == 0 then []
    else if s[0] == x then
      assert NoDuplicates(s) ==> x !in s[1..];
      s[1..]
    else
      var tail := Remove(s[1..], x);
      assert NoDuplicates(s) ==> s[0] !in tail && NoDuplicates([s[0]] + tail) by {
        if NoDuplicates(s) {
          assert s[0] !in s[1..];
        }
      }
      [s[0]] + tail
  }

  /** Removing a present element takes exactly one copy of it away. */
  lemma {:induction false} RemoveMultiset(s: seq<string>, x: string)
    requires x in s
    ensures multiset(Remove(s, x)) == multiset(s) - multiset{x}
  {
    if s[0] == x {
      assert s == [s[0]] + s[1..];
    } else {
      RemoveMultiset(s[1..], x);
      assert s == [s[0]] + s[1..];
    }
  }

  /** `if x in s: s.remove(x)`, on a list without duplicates. */
  function Discard(s: seq<string>, x: string): (r: seq<string>)
    requires NoDuplicates(s)
    ensures NoDuplicates(r)
    ensures forall y :: y in r <==> y in s && y != x
  {
    if x in s then Remove(s, x) else s
  }

  /** The backends factory's module-level state: the enabled backends, in
      the order they were enabled, and whether the factory has run. */
  class Factory {
    var enabledBackends: seq<string>
    var alreadyCalled: bool

    constructor()
      ensures enabledBackends == [] && !alreadyCalled
    {
      enabledBackends := [];
      alreadyCalled := false;
    }

    /** `backends_factory(module)`: may run only once. */
    method BackendsFactory() returns (r: Outcome<FactoryError>)
      modifies this
      ensures r == (if old(alreadyCalled) then Fail(AlreadyCalled) else Pass)
      ensures alreadyCalled && enabledBackends == old(enabledBackends)
    {
      if alreadyCalled {
        return Fail(AlreadyCalled);
      }
      alreadyCalled := true;
      return Pass;
    }

    /** `enable_backend(library)`: appends, even a backend already enabled. */
    method EnableBackend(library: string)
      modifies this
      ensures enabledBackends == old(enabledBackends) + [library]
      ensures alreadyCalled == old(alreadyCalled)
    {
      enabledBackends := enabledBackends + [library];
    }

    /** `disable_backend(library)`: the backend must be enabled; one
      occurrence of it is removed. */
    method DisableBackend(library: string) returns (r: Outcome<FactoryError>)
      modifies this
      ensures library !in old(enabledBackends) ==> r == Fail(NotEnabled) && enabledBackends == old(enabledBackends)
      ensures library in old(enabledBackends) ==> r == Pass && enabledBackends == Remove(old(enabledBackends), library)
      ensures alreadyCalled == old(alreadyCalled)
    {
      if library !in enabledBackends {
        return Fail(NotEnabled);
      }
      enabledBackends := Remove(enabledBackends, library);
      return Pass;
    }

    /** The eligible backends for the argument types `ts`. */
    method EligibleBackends(h: Hierarchy, ts: seq<InputType>, inputMap: seq<(Signature, string)>)
      returns (names: seq<string>, signatures: map<string, Signature>)
      ensures (names, signatures) == EligibleUpTo(h, ts, inputMap, enabledBackends, |inputMap|)
    {
      names := [];
      signatures := map[];
      for k := 0 to |inputMap|
        invariant (names, signatures) == EligibleUpTo(h, ts, inputMap, enabledBackends, k)
      {
        var (signature, backend) := inputMap[k];
        if AreSubclass(h, AsSignature(ts), signature) == Success(true) {
          if backend in enabledBackends {
            if backend !in signatures {
              names := names + [backend];
            }
            signatures := signatures[backend := signature];
          }
        }
      }
    }

    /** `backend_selector(*args, **kwargs)` for one class or function: the
      name of the backend whose implementation is called, `None` when
      called without arguments, or the error raised. A backend is selected
      when it is the only eligible one, or when every pair of eligible
      backends is comparable and the elimination leaves it alone; an
      incomparable pair is exactly what makes the source raise its
      "supposed to never happen" error. */
    method BackendSelector(h: Hierarchy, inputMap: seq<(Signature, string)>, args: seq<PyValue>, kwargs: seq<PyValue>)
      returns (r: Result<Option<string>, FactoryError>)
      ensures |kwargs| >= 2 ==> r == Failure(TooManyKeywords)
      ensures |kwargs| < 2 && |args + kwargs| == 0 ==> r == Success(None)
      ensures |kwargs| < 2 && |args + kwargs| > 0 ==>
        var (names, signatures) := EligibleUpTo(h, InputTypes(args + kwargs), inputMap, enabledBackends, |inputMap|);
        && (r == Failure(NoBackendFound) <==> |names| == 0)
        && (|names| == 1 ==> r == Success(Some(names[0])))
        && (r.Success? ==> r.value.Some? && MostSpecific(h, r.value.value, signatures) && AllComparable(h, names, signatures))
        && (|names| > 0 ==> (AllComparable(h, names, signatures) <==> r.Success? || r == Failure(NotUnique)))
        && (r == Failure(Incomparable) <==>
              exists a, b :: IsPair(names, signatures, a, b) && NeitherBelow(h, signatures[names[a]], signatures[names[b]]))
        && (r.Failure? ==> r.error in {NoBackendFound, Incomparable, NotUnique})
    {
      if |kwargs| >= 2 {
        return Failure(TooManyKeywords);
      }
      var inputs := args + kwargs;
      if |inputs| == 0 {
        return Success(None);
      }
      var ts := InputTypes(inputs);
      var names, signatures := EligibleBackends(h, ts, inputMap);
      EligibleNames(h, ts, inputMap, enabledBackends, |inputMap|);
      if |names| == 0 {
        return Failure(NoBackendFound);
      }
      EligibleSignaturesMatchArguments(h, ts, inputMap, enabledBackends);
      EligiblePairsCompare(h, ts, names, signatures);
      var selected := Narrow(h, names, signatures);
      match selected
      case Failure(e) => return Failure(e);
      case Success(backend) => return Success(Some(backend));
    }
  }

  /** Every kept signature matches the argument types. */
  lemma {:induction false} EligibleSignaturesMatchArguments(h: Hierarchy, ts: seq<InputType>, inputMap: seq<(Signature, string)>, enabled: seq<string>)
    ensures var signatures := EligibleUpTo(h, ts, inputMap, enabled, |inputMap|).1;
      forall b :: b in signatures ==> AreSubclass(h, AsSignature(ts), signatures[b]) == Success(true)
  {
    var signatures := EligibleUpTo(h, ts, inputMap, enabled, |inputMap|).1;
    EligibleSignaturesMatch(h, ts, inputMap, enabled, |inputMap|);
    forall b | b in signatures ensures AreSubclass(h, AsSignature(ts), signatures[b]) == Success(true) {
      var e :| 0 <= e < |inputMap| && inputMap[e] == (signatures[b], b) && EligibleEntry(h, ts, inputMap, enabled, e);
    }
  }

  /** Among eligible backends no comparison raises, so a pair that is not
      comparable is one where neither lies below the other. */
  lemma {:induction false} EligiblePairsCompare(h: Hierarchy, ts: seq<InputType>, names: seq<string>, signatures: map<string, Signature>)
    requires forall b :: b in signatures ==> AreSubclass(h, AsSignature(ts), signatures[b]) == Success(true)
    ensures forall a, b :: IsPair(names, signatures, a, b) ==>
      && !Raises(h, signatures[names[a]], signatures[names[b]])
      && (Comparable(h, signatures[names[a]], signatures[names[b]]) || NeitherBelow(h, signatures[names[a]], signatures[names[b]]))
  {
    forall a, b | IsPair(names, signatures, a, b)
      ensures !Raises(h, signatures[names[a]], signatures[names[b]])
      ensures Comparable(h, signatures[names[a]], signatures[names[b]]) || NeitherBelow(h, signatures[names[a]], signatures[names[b]])
    {
      EligiblePairCompares(h, ts, signatures[names[a]], signatures[names[b]]);
    }
  }

  lemma {:induction false} EligiblePairCompares(h: Hierarchy, ts: seq<InputType>, x: Signature, y: Signature)
    requires AreSubclass(h, AsSignature(ts), x) == Success(true)
    requires AreSubclass(h, AsSignature(ts), y) == Success(true)
    ensures !Raises(h, x, y)
    ensures Comparable(h, x, y) || NeitherBelow(h, x, y)
  {
    EligibleComparisonsSucceed(h, ts, x, y);
    EligibleComparisonsSucceed(h, ts, y, x);
    var first, second := AreSubclass(h, x, y), AreSubclass(h, y, x);
    if first.value {
      assert first == Success(true);
    } else if second.value {
      assert first == Success(false) && second == Success(true);
    } else {
      assert first == Success(false) && second == Success(false);
    }
  }

  /** `backend` is eligible and its signature lies below the signature of
      every other eligible backend. */
  predicate MostSpecific(h: Hierarchy, backend: string, signatures: map<string, Signature>) {
    && backend in signatures
    && forall b :: b in signatures && b != backend ==> AreSubclass(h, signatures[backend], signatures[b]) == Success(true)
  }

  /** The comparison of the pair `(x, y)` settles it: `x` lies below `y`,
      or `x` does not and `y` lies below `x`. */
  predicate Comparable(h: Hierarchy, x: Signature, y: Signature) {
    || AreSubclass(h, x, y) == Success(true)
    || (AreSubclass(h, x, y) == Success(false) && AreSubclass(h, y, x) == Success(true))
  }

  /** Neither signature lies below the other: the case the source calls
      impossible. */
  predicate NeitherBelow(h: Hierarchy, x: Signature, y: Signature) {
    AreSubclass(h, x, y) == Success(false) && AreSubclass(h, y, x) == Success(false)
  }

  /** The comparison of the pair `(x, y)` raises before settling it. */
  predicate Raises(h: Hierarchy, x: Signature, y: Signature) {
    && !Comparable(h, x, y)
    && (AreSubclass(h, x, y).Failure? || AreSubclass(h, y, x).Failure?)
  }

  /** The eligible backends `[a]` and `[b]` both have a signature. */
  predicate IsPair(names: seq<string>, signatures: map<string, Signature>, a: int, b: int) {
    0 <= a < b < |names| && names[a] in signatures && names[b] in signatures
  }

  /** Every pair of eligible backends, taken in order, is comparable. */
  predicate AllComparable(h: Hierarchy, names: seq<string>, signatures: map<string, Signature>) {
    forall a, b :: 0 <= a < b < |names| && IsPair(names, signatures, a, b) ==> Comparable(h, signatures[names[a]], signatures[names[b]])
  }

  /** The pairwise elimination of `[i]` against `[j]` for `i < j` has been
      done: the pair was comparable, and the more general one, or the later
      when both lie below each other, is no longer a candidate. */
  predicate Settled(h: Hierarchy, names: seq<string>, signatures: map<string, Signature>, remaining: seq<string>, i: nat, j: nat)
    requires i < j < |names| && names[i] in signatures && names[j] in signatures
  {
    && Comparable(h, signatures[names[i]], signatures[names[j]])
    && if AreSubclass(h, signatures[names[i]], signatures[names[j]]) == Success(true) then names[j] !in remaining
       else names[i] !in remaining
  }

  /** Every pair of eligible backends has been compared. */
  predicate AllSettled(h: Hierarchy, names: seq<string>, signatures: map<string, Signature>, remaining: seq<string>, i: nat)
    requires forall b :: b in signatures <==> b in names
  {
    forall a, b :: 0 <= a < i && a < b < |names| ==> Settled(h, names, signatures, remaining, a, b)
  }

  /** Keeps the closest match among several eligible backends: every pair is
      compared in order, the more general of the two is dropped, an
      incomparable pair raises, and exactly one backend must remain. The
      elimination gets past the comparisons exactly when every pair is
      comparable. */
  method Narrow(h: Hierarchy, names: seq<string>, signatures: map<string, Signature>) returns (r: Result<string, FactoryError>)
    requires |names| > 0 && NoDuplicates(names) && forall b :: b in signatures <==> b in names
    ensures r.Success? ==> MostSpecific(h, r.value, signatures) && AllComparable(h, names, signatures)
    ensures |names| == 1 ==> r == Success(names[0])
    ensures AllComparable(h, names, signatures) <==> r.Success? || r == Failure(NotUnique)
    ensures r == Failure(Incomparable) ==>
      exists a, b :: IsPair(names, signatures, a, b) && NeitherBelow(h, signatures[names[a]], signatures[names[b]])
    ensures r == Failure(NotAClass) ==>
      exists a, b :: IsPair(names, signatures, a, b) && Raises(h, signatures[names[a]], signatures[names[b]])
    ensures r.Failure? ==> r.error in {Incomparable, NotUnique, NotAClass}
  {
    if |names| == 1 {
      return Success(names[0]);
    }
    var remaining := names;
    for i := 0 to |names|
      invariant NoDuplicates(remaining) && forall b :: b in remaining ==> b in names
      invariant AllSettled(h, names, signatures, remaining, i)
    {
      var pass := EliminateAgainst(h, names, signatures, remaining, i);
      if pass.Failure? {
        PassFailure(h, names, signatures, i, pass.error);
        return Failure(pass.error);
      }
      SettledShrinks(h, names, signatures, remaining, pass.value, i);
      remaining := pass.value;
    }
    SettledComparable(h, names, signatures, remaining);
    if |remaining| != 1 {
      return Failure(NotUnique);
    }
    SurvivorIsMostSpecific(h, names, signatures, remaining);
    return Success(remaining[0]);
  }

  /** A pass that raises on a pair `([i], [b])` leaves a pair that is not
      comparable, of the kind the error names. */
  lemma {:induction false} PassFailure(h: Hierarchy, names: seq<string>, signatures: map<string, Signature>, i: nat, e: FactoryError)
    requires i < |names| && forall b :: b in signatures <==> b in names
    requires !forall b :: i < b < |names| ==> Comparable(h, signatures[names[i]], signatures[names[b]])
    requires e == Incomparable ==> exists b :: i < b < |names| && NeitherBelow(h, signatures[names[i]], signatures[names[b]])
    requires e == NotAClass ==> exists b :: i < b < |names| && Raises(h, signatures[names[i]], signatures[names[b]])
    ensures !AllComparable(h, names, signatures)
    ensures e == Incomparable ==>
      exists a, b :: IsPair(names, signatures, a, b) && NeitherBelow(h, signatures[names[a]], signatures[names[b]])
    ensures e == NotAClass ==>
      exists a, b :: IsPair(names, signatures, a, b) && Raises(h, signatures[names[a]], signatures[names[b]])
  {
    var b :| i < b < |names| && !Comparable(h, signatures[names[i]], signatures[names[b]]);
    assert IsPair(names, signatures, i, b);
    if e == Incomparable {
      var c :| i < c < |names| && NeitherBelow(h, signatures[names[i]], signatures[names[c]]);
      assert IsPair(names, signatures, i, c);
    }
    if e == NotAClass {
      var c :| i < c < |names| && Raises(h, signatures[names[i]], signatures[names[c]]);
      assert IsPair(names, signatures, i, c);
    }
  }

  /** Dropping candidates keeps the pairs already settled settled. */
  lemma {:induction false} SettledShrinks(h: Hierarchy, names: seq<string>, signatures: map<string, Signature>, before: seq<string>, after: seq<string>, i: nat)
    requires i < |names| && forall b :: b in signatures <==> b in names
    requires AllSettled(h, names, signatures, before, i)
    requires forall y :: y in after ==> y in before
    requires forall b :: i < b < |names| ==> Settled(h, names, signatures, after, i, b)
    ensures AllSettled(h, names, signatures, after, i + 1)
  {
    forall a, b | 0 <= a < i + 1 && a < b < |names|
      ensures Settled(h, names, signatures, after, a, b)
    {
      if a < i {
        assert Settled(h, names, signatures, before, a, b);
      }
    }
  }

  /** Settled pairs are comparable pairs. */
  lemma {:induction false} SettledComparable(h: Hierarchy, names: seq<string>, signatures: map<string, Signature>, remaining: seq<string>)
    requires forall b :: b in signatures <==> b in names
    requires AllSettled(h, names, signatures, remaining, |names|)
    ensures AllComparable(h, names, signatures)
  {
    forall a, b | 0 <= a < b < |names| && IsPair(names, signatures, a, b)
      ensures Comparable(h, signatures[names[a]], signatures[names[b]])
    {
      assert Settled(h, names, signatures, remaining, a, b);
    }
  }

  /** The pairs `([i], [j])` for every `j > i`, in order. It gets through
      exactly when each of these pairs is comparable; otherwise it raises at
      a pair that is not. */
  method EliminateAgainst(h: Hierarchy, names: seq<string>, signatures: map<string, Signature>, remaining: seq<string>, i: nat)
    returns (r: Result<seq<string>, FactoryError>)
    requires i < |names| && forall b :: b in signatures <==> b in names
    requires NoDuplicates(remaining)
    ensures r.Success? ==> NoDuplicates(r.value) && forall y :: y in r.value ==> y in remaining
    ensures r.Success? ==> forall b :: i < b < |names| ==> Settled(h, names, signatures, r.value, i, b)
    ensures r.Success? <==> forall b :: i < b < |names| ==> Comparable(h, signatures[names[i]], signatures[names[b]])
    ensures r == Failure(Incomparable) ==>
      exists b :: i < b < |names| && NeitherBelow(h, signatures[names[i]], signatures[names[b]])
    ensures r == Failure(NotAClass) ==>
      exists b :: i < b < |names| && Raises(h, signatures[names[i]], signatures[names[b]])
    ensures r.Failure? ==> r.error in {Incomparable, NotAClass}
  {
    var kept := remaining;
    for j := i + 1 to |names|
      invariant NoDuplicates(kept) && forall y :: y in kept ==> y in remaining
      invariant forall b :: i < b < j ==> Settled(h, names, signatures, kept, i, b)
    {
      var first := AreSubclass(h, signatures[names[i]], signatures[names[j]]);
      if first.Failure? {
        assert Raises(h, signatures[names[i]], signatures[names[j]]);
        return Failure(first.error);
      }
      ghost var before := kept;
      if first.value {
        kept := Discard(kept, names[j]);
      } else {
        var second := AreSubclass(h, signatures[names[j]], signatures[names[i]]);
        if second.Failure? {
          assert Raises(h, signatures[names[i]], signatures[names[j]]);
          return Failure(second.error);
        }
        if !second.value {
          assert NeitherBelow(h, signatures[names[i]], signatures[names[j]]);
          return Failure(Incomparable);
        }
        kept := Discard(kept, names[i]);
      }
      forall b | i < b < j + 1
        ensures Settled(h, names, signatures, kept, i, b)
      {
        if b < j {
          assert Settled(h, names, signatures, before, i, b);
        }
      }
    }
    assert forall b :: i < b < |names| ==> Comparable(h, signatures[names[i]], signatures[names[b]]) by {
      forall b | i < b < |names| ensures Comparable(h, signatures[names[i]], signatures[names[b]]) {
        assert Settled(h, names, signatures, kept, i, b);
      }
    }
    return Success(kept);
  }

  /** After every pair has been compared, a backend left alone lies below
      every other eligible backend. */
  lemma {:induction false} SurvivorIsMostSpecific(h: Hierarchy, names: seq<string>, signatures: map<string, Signature>, remaining: seq<string>)
    requires forall b :: b in signatures <==> b in names
    requires |remaining| == 1 && remaining[0] in names
    requires AllSettled(h, names, signatures, remaining, |names|)
    ensures MostSpecific(h, remaining[0], signatures)
  {
    var backend := remaining[0];
    assert backend in remaining;
    forall b | b in signatures && b != backend
      ensures AreSubclass(h, signatures[backend], signatures[b]) == Success(true)
    {
      var k :| 0 <= k < |names| && names[k] == backend;
      var l :| 0 <= l < |names| && names[l] == b;
      if k < l {
        assert Settled(h, names, signatures, remaining, k, l);
      } else {
        assert Settled(h, names, signatures, remaining, l, k);
      }
    }
  }

  // ---------------------------------------------------------------------------
  // Online names

  predicate IsUpper(c: char) {
    'A' <= c <= 'Z'
  }

  /** The name under which the online module exposes a selector: `Online`
      before a class name, which may not hold `_`, and `online_` before any
      other name. */
  function OnlineName(name: string): (r: Result<string, FactoryError>)
    ensures r == Failure(EmptyName) <==> |name| == 0
    ensures r == Failure(UnderscoreInClassName) <==> |name| > 0 && IsUpper(name[0]) && '_' in name
    ensures r.Success? ==> |r.value| > |name| && r.value[|r.value| - |name|..] == name
  {
    if |name| == 0 then Failure(EmptyName)
    else if IsUpper(name[0]) then
      if '_' in name then Failure(UnderscoreInClassName) else Success("Online" + name)
    else Success("online_" + name)
  }

  /** The name an online name was made from. */
  function OfflineName(online: string): Option<string> {
    if |online| > 6 && online[..6] == "Online" && IsUpper(online[6]) && '_' !in online then Some(online[6..])
    else if |online| > 7 && online[..7] == "online_" && !IsUpper(online[7]) then Some(online[7..])
    else None
  }

  /** Every accepted name is recovered from its online name. */
  lemma {:induction false} OnlineNameRoundTrip(name: string)
    requires OnlineName(name).Success?
    ensures OfflineName(OnlineName(name).value) == Some(name)
  {
    var online := OnlineName(name).value;
    if IsUpper(name[0]) {
      assert online[..6] == "Online" && online[6..] == name;
      assert online[6] == name[0];
      assert '_' !in online by {
        forall k | 0 <= k < |online| ensures online[k] != '_' {
          if k >= 6 {
            assert online[k] == name[k - 6];
          }
        }
      }
    } else {
      assert online[..6] != "Online" by {
        assert online[1] == 'n' && "Online"[1] == 'n' && online[0] != "Online"[0];
      }
      assert online[..7] == "online_" && online[7..] == name;
      assert online[7] == name[0];
    }
  }

  /** Distinct accepted names get distinct online names. */
  lemma {:induction false} OnlineNameInjective(a: string, b: string)
    requires OnlineName(a).Success? && OnlineName(b).Success? && a != b
    ensures OnlineName(a).value != OnlineName(b).value
  {
    OnlineNameRoundTrip(a);
    OnlineNameRoundTrip(b);
  }
}
