/**
 * What `match_any` computes, stated against reference definitions that do
 * not follow the evaluator's own recursion: element-wise results for the
 * per-element operators, the first non-`None` child for `not_null`, the
 * last binding for `merge` and `multi_dict`, and a sorted, stable
 * permutation for `sort_by`.
 */
module EvaluatorProps {
  import opened Wrappers
  import opened Values
  import opened Checks
  import opened SortKeys
  import Nodes
  import EvalOps
  import opened Evaluator
  import Slicing

  /** `into_lit`: a host value becomes a literal that evaluates to that value on any input. */
  lemma IntoLitEvaluates(o: Nodes.HostObject, v: Value)
    ensures o.PlainObject? ==> MatchAny(Nodes.IntoLit(o), v) == Ok(o.obj)
    ensures o.ExprObject? ==> MatchAny(Nodes.IntoLit(o), v) == MatchAny(o.node, v)
  {
  }

  /**
   * An operator applied to a base of the wrong type gives `None`, whatever
   * the operator; an error of the base is the error of the whole node.
   */
  lemma WrongTypeGivesNull(base: Node, v: Value)
    ensures MatchAny(base, v).Err? ==>
      (forall op :: MatchAny(Nodes.List(base, op), v) == Err(MatchAny(base, v).error)) &&
      (forall op :: MatchAny(Nodes.Str(base, op), v) == Err(MatchAny(base, v).error)) &&
      (forall op :: MatchAny(Nodes.Struct(base, op), v) == Err(MatchAny(base, v).error)) &&
      (forall op :: MatchAny(Nodes.Scalar(base, op), v) == Err(MatchAny(base, v).error))
    ensures MatchAny(base, v).Ok? && !(MatchAny(base, v).value.List? || MatchAny(base, v).value.Tuple?) ==>
      forall op :: MatchAny(Nodes.List(base, op), v) == Ok(Null)
    ensures MatchAny(base, v).Ok? && !MatchAny(base, v).value.Str? ==>
      forall op :: MatchAny(Nodes.Str(base, op), v) == Ok(Null)
    ensures MatchAny(base, v).Ok? && !MatchAny(base, v).value.Dict? ==>
      forall op :: MatchAny(Nodes.Struct(base, op), v) == Ok(Null)
    ensures MatchAny(base, v).Ok? && !(MatchAny(base, v).value.Int? || MatchAny(base, v).value.Float?) ==>
      forall op :: MatchAny(Nodes.Scalar(base, op), v) == Ok(Null)
  {
  }

  /**
   * A tuple passes the list guard, so list operators apply to it, but
   * `flatten` and the `*_by` operators downcast it to a `PyList`, which
   * raises TypeError.
   */
  lemma TupleBase(base: Node, v: Value, key: Node)
    requires MatchAny(base, v).Ok? && MatchAny(base, v).value.Tuple?
    ensures MatchAny(Nodes.List(base, Nodes.ListOp.Flatten), v) == Err(NotAPyList)
    ensures MatchAny(Nodes.List(base, Nodes.ListOp.SortBy(key)), v) == Err(NotAPyList)
    ensures MatchAny(Nodes.List(base, Nodes.ListOp.MinBy(key)), v) == Err(NotAPyList)
    ensures MatchAny(Nodes.List(base, Nodes.ListOp.MaxBy(key)), v) == Err(NotAPyList)
  {
    ListNodeStep(base, v, Nodes.ListOp.Flatten);
    ListNodeStep(base, v, Nodes.ListOp.SortBy(key));
    ListNodeStep(base, v, Nodes.ListOp.MinBy(key));
    ListNodeStep(base, v, Nodes.ListOp.MaxBy(key));
  }

  /** Slicing and reversing a tuple base keep it a tuple. */
  lemma TupleBaseKeepsKind(base: Node, v: Value, step: Option<Nodes.Isize>)
    requires MatchAny(base, v).Ok? && MatchAny(base, v).value.Tuple?
    ensures step != Some(0) ==>
      MatchAny(Nodes.List(base, Nodes.ListOp.Slice(None, None, step)), v).Ok? &&
      MatchAny(Nodes.List(base, Nodes.ListOp.Slice(None, None, step)), v).value.Tuple?
    ensures |MatchAny(base, v).value.items| <= Nodes.ISIZE_MAX ==>
      MatchAny(Nodes.List(base, Nodes.ListOp.Reverse), v) == Ok(Tuple(Slicing.Reversed(MatchAny(base, v).value.items)))
  {
    ListNodeStep(base, v, Nodes.ListOp.Slice(None, None, step));
    ListNodeStep(base, v, Nodes.ListOp.Reverse);
  }

  /** A list operator on a base that evaluates to a list or tuple is that operator applied to it. */
  lemma ListNodeStep(base: Node, v: Value, op: Nodes.ListOp)
    requires MatchAny(base, v).Ok? && IsList(MatchAny(base, v).value)
    ensures MatchAny(Nodes.List(base, op), v) == MatchListOp(v, MatchAny(base, v).value, op)
  {
  }

  /** The result a comparison operator gives for two evaluated operands. */
  function Compared(op: Nodes.ComparisonOp, l: Value, r: Value): bool {
    match op
    case Eq(_) => EqSemantics(l, r)
    case Ne(_) => !EqSemantics(l, r)
    case Lt(_) => IsNumber(l) && IsNumber(r) && NumVal(l) < NumVal(r)
    case Le(_) => IsNumber(l) && IsNumber(r) && NumVal(l) <= NumVal(r)
    case Gt(_) => IsNumber(l) && IsNumber(r) && NumVal(l) > NumVal(r)
    case Ge(_) => IsNumber(l) && IsNumber(r) && NumVal(l) >= NumVal(r)
  }

  /**
   * A comparison evaluates both sides against the same input and gives a
   * bool: equality by `eq_semantics`, orderings on numbers only.
   */
  lemma CompareSemantics(base: Node, op: Nodes.ComparisonOp, v: Value)
    ensures MatchAny(base, v).Err? ==> MatchAny(Nodes.Compare(base, op), v) == Err(MatchAny(base, v).error)
    ensures MatchAny(base, v).Ok? && MatchAny(op.Rhs(), v).Err? ==>
      MatchAny(Nodes.Compare(base, op), v) == Err(MatchAny(op.Rhs(), v).error)
    ensures MatchAny(base, v).Ok? && MatchAny(op.Rhs(), v).Ok? ==>
      MatchAny(Nodes.Compare(base, op), v) == Ok(Bool(Compared(op, MatchAny(base, v).value, MatchAny(op.Rhs(), v).value)))
  {
  }

  /** `==` and `!=` do not depend on the order of their operands. */
  lemma EqualityIsSymmetric(a: Node, b: Node, v: Value)
    requires MatchAny(a, v).Ok? && MatchAny(b, v).Ok?
    requires WellFormed(MatchAny(a, v).value) && WellFormed(MatchAny(b, v).value)
    ensures MatchAny(Nodes.Compare(a, Nodes.Eq(b)), v) == MatchAny(Nodes.Compare(b, Nodes.Eq(a)), v)
    ensures MatchAny(Nodes.Compare(a, Nodes.Ne(b)), v) == MatchAny(Nodes.Compare(b, Nodes.Ne(a)), v)
  {
    EqSemanticsSymmetric(MatchAny(a, v).value, MatchAny(b, v).value);
  }

  /** `a < b` is `b > a` and `a <= b` is `b >= a`. */
  lemma OrderingConverse(a: Node, b: Node, v: Value)
    requires MatchAny(a, v).Ok? && MatchAny(b, v).Ok?
    ensures MatchAny(Nodes.Compare(a, Nodes.Lt(b)), v) == MatchAny(Nodes.Compare(b, Nodes.Gt(a)), v)
    ensures MatchAny(Nodes.Compare(a, Nodes.Le(b)), v) == MatchAny(Nodes.Compare(b, Nodes.Ge(a)), v)
  {
    var x, y := MatchAny(a, v).value, MatchAny(b, v).value;
    EvalOps.CmpBoolConverse(x, y);
    assert MatchAny(Nodes.Compare(a, Nodes.Lt(b)), v) == Ok(EvalOps.CmpBool(x, y, EvalOps.Lt));
    assert MatchAny(Nodes.Compare(b, Nodes.Gt(a)), v) == Ok(EvalOps.CmpBool(y, x, EvalOps.Gt));
    assert MatchAny(Nodes.Compare(a, Nodes.Le(b)), v) == Ok(EvalOps.CmpBool(x, y, EvalOps.Le));
    assert MatchAny(Nodes.Compare(b, Nodes.Ge(a)), v) == Ok(EvalOps.CmpBool(y, x, EvalOps.Ge));
  }

  /** `and` is truthy exactly when both operands are; the right one is evaluated only after a truthy left. */
  lemma AndTruthiness(a: Node, b: Node, v: Value)
    ensures MatchAny(Nodes.And(a, b), v).Ok? <==>
      MatchAny(a, v).Ok? && (!IsTruthy(MatchAny(a, v).value) || MatchAny(b, v).Ok?)
    ensures MatchAny(Nodes.And(a, b), v).Ok? ==>
      (IsTruthy(MatchAny(Nodes.And(a, b), v).value) <==> IsTruthy(MatchAny(a, v).value) && IsTruthy(MatchAny(b, v).value))
  {
  }

  /** `or` is truthy exactly when one operand is; the right one is evaluated only after a falsy left. */
  lemma OrTruthiness(a: Node, b: Node, v: Value)
    ensures MatchAny(Nodes.Or(a, b), v).Ok? <==>
      MatchAny(a, v).Ok? && (IsTruthy(MatchAny(a, v).value) || MatchAny(b, v).Ok?)
    ensures MatchAny(Nodes.Or(a, b), v).Ok? ==>
      (IsTruthy(MatchAny(Nodes.Or(a, b), v).value) <==> IsTruthy(MatchAny(a, v).value) || IsTruthy(MatchAny(b, v).value))
  {
  }

  /** `not` on an evaluated operand: its negated truthiness, or the operand's error. */
  lemma NotOf(x: Node, v: Value)
    ensures MatchAny(Nodes.Not(x), v) ==
      match MatchAny(x, v) case Err(e) => Err(e) case Ok(y) => Ok(Bool(!IsTruthy(y)))
  {
  }

  /** De Morgan's laws hold exactly, errors and evaluation order included. */
  lemma DeMorgan(a: Node, b: Node, v: Value)
    ensures MatchAny(Nodes.Not(Nodes.And(a, b)), v) == MatchAny(Nodes.Or(Nodes.Not(a), Nodes.Not(b)), v)
    ensures MatchAny(Nodes.Not(Nodes.Or(a, b)), v) == MatchAny(Nodes.And(Nodes.Not(a), Nodes.Not(b)), v)
  {
    NotOf(a, v);
    NotOf(b, v);
    NotOf(Nodes.And(a, b), v);
    NotOf(Nodes.Or(a, b), v);
    assert MatchAny(Nodes.Or(Nodes.Not(a), Nodes.Not(b)), v) == EvalOr(v, Nodes.Not(a), Nodes.Not(b));
    assert MatchAny(Nodes.And(Nodes.Not(a), Nodes.Not(b)), v) == EvalAnd(v, Nodes.Not(a), Nodes.Not(b));
    assert MatchAny(Nodes.And(a, b), v) == EvalAnd(v, a, b);
    assert MatchAny(Nodes.Or(a, b), v) == EvalOr(v, a, b);
  }

  /** `not` always gives a bool, and two of them give the operand's truthiness. */
  lemma DoubleNegation(x: Node, v: Value)
    ensures MatchAny(Nodes.Not(x), v).Ok? ==> MatchAny(Nodes.Not(x), v).value.Bool?
    ensures MatchAny(x, v).Ok? ==> MatchAny(Nodes.Not(Nodes.Not(x)), v) == Ok(Bool(IsTruthy(MatchAny(x, v).value)))
  {
    NotOf(x, v);
    NotOf(Nodes.Not(x), v);
  }

  /** The `n` results of `key` applied to each of the first `n` elements, when none fails. */
  predicate AllSucceed(key: Node, xs: seq<Value>, n: nat)
    requires n <= |xs|
  {
    forall i | 0 <= i < n :: MatchAny(key, xs[i]).Ok?
  }

  lemma AllSucceedNext(key: Node, xs: seq<Value>, n: nat)
    requires 0 < n <= |xs|
    ensures AllSucceed(key, xs, n) <==> AllSucceed(key, xs, n - 1) && MatchAny(key, xs[n - 1]).Ok?
  {
  }

  /** `list_map` gives, in order, the key result of each element, and fails exactly when one of them fails. */
  lemma {:induction false} MappedElementwise(key: Node, xs: seq<Value>, n: nat)
    requires n <= |xs|
    ensures Mapped(key, xs, n).Ok? <==> AllSucceed(key, xs, n)
    ensures Mapped(key, xs, n).Ok? ==> forall i | 0 <= i < n :: Mapped(key, xs, n).value[i] == MatchAny(key, xs[i]).value
  {
    if n > 0 {
      MappedElementwise(key, xs, n - 1);
      AllSucceedNext(key, xs, n);
      var prev, y := Mapped(key, xs, n - 1), MatchAny(key, xs[n - 1]);
      if prev.Err? {
        MappedErrNext(key, xs, n - 1);
      } else {
        MappedNext(key, xs, n - 1, prev.value);
        if y.Ok? {
          var r := prev.value + [y.value];
          forall i | 0 <= i < n ensures r[i] == MatchAny(key, xs[i]).value {
            if i < n - 1 {
              assert r[i] == prev.value[i];
            }
          }
        }
      }
    }
  }

  /** Keeps `xs[i]` exactly when `cs[i]` is truthy, in order. */
  function Select(xs: seq<Value>, cs: seq<Value>): (r: seq<Value>)
    requires |xs| == |cs|
    ensures |r| <= |xs|
  {
    if xs == [] then []
    else (if IsTruthy(cs[0]) then [xs[0]] else []) + Select(xs[1..], cs[1..])
  }

  lemma {:induction false} SelectSnoc(xs: seq<Value>, cs: seq<Value>, x: Value, c: Value)
    requires |xs| == |cs|
    ensures Select(xs + [x], cs + [c]) == Select(xs, cs) + (if IsTruthy(c) then [x] else [])
  {
    if xs != [] {
      assert (xs + [x])[1..] == xs[1..] + [x];
      assert (cs + [c])[1..] == cs[1..] + [c];
      SelectSnoc(xs[1..], cs[1..], x, c);
    }
  }

  /**
   * `list_filter` keeps exactly the elements whose condition result is
   * truthy, in order, and fails exactly when `list_map` of the condition
   * fails, with the same error.
   */
  lemma {:induction false} FilterIsSelect(cond: Node, xs: seq<Value>, n: nat)
    requires n <= |xs|
    ensures Filtered(cond, xs, n).Ok? <==> Mapped(cond, xs, n).Ok?
    ensures Filtered(cond, xs, n).Err? ==> Filtered(cond, xs, n).error == Mapped(cond, xs, n).error
    ensures Filtered(cond, xs, n).Ok? ==> Filtered(cond, xs, n).value == Select(xs[..n], Mapped(cond, xs, n).value)
  {
    if n > 0 {
      FilterIsSelect(cond, xs, n - 1);
      if Filtered(cond, xs, n).Ok? {
        assert xs[..n] == xs[..n - 1] + [xs[n - 1]];
        SelectSnoc(xs[..n - 1], Mapped(cond, xs, n - 1).value, xs[n - 1], MatchAny(cond, xs[n - 1]).value);
      }
    }
  }

  /** `multi_list` gives the result of each expression on the same input, in order. */
  lemma {:induction false} MultiListElementwise(v: Value, items: seq<Node>, n: nat)
    requires n <= |items|
    ensures MultiListPrefix(v, items, n).Ok? <==> forall i | 0 <= i < n :: MatchAny(items[i], v).Ok?
    ensures MultiListPrefix(v, items, n).Ok? ==>
      forall i | 0 <= i < n :: MultiListPrefix(v, items, n).value[i] == MatchAny(items[i], v).value
  {
    if n > 0 {
      MultiListElementwise(v, items, n - 1);
    }
  }

  /**
   * `not_null` gives `None` exactly when every child gives `None`, and
   * otherwise the first child result that is not `None`.
   */
  lemma {:induction false} NotNullIsFirst(v: Value, items: seq<Node>, n: nat)
    requires n <= |items| && NotNullPrefix(v, items, n).Ok?
    ensures NotNullPrefix(v, items, n).value.Null? <==> forall j | 0 <= j < n :: MatchAny(items[j], v) == Ok(Null)
    ensures !NotNullPrefix(v, items, n).value.Null? ==>
      exists i | 0 <= i < n :: MatchAny(items[i], v) == NotNullPrefix(v, items, n) &&
        forall j | 0 <= j < i :: MatchAny(items[j], v) == Ok(Null)
  {
    if n > 0 {
      NotNullIsFirst(v, items, n - 1);
      var earlier := NotNullPrefix(v, items, n - 1).value;
      if earlier.Null? {
        if !NotNullPrefix(v, items, n).value.Null? {
          assert MatchAny(items[n - 1], v) == NotNullPrefix(v, items, n);
        }
      }
    }
  }

  /** A child that evaluates to something other than a dict. */
  predicate NotADict(v: Value, child: Node) {
    MatchAny(child, v).Ok? && !MatchAny(child, v).value.Dict?
  }

  /** The value under `k` of the last child dict among the first `n` that has `k`. */
  function MergedLookup(v: Value, items: seq<Node>, n: nat, k: string): Option<Value>
    requires n <= |items|
  {
    if n == 0 then None
    else
      match MatchAny(items[n - 1], v)
      case Ok(Dict(e)) => if Lookup(e, k).Some? then LookupLast(e, k) else MergedLookup(v, items, n - 1, k)
      case _ => MergedLookup(v, items, n - 1, k)
  }

  /** One step of `merge`: the fold so far, updated with the next child when both are dicts. */
  lemma MergeStepOf(v: Value, items: seq<Node>, n: nat)
    requires 0 < n <= |items| && MergePrefix(v, items, n).Ok?
    ensures MergePrefix(v, items, n - 1).Ok?
    ensures MergePrefix(v, items, n - 1).value.None? ==> MergePrefix(v, items, n).value.None?
    ensures MergePrefix(v, items, n - 1).value.Some? ==> MatchAny(items[n - 1], v).Ok?
    ensures MergePrefix(v, items, n - 1).value.Some? ==> (
      MergePrefix(v, items, n).value ==
        if MatchAny(items[n - 1], v).value.Dict?
        then Some(DictUpdate(MergePrefix(v, items, n - 1).value.value, MatchAny(items[n - 1], v).value.entries))
        else None)
  {
  }

  /** `merge` gives `None` exactly when some child is not a dict. */
  lemma {:induction false} MergeNoneIffNotADict(v: Value, items: seq<Node>, n: nat)
    requires n <= |items| && MergePrefix(v, items, n).Ok?
    ensures MergePrefix(v, items, n).value.None? <==> exists j | 0 <= j < n :: NotADict(v, items[j])
  {
    if n > 0 {
      MergeStepOf(v, items, n);
      MergeNoneIffNotADict(v, items, n - 1);
      if MergePrefix(v, items, n - 1).value.Some? && !MatchAny(items[n - 1], v).value.Dict? {
        assert NotADict(v, items[n - 1]);
      }
    }
  }

  /**
   * When every child is a dict, `merge` gives a dict with distinct keys in
   * which every key has its value in the last child dict that has it.
   */
  lemma {:induction false} MergeIsLastBinding(v: Value, items: seq<Node>, n: nat, k: string)
    requires n <= |items| && MergePrefix(v, items, n).Ok? && MergePrefix(v, items, n).value.Some?
    ensures UniqueKeys(MergePrefix(v, items, n).value.value)
    ensures Lookup(MergePrefix(v, items, n).value.value, k) == MergedLookup(v, items, n, k)
  {
    if n > 0 {
      MergeStepOf(v, items, n);
      MergeIsLastBinding(v, items, n - 1, k);
      var d := MergePrefix(v, items, n - 1).value.value;
      var e := MatchAny(items[n - 1], v).value;
      DictUpdateUnique(d, e.entries);
      DictUpdateLookup(d, e.entries, k);
    }
  }

  /** The result of the last entry under `k` among the first `n` of a `multi_dict`. */
  function LastBinding(v: Value, items: seq<(string, Node)>, n: nat, k: string): Option<Value>
    requires n <= |items|
  {
    if n == 0 then None
    else if items[n - 1].0 == k then
      match MatchAny(items[n - 1].1, v)
      case Ok(y) => Some(y)
      case Err(_) => None
    else LastBinding(v, items, n - 1, k)
  }

  /** `multi_dict` builds a dict with distinct keys in which each key has the result of its last entry. */
  lemma {:induction false} MultiDictIsLastBinding(v: Value, items: seq<(string, Node)>, n: nat, k: string)
    requires n <= |items| && MultiDictPrefix(v, items, n).Ok?
    ensures UniqueKeys(MultiDictPrefix(v, items, n).value)
    ensures Lookup(MultiDictPrefix(v, items, n).value, k) == LastBinding(v, items, n, k)
  {
    if n > 0 {
      MultiDictIsLastBinding(v, items, n - 1, k);
      var d := MultiDictPrefix(v, items, n - 1).value;
      var y := MatchAny(items[n - 1].1, v).value;
      DictSetUnique(d, items[n - 1].0, y);
      DictSetLookup(d, items[n - 1].0, y, k);
    }
  }

  /** Each pair of `list_sort_like` carries the sort key of its element's key result. */
  lemma {:induction false} KeyedPairsKeys(key: Node, xs: seq<Value>, n: nat)
    requires n <= |xs| && KeyedPairs(key, xs, n).Ok?
    ensures AllSucceed(key, xs, n)
    ensures forall i | 0 <= i < n :: KeyedPairs(key, xs, n).value[i] == (KeyOf(MatchAny(key, xs[i]).value), xs[i])
  {
    if n > 0 {
      KeyedPairsKeys(key, xs, n - 1);
    }
  }

  /** The pairs a stable sort produces carry the same keys as the pairs they came from. */
  lemma SortedPairsKeys(key: Node, xs: seq<Value>, pairs: seq<Keyed<Value>>, sorted: seq<Keyed<Value>>)
    requires |pairs| == |xs| && multiset(sorted) == multiset(pairs)
    requires forall i | 0 <= i < |xs| :: MatchAny(key, xs[i]).Ok? && pairs[i] == (KeyOf(MatchAny(key, xs[i]).value), xs[i])
    ensures forall i | 0 <= i < |sorted| :: MatchAny(key, sorted[i].1).Ok? && sorted[i].0 == KeyOf(MatchAny(key, sorted[i].1).value)
  {
    forall i | 0 <= i < |sorted|
      ensures MatchAny(key, sorted[i].1).Ok? && sorted[i].0 == KeyOf(MatchAny(key, sorted[i].1).value)
    {
      assert sorted[i] in multiset(pairs);
      var j :| 0 <= j < |pairs| && pairs[j] == sorted[i];
    }
  }

  /**
   * `sort_by` reorders the elements into an order of the keyed pairs that is
   * a permutation of them, sorted by key and stable: elements with the same
   * key keep their relative order.
   */
  lemma SortByIsStableSort(xs: seq<Value>, key: Node) returns (sorted: seq<Keyed<Value>>)
    requires SortLike(xs, key, SortBy).Ok?
    ensures SortLike(xs, key, SortBy) == Ok(List(Payloads(sorted)))
    ensures multiset(Payloads(sorted)) == multiset(xs)
    ensures SortedByKey(sorted)
    ensures forall i | 0 <= i < |sorted| :: MatchAny(key, sorted[i].1).Ok? && sorted[i].0 == KeyOf(MatchAny(key, sorted[i].1).value)
    ensures KeyedPairs(key, xs, |xs|).Ok?
    ensures forall k :: WithKey(sorted, k) == WithKey(KeyedPairs(key, xs, |xs|).value, k)
  {
    var pairs := KeyedPairs(key, xs, |xs|).value;
    KeyedPairsKeys(key, xs, |xs|);
    sorted := StableSort(pairs);
    StableSortSorted(pairs);
    StableSortPayloads(pairs);
    assert Payloads(pairs) == xs;
    forall k | true ensures WithKey(sorted, k) == WithKey(pairs, k) {
      StableSortStable(pairs, k);
    }
    SortedPairsKeys(key, xs, pairs, sorted);
  }

  /** The sort key of `x` under `key`, where `key` does not fail on `x`. */
  function SortKeyOf(key: Node, x: Value): SortKey
    requires MatchAny(key, x).Ok?
  {
    KeyOf(MatchAny(key, x).value)
  }

  lemma SortLikePicks(xs: seq<Value>, key: Node)
    requires KeyedPairs(key, xs, |xs|).Ok?
    ensures var pairs := KeyedPairs(key, xs, |xs|).value;
      SortLike(xs, key, MinBy) == (if |pairs| == 0 then Ok(Null) else Ok(pairs[MinIndex(pairs, |pairs|)].1)) &&
      SortLike(xs, key, MaxBy) == (if |pairs| == 0 then Ok(Null) else Ok(pairs[MaxIndex(pairs, |pairs|)].1))
  {
  }

  /**
   * `min_by` gives `None` for an empty list and otherwise the first element
   * whose key is minimal; `max_by` the last element whose key is maximal.
   */
  lemma MinByMaxBy(xs: seq<Value>, key: Node) returns (lo: nat, hi: nat)
    requires KeyedPairs(key, xs, |xs|).Ok?
    ensures AllSucceed(key, xs, |xs|)
    ensures xs == [] ==> SortLike(xs, key, MinBy) == Ok(Null) && SortLike(xs, key, MaxBy) == Ok(Null)
    ensures xs != [] ==> (
      lo < |xs| && SortLike(xs, key, MinBy) == Ok(xs[lo]) &&
      (forall j | 0 <= j < |xs| :: !KeyLt(SortKeyOf(key, xs[j]), SortKeyOf(key, xs[lo]))) &&
      (forall j | 0 <= j < lo :: KeyLt(SortKeyOf(key, xs[lo]), SortKeyOf(key, xs[j]))))
    ensures xs != [] ==> (
      hi < |xs| && SortLike(xs, key, MaxBy) == Ok(xs[hi]) &&
      (forall j | 0 <= j < |xs| :: !KeyLt(SortKeyOf(key, xs[hi]), SortKeyOf(key, xs[j]))) &&
      (forall j | hi < j < |xs| :: KeyLt(SortKeyOf(key, xs[j]), SortKeyOf(key, xs[hi]))))
  {
    var pairs := KeyedPairs(key, xs, |xs|).value;
    KeyedPairsKeys(key, xs, |xs|);
    if xs == [] {
      SortLikePicks(xs, key);
      lo, hi := 0, 0;
    } else {
      lo := MinIndex(pairs, |pairs|);
      hi := MaxIndex(pairs, |pairs|);
      MinIndexIsFirstMinimum(pairs, |pairs|);
      MaxIndexIsLastMaximum(pairs, |pairs|);
      SortLikePicks(xs, key);
    }
  }
}
