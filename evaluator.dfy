/**
 * `match_any` and its dispatchers (`src/matchs.rs`), with the operators of
 * `src/eval.rs` that evaluate sub-expressions. Evaluation either produces a
 * value or one of the host errors in `Wrappers.Error`; a wrong type never
 * fails, it gives `None` (`Null`) or `false`.
 *
 * Every call back into `MatchAny` is on a strict subterm of the node being
 * evaluated: the `decreases` clauses below are that argument.
 */
module Evaluator {
  import opened Wrappers
  import opened Values
  import opened Checks
  import opened SortKeys
  import Nodes
  import EvalOps
  import Aggregates

  type Node = Nodes.Node

  /** The three uses `list_sort_like` makes of its keyed pairs. */
  datatype SortKind = SortBy | MinBy | MaxBy

  /** A list of values, or the error that stopped it, as an evaluation result. */
  function AsList(r: Result<seq<Value>>): (v: Result<Value>)
    ensures v.Ok? <==> r.Ok?
  {
    match r
    case Ok(xs) => Ok(List(xs))
    case Err(e) => Err(e)
  }

  /** A dict, or the error that stopped it, as an evaluation result. */
  function AsDict(r: Result<seq<(string, Value)>>): (v: Result<Value>)
    ensures v.Ok? <==> r.Ok?
  {
    match r
    case Ok(d) => Ok(Dict(d))
    case Err(e) => Err(e)
  }

  /** `match_any`: evaluates `node` against the input `v`. */
  function MatchAny(node: Node, v: Value): (r: Result<Value>)
    decreases node, 2
  {
    match node
    case This => Ok(v)
    case Literal(obj) => Ok(obj)
    case And(a, b) => EvalAnd(v, a, b)
    case Or(a, b) => EvalOr(v, a, b)
    case Not(x) => EvalNot(v, x)
    case Coalesce(items) => NotNullPrefix(v, items, |items|)
    case Merge(items) =>
      var merged :- MergePrefix(v, items, |items|);
      Ok(match merged case Some(d) => Dict(d) case None => Null)
    case List(base, op) =>
      var b :- MatchAny(base, v);
      if !IsList(b) then Ok(Null) else MatchListOp(v, b, op)
    case Str(base, op) =>
      var b :- MatchAny(base, v);
      if !IsString(b) then Ok(Null) else MatchStrOp(v, b.s, op)
    case Struct(base, op) =>
      var b :- MatchAny(base, v);
      if !IsObject(b) then Ok(Null) else Ok(MatchStructOp(b.entries, op))
    case Scalar(base, op) =>
      var b :- MatchAny(base, v);
      if !IsNumber(b) then Ok(Null) else Ok(MatchScalarOp(b, op))
    case Compare(base, op) => MatchComparisonOp(v, base, op)
  }

  /**
   * `match_list_op` on a list or tuple `list`: `Contains` and `Join` evaluate
   * their operand against the input `v`; `Flatten` and the `*By` operations
   * downcast `list` to a `PyList` first.
   */
  function MatchListOp(v: Value, list: Value, op: Nodes.ListOp): (r: Result<Value>)
    requires IsList(list)
    decreases op, 1
  {
    var xs := list.items;
    match op
    case Index(i) => Ok(EvalOps.ListIndex(xs, i))
    case Slice(start, end, step) => EvalOps.ListSlice(list, start, end, step)
    case Length => Ok(EvalOps.Length(list))
    case Reverse => EvalOps.ListReverse(list)
    case Flatten =>
      var ys :- DowncastList(list);
      Ok(List(Aggregates.Flattened(ys)))
    case Contains(search) =>
      var target :- MatchAny(search, v);
      Ok(Bool(Aggregates.Includes(xs, target)))
    case Filter(cond) => AsList(Filtered(cond, xs, |xs|))
    case Map(key) => AsList(Mapped(key, xs, |xs|))
    case Join(glue) =>
      var g :- MatchAny(glue, v);
      Aggregates.JoinOf(g, xs)
    case Sort => Aggregates.SortedOf(xs)
    case Max => Ok(Aggregates.MinMaxOf(xs, true))
    case Min => Ok(Aggregates.MinMaxOf(xs, false))
    case Sum => Ok(Aggregates.SumOf(xs))
    case Avg => Ok(Aggregates.AverageOf(xs))
    case SortBy(key) =>
      var ys :- DowncastList(list);
      SortLike(ys, key, SortKind.SortBy)
    case MinBy(key) =>
      var ys :- DowncastList(list);
      SortLike(ys, key, SortKind.MinBy)
    case MaxBy(key) =>
      var ys :- DowncastList(list);
      SortLike(ys, key, SortKind.MaxBy)
  }

  /** `match_str_op`: the needle, prefix and suffix are evaluated against the input `v`. */
  function MatchStrOp(v: Value, s: string, op: Nodes.StrOp): (r: Result<Value>)
    decreases op, 1
  {
    match op
    case Slice(start, end, step) => EvalOps.StrSlice(s, start, end, step)
    case Reverse => Ok(EvalOps.StrReverse(s))
    case Contains(needle) =>
      var t :- MatchAny(needle, v);
      Ok(EvalOps.StrContains(s, t))
    case StartsWith(prefix) =>
      var t :- MatchAny(prefix, v);
      Ok(EvalOps.StartsWith(s, t))
    case EndsWith(suffix) =>
      var t :- MatchAny(suffix, v);
      Ok(EvalOps.EndsWith(s, t))
    case Length => Ok(EvalOps.Length(Str(s)))
  }

  /** `match_struct_op`. */
  function MatchStructOp(d: seq<(string, Value)>, op: Nodes.StructOp): (r: Value) {
    match op
    case Field(name) => EvalOps.Field(d, name)
    case Keys => EvalOps.DictKeys(d)
    case Values => EvalOps.DictValues(d)
  }

  /** `match_scalar_op`. */
  function MatchScalarOp(x: Value, op: Nodes.ScalarOp): (r: Value)
    requires IsNumeric(x)
  {
    match op
    case Abs => EvalOps.Abs(x)
    case Ceil => EvalOps.Ceil(x)
    case Floor => EvalOps.Floor(x)
  }

  /** `match_comparison_op`: both sides are evaluated against the same input, left first. */
  function MatchComparisonOp(v: Value, base: Node, op: Nodes.ComparisonOp): (r: Result<Value>)
    decreases Nodes.Compare(base, op), 1
  {
    var left :- MatchAny(base, v);
    var right :- MatchAny(op.Rhs(), v);
    match op
    case Eq(_) => Ok(EvalOps.Eq(left, right))
    case Ne(_) => Ok(EvalOps.Ne(left, right))
    case Lt(_) => Ok(EvalOps.CmpBool(left, right, EvalOps.Lt))
    case Le(_) => Ok(EvalOps.CmpBool(left, right, EvalOps.Le))
    case Gt(_) => Ok(EvalOps.CmpBool(left, right, EvalOps.Gt))
    case Ge(_) => Ok(EvalOps.CmpBool(left, right, EvalOps.Ge))
  }

  /** `and`: the left value when it is falsy, otherwise the right value. */
  function EvalAnd(v: Value, a: Node, b: Node): (r: Result<Value>)
    decreases Nodes.And(a, b), 1
  {
    var left :- MatchAny(a, v);
    if IsTruthy(left) then MatchAny(b, v) else Ok(left)
  }

  /** `or`: the left value when it is truthy, otherwise the right value. */
  function EvalOr(v: Value, a: Node, b: Node): (r: Result<Value>)
    decreases Nodes.Or(a, b), 1
  {
    var left :- MatchAny(a, v);
    if IsTruthy(left) then Ok(left) else MatchAny(b, v)
  }

  /** `not`: the negated truthiness, as a bool. */
  function EvalNot(v: Value, x: Node): (r: Result<Value>)
    decreases Nodes.Not(x), 1
  {
    var operand :- MatchAny(x, v);
    Ok(Bool(!IsTruthy(operand)))
  }

  /** `not_null` over the first `n` children: the first result that is not `None`. */
  function NotNullPrefix(v: Value, items: seq<Node>, n: nat): (r: Result<Value>)
    requires n <= |items|
    decreases Nodes.Coalesce(items), 1, n
  {
    if n == 0 then Ok(Null)
    else
      var earlier :- NotNullPrefix(v, items, n - 1);
      if !earlier.Null? then Ok(earlier) else MatchAny(items[n - 1], v)
  }

  /**
   * `merge` over the first `n` children: the dicts folded with `update`, or
   * `None` as soon as one child is not a dict.
   */
  function MergePrefix(v: Value, items: seq<Node>, n: nat): (r: Result<Option<seq<(string, Value)>>>)
    requires n <= |items|
    decreases Nodes.Merge(items), 1, n
  {
    if n == 0 then Ok(Some([]))
    else
      var earlier :- MergePrefix(v, items, n - 1);
      match earlier
      case None => Ok(None)
      case Some(d) =>
        var e :- MatchAny(items[n - 1], v);
        if e.Dict? then Ok(Some(DictUpdate(d, e.entries))) else Ok(None)
  }

  /** `list_filter` over the first `n` elements: those whose condition result is truthy. */
  function Filtered(cond: Node, xs: seq<Value>, n: nat): (r: Result<seq<Value>>)
    requires n <= |xs|
    ensures r.Ok? ==> |r.value| <= n
    decreases cond, 3, n
  {
    if n == 0 then Ok([])
    else
      var kept :- Filtered(cond, xs, n - 1);
      var c :- MatchAny(cond, xs[n - 1]);
      Ok(if IsTruthy(c) then kept + [xs[n - 1]] else kept)
  }

  /** `list_map` over the first `n` elements: the key evaluated on each. */
  function Mapped(key: Node, xs: seq<Value>, n: nat): (r: Result<seq<Value>>)
    requires n <= |xs|
    ensures r.Ok? ==> |r.value| == n
    decreases key, 3, n
  {
    if n == 0 then Ok([])
    else
      var mapped :- Mapped(key, xs, n - 1);
      var y :- MatchAny(key, xs[n - 1]);
      Ok(mapped + [y])
  }

  lemma MappedNext(key: Node, xs: seq<Value>, i: nat, mapped: seq<Value>)
    requires i < |xs| && Mapped(key, xs, i) == Ok(mapped)
    ensures MatchAny(key, xs[i]).Err? ==> Mapped(key, xs, i + 1) == Err(MatchAny(key, xs[i]).error)
    ensures MatchAny(key, xs[i]).Ok? ==> Mapped(key, xs, i + 1) == Ok(mapped + [MatchAny(key, xs[i]).value])
  {
  }

  lemma MappedErrNext(key: Node, xs: seq<Value>, i: nat)
    requires i < |xs| && Mapped(key, xs, i).Err?
    ensures Mapped(key, xs, i + 1) == Err(Mapped(key, xs, i).error)
  {
  }

  /** The `pairs` of `list_sort_like` for the first `n` elements: each with the key of its key result. */
  function KeyedPairs(key: Node, xs: seq<Value>, n: nat): (r: Result<seq<Keyed<Value>>>)
    requires n <= |xs|
    ensures r.Ok? ==> |r.value| == n
    ensures r.Ok? ==> forall i :: 0 <= i < n ==> r.value[i].1 == xs[i]
    decreases key, 3, n
  {
    if n == 0 then Ok([])
    else
      var pairs :- KeyedPairs(key, xs, n - 1);
      var kv :- MatchAny(key, xs[n - 1]);
      Ok(pairs + [(KeyOf(kv), xs[n - 1])])
  }

  lemma KeyedPairsNext(key: Node, xs: seq<Value>, i: nat, pairs: seq<Keyed<Value>>)
    requires i < |xs| && KeyedPairs(key, xs, i) == Ok(pairs)
    ensures MatchAny(key, xs[i]).Err? ==> KeyedPairs(key, xs, i + 1) == Err(MatchAny(key, xs[i]).error)
    ensures MatchAny(key, xs[i]).Ok? ==>
      KeyedPairs(key, xs, i + 1) == Ok(pairs + [(KeyOf(MatchAny(key, xs[i]).value), xs[i])])
  {
  }

  /** `list_sort_like`: a stable sort, the first minimum or the last maximum by key. */
  function SortLike(xs: seq<Value>, key: Node, kind: SortKind): (r: Result<Value>)
    decreases key, 4
  {
    var pairs :- KeyedPairs(key, xs, |xs|);
    match kind
    case SortBy => Ok(List(Payloads(StableSort(pairs))))
    case MinBy => if |pairs| == 0 then Ok(Null) else Ok(pairs[MinIndex(pairs, |pairs|)].1)
    case MaxBy => if |pairs| == 0 then Ok(Null) else Ok(pairs[MaxIndex(pairs, |pairs|)].1)
  }

  /** `multi_list` over the first `n` expressions: each evaluated against `v`. */
  function MultiListPrefix(v: Value, items: seq<Node>, n: nat): (r: Result<seq<Value>>)
    requires n <= |items|
    ensures r.Ok? ==> |r.value| == n
  {
    if n == 0 then Ok([])
    else
      var out :- MultiListPrefix(v, items, n - 1);
      var y :- MatchAny(items[n - 1], v);
      Ok(out + [y])
  }

  /** `multi_dict` over the first `n` entries: each key assigned its expression's result. */
  function MultiDictPrefix(v: Value, items: seq<(string, Node)>, n: nat): (r: Result<seq<(string, Value)>>)
    requires n <= |items|
  {
    if n == 0 then Ok([])
    else
      var out :- MultiDictPrefix(v, items, n - 1);
      var y :- MatchAny(items[n - 1].1, v);
      Ok(DictSet(out, items[n - 1].0, y))
  }
}
