/**
 * The loops of `src/eval.rs` that evaluate a sub-expression per element or
 * per child, each proved to compute the function `MatchAny` uses for it.
 */
module EvalLoops {
  import opened Wrappers
  import opened Values
  import opened SortKeys
  import Nodes
  import opened Evaluator

  /** Once a prefix fails, every longer prefix fails the same way. */
  lemma {:induction false} FilteredErrSticky(cond: Node, xs: seq<Value>, i: nat, n: nat)
    requires i <= n <= |xs| && Filtered(cond, xs, i).Err?
    ensures Filtered(cond, xs, n) == Filtered(cond, xs, i)
    decreases n
  {
    if n > i {
      FilteredErrSticky(cond, xs, i, n - 1);
    }
  }

  lemma {:induction false} MappedErrSticky(key: Node, xs: seq<Value>, i: nat, n: nat)
    requires i <= n <= |xs| && Mapped(key, xs, i).Err?
    ensures Mapped(key, xs, n) == Mapped(key, xs, i)
    decreases n
  {
    if n > i {
      MappedErrSticky(key, xs, i, n - 1);
    }
  }

  lemma {:induction false} KeyedPairsErrSticky(key: Node, xs: seq<Value>, i: nat, n: nat)
    requires i <= n <= |xs| && KeyedPairs(key, xs, i).Err?
    ensures KeyedPairs(key, xs, n) == KeyedPairs(key, xs, i)
    decreases n
  {
    if n > i {
      KeyedPairsErrSticky(key, xs, i, n - 1);
    }
  }

  /** Once a child gives a value other than `None`, later children are never evaluated. */
  lemma {:induction false} NotNullSticky(v: Value, items: seq<Node>, i: nat, n: nat)
    requires i <= n <= |items|
    requires NotNullPrefix(v, items, i).Err? || (NotNullPrefix(v, items, i).Ok? && !NotNullPrefix(v, items, i).value.Null?)
    ensures NotNullPrefix(v, items, n) == NotNullPrefix(v, items, i)
    decreases n
  {
    if n > i {
      NotNullSticky(v, items, i, n - 1);
    }
  }

  /** Once a child fails or is not a dict, later children are never evaluated. */
  lemma {:induction false} MergeSticky(v: Value, items: seq<Node>, i: nat, n: nat)
    requires i <= n <= |items|
    requires MergePrefix(v, items, i).Err? || MergePrefix(v, items, i) == Ok(None)
    ensures MergePrefix(v, items, n) == MergePrefix(v, items, i)
    decreases n
  {
    if n > i {
      MergeSticky(v, items, i, n - 1);
    }
  }

  lemma {:induction false} MultiListErrSticky(v: Value, items: seq<Node>, i: nat, n: nat)
    requires i <= n <= |items| && MultiListPrefix(v, items, i).Err?
    ensures MultiListPrefix(v, items, n) == MultiListPrefix(v, items, i)
    decreases n
  {
    if n > i {
      MultiListErrSticky(v, items, i, n - 1);
    }
  }

  lemma {:induction false} MultiDictErrSticky(v: Value, items: seq<(string, Node)>, i: nat, n: nat)
    requires i <= n <= |items| && MultiDictPrefix(v, items, i).Err?
    ensures MultiDictPrefix(v, items, n) == MultiDictPrefix(v, items, i)
    decreases n
  {
    if n > i {
      MultiDictErrSticky(v, items, i, n - 1);
    }
  }

  lemma MergeStep(v: Value, items: seq<Node>, i: nat, output: seq<(string, Value)>)
    requires i < |items| && MergePrefix(v, items, i) == Ok(Some(output))
    requires MatchAny(items[i], v).Ok?
    ensures MatchAny(items[i], v).value.Dict? ==>
      MergePrefix(v, items, i + 1) == Ok(Some(DictUpdate(output, MatchAny(items[i], v).value.entries)))
    ensures !MatchAny(items[i], v).value.Dict? ==> MergePrefix(v, items, i + 1) == Ok(None)
  {
  }

  lemma MergeDone(v: Value, items: seq<Node>, output: seq<(string, Value)>)
    requires MergePrefix(v, items, |items|) == Ok(Some(output))
    ensures MatchAny(Nodes.Merge(items), v) == Ok(Dict(output))
  {
  }

  lemma MultiDictStep(v: Value, items: seq<(string, Node)>, i: nat, output: seq<(string, Value)>)
    requires i < |items| && MultiDictPrefix(v, items, i) == Ok(output)
    requires MatchAny(items[i].1, v).Ok?
    ensures MultiDictPrefix(v, items, i + 1) == Ok(DictSet(output, items[i].0, MatchAny(items[i].1, v).value))
  {
  }

  /** `list_filter`: appends each element whose condition result is truthy. */
  method ListFilter(xs: seq<Value>, cond: Node) returns (r: Result<Value>)
    ensures r == AsList(Filtered(cond, xs, |xs|))
  {
    var output: seq<Value> := [];
    var i := 0;
    while i < |xs|
      invariant 0 <= i <= |xs|
      invariant Filtered(cond, xs, i) == Ok(output)
    {
      var element := xs[i];
      var c := MatchAny(cond, element);
      if c.Err? {
        FilteredErrSticky(cond, xs, i + 1, |xs|);
        return Err(c.error);
      }
      if IsTruthy(c.value) {
        output := output + [element];
      }
      i := i + 1;
    }
    return Ok(List(output));
  }

  /** `list_map`: appends the key result of each element. */
  method ListMap(xs: seq<Value>, key: Node) returns (r: Result<Value>)
    ensures r == AsList(Mapped(key, xs, |xs|))
  {
    var output: seq<Value> := [];
    var i := 0;
    while i < |xs|
      invariant 0 <= i <= |xs|
      invariant Mapped(key, xs, i) == Ok(output)
    {
      var y := MatchAny(key, xs[i]);
      MappedNext(key, xs, i, output);
      if y.Err? {
        MappedErrSticky(key, xs, i + 1, |xs|);
        return Err(y.error);
      }
      output := output + [y.value];
      i := i + 1;
    }
    return Ok(List(output));
  }

  /** `not_null`: returns the first child result that is not `None`. */
  method NotNull(v: Value, items: seq<Node>) returns (r: Result<Value>)
    ensures r == MatchAny(Nodes.Coalesce(items), v)
  {
    var i := 0;
    while i < |items|
      invariant 0 <= i <= |items|
      invariant NotNullPrefix(v, items, i) == Ok(Null)
    {
      var evaluated := MatchAny(items[i], v);
      if evaluated.Err? || !evaluated.value.Null? {
        NotNullSticky(v, items, i + 1, |items|);
        return evaluated;
      }
      i := i + 1;
    }
    return Ok(Null);
  }

  /** `merge`: updates a fresh dict with each child, giving `None` at the first non-dict. */
  method Merge(v: Value, items: seq<Node>) returns (r: Result<Value>)
    ensures r == MatchAny(Nodes.Merge(items), v)
  {
    var output: seq<(string, Value)> := [];
    var i := 0;
    while i < |items|
      invariant 0 <= i <= |items|
      invariant MergePrefix(v, items, i) == Ok(Some(output))
    {
      var evaluated := MatchAny(items[i], v);
      if evaluated.Err? {
        MergeSticky(v, items, i + 1, |items|);
        return Err(evaluated.error);
      }
      MergeStep(v, items, i, output);
      if evaluated.value.Dict? {
        output := DictUpdate(output, evaluated.value.entries);
      } else {
        MergeSticky(v, items, i + 1, |items|);
        return Ok(Null);
      }
      i := i + 1;
    }
    MergeDone(v, items, output);
    return Ok(Dict(output));
  }

  /** The first loop of `list_sort_like`: pairs each element with the key of its key result. */
  method BuildPairs(xs: seq<Value>, key: Node) returns (r: Result<seq<Keyed<Value>>>)
    ensures r == KeyedPairs(key, xs, |xs|)
  {
    var pairs: seq<Keyed<Value>> := [];
    var i := 0;
    while i < |xs|
      invariant 0 <= i <= |xs|
      invariant KeyedPairs(key, xs, i) == Ok(pairs)
    {
      var element := xs[i];
      var keyValue := MatchAny(key, element);
      KeyedPairsNext(key, xs, i, pairs);
      if keyValue.Err? {
        KeyedPairsErrSticky(key, xs, i + 1, |xs|);
        return Err(keyValue.error);
      }
      pairs := pairs + [(KeyOf(keyValue.value), element)];
      i := i + 1;
    }
    return Ok(pairs);
  }

  /**
   * `list_sort_like`: builds the keyed pairs, then sorts them and collects the
   * elements, or picks the first minimum or the last maximum.
   */
  method ListSortLike(list: Value, key: Node, kind: SortKind) returns (r: Result<Value>)
    ensures !list.List? ==> r == Err(NotAPyList)
    ensures list.List? ==> r == SortLike(list.items, key, kind)
  {
    var downcast := DowncastList(list);
    if downcast.Err? {
      return Err(downcast.error);
    }
    var xs := downcast.value;
    var built := BuildPairs(xs, key);
    if built.Err? {
      return Err(built.error);
    }
    var pairs := built.value;
    match kind {
      case SortBy =>
        pairs := StableSort(pairs);
        var output := CollectPayloads(pairs);
        return Ok(List(output));
      case MinBy =>
        if |pairs| == 0 {
          return Ok(Null);
        }
        return Ok(pairs[MinIndex(pairs, |pairs|)].1);
      case MaxBy =>
        if |pairs| == 0 {
          return Ok(Null);
        }
        return Ok(pairs[MaxIndex(pairs, |pairs|)].1);
    }
  }

  /** The second loop of `list_sort_like` for `sort_by`: the elements of the sorted pairs, in order. */
  method CollectPayloads(pairs: seq<Keyed<Value>>) returns (output: seq<Value>)
    ensures output == Payloads(pairs)
  {
    output := [];
    var j := 0;
    while j < |pairs|
      invariant 0 <= j <= |pairs|
      invariant output == Payloads(pairs[..j])
    {
      output := output + [pairs[j].1];
      j := j + 1;
    }
    assert pairs[..j] == pairs;
  }

  /** `multi_list`: appends each expression's result to a fresh list. */
  method MultiList(v: Value, items: seq<Node>) returns (r: Result<Value>)
    ensures r == AsList(MultiListPrefix(v, items, |items|))
  {
    var output: seq<Value> := [];
    var i := 0;
    while i < |items|
      invariant 0 <= i <= |items|
      invariant MultiListPrefix(v, items, i) == Ok(output)
    {
      var y := MatchAny(items[i], v);
      if y.Err? {
        MultiListErrSticky(v, items, i + 1, |items|);
        return Err(y.error);
      }
      output := output + [y.value];
      i := i + 1;
    }
    return Ok(List(output));
  }

  /** `multi_dict`: assigns each key its expression's result in a fresh dict. */
  method MultiDict(v: Value, items: seq<(string, Node)>) returns (r: Result<Value>)
    ensures r == AsDict(MultiDictPrefix(v, items, |items|))
  {
    var output: seq<(string, Value)> := [];
    var i := 0;
    while i < |items|
      invariant 0 <= i <= |items|
      invariant MultiDictPrefix(v, items, i) == Ok(output)
    {
      var y := MatchAny(items[i].1, v);
      if y.Err? {
        MultiDictErrSticky(v, items, i + 1, |items|);
        return Err(y.error);
      }
      MultiDictStep(v, items, i, output);
      output := DictSet(output, items[i].0, y.value);
      i := i + 1;
    }
    return Ok(Dict(output));
  }
}
