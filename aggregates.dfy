/**
 * The operators of `src/eval.rs` that walk a list: each is a specification
 * function, used by the evaluator, and a method with the source's loop,
 * proved to compute that function.
 */
module Aggregates {
  import opened Wrappers
  import opened Values
  import opened Checks
  import opened Text
  import opened SortKeys

  // ----- list_flatten -----

  /** What one element contributes to the flattened list. */
  function Piece(x: Value): seq<Value> {
    if IsList(x) then x.items else [x]
  }

  /** One level of nesting removed: list and tuple elements give their items, others themselves. */
  function Flattened(xs: seq<Value>): seq<Value> {
    if |xs| == 0 then [] else Flattened(xs[..|xs| - 1]) + Piece(xs[|xs| - 1])
  }

  /** Flattening distributes over concatenation. */
  lemma {:induction false} FlattenedAppend(a: seq<Value>, b: seq<Value>)
    ensures Flattened(a + b) == Flattened(a) + Flattened(b)
    decreases |b|
  {
    if |b| > 0 {
      var b' := b[..|b| - 1];
      assert (a + b)[..|a + b| - 1] == a + b';
      FlattenedAppend(a, b');
    } else {
      assert a + b == a;
    }
  }

  /** A list with no list or tuple elements is its own flattening. */
  lemma {:induction false} FlattenedFlat(xs: seq<Value>)
    requires forall k :: 0 <= k < |xs| ==> !IsList(xs[k])
    ensures Flattened(xs) == xs
  {
    if |xs| > 0 {
      FlattenedFlat(xs[..|xs| - 1]);
      assert xs == xs[..|xs| - 1] + [xs[|xs| - 1]];
    }
  }

  /** Only one level goes: each nested list's items are spliced in as they are. */
  lemma FlattenedNested(xss: seq<seq<Value>>)
    ensures Flattened(seq(|xss|, k requires 0 <= k < |xss| => List(xss[k]))) == Concat(xss)
  {
    var xs := seq(|xss|, k requires 0 <= k < |xss| => List(xss[k]));
    if |xss| > 0 {
      var init := xss[..|xss| - 1];
      assert xs[..|xs| - 1] == seq(|init|, k requires 0 <= k < |init| => List(init[k]));
      FlattenedNested(init);
    }
  }

  function Concat(xss: seq<seq<Value>>): seq<Value> {
    if |xss| == 0 then [] else Concat(xss[..|xss| - 1]) + xss[|xss| - 1]
  }

  /**
   * `list_flatten`: downcasts its argument to a list, then appends each
   * element, or each item of a list or tuple element, to a fresh list.
   */
  method ListFlatten(list: Value) returns (r: Result<Value>)
    ensures !list.List? ==> r == Err(NotAPyList)
    ensures list.List? ==> r == Ok(List(Flattened(list.items)))
  {
    var downcast := DowncastList(list);
    if downcast.Err? {
      return Err(downcast.error);
    }
    var xs := downcast.value;
    var output: seq<Value> := [];
    var i := 0;
    while i < |xs|
      invariant 0 <= i <= |xs|
      invariant output == Flattened(xs[..i])
    {
      var element := xs[i];
      if IsList(element) {
        var j := 0;
        while j < |element.items|
          invariant 0 <= j <= |element.items|
          invariant output == Flattened(xs[..i]) + element.items[..j]
        {
          output := output + [element.items[j]];
          j := j + 1;
        }
        assert element.items[..j] == element.items;
      } else {
        output := output + [element];
      }
      assert xs[..i + 1][..i] == xs[..i];
      i := i + 1;
    }
    assert xs[..i] == xs;
    return Ok(List(output));
  }

  // ----- list_contains -----

  /** Some element is `==` to the search value. */
  predicate Includes(xs: seq<Value>, search: Value) {
    exists k | 0 <= k < |xs| :: PyEq(xs[k], search)
  }

  /** Every well-formed element of a list is found in it. */
  lemma IncludesMember(xs: seq<Value>, k: nat)
    requires k < |xs| && WellFormed(xs[k])
    ensures Includes(xs, xs[k])
  {
    PyEqReflexive(xs[k]);
  }

  /** A search in a concatenation succeeds when it succeeds in either part. */
  lemma IncludesAppend(a: seq<Value>, b: seq<Value>, search: Value)
    ensures Includes(a + b, search) <==> Includes(a, search) || Includes(b, search)
  {
    if Includes(a, search) {
      var k :| 0 <= k < |a| && PyEq(a[k], search);
      assert (a + b)[k] == a[k];
    }
    if Includes(b, search) {
      var k :| 0 <= k < |b| && PyEq(b[k], search);
      assert (a + b)[|a| + k] == b[k];
    }
    if Includes(a + b, search) {
      var k :| 0 <= k < |a + b| && PyEq((a + b)[k], search);
      if k < |a| {
        assert (a + b)[k] == a[k];
      } else {
        assert (a + b)[k] == b[k - |a|];
      }
    }
  }

  /** `list_contains`: scans with Python's `==` and stops at the first match. */
  method ListContains(xs: seq<Value>, search: Value) returns (r: Value)
    ensures r == Bool(Includes(xs, search))
  {
    var found := false;
    var i := 0;
    while i < |xs|
      invariant 0 <= i <= |xs|
      invariant !found
      invariant forall k :: 0 <= k < i ==> !PyEq(xs[k], search)
    {
      if PyEq(xs[i], search) {
        found := true;
        break;
      }
      i := i + 1;
    }
    return Bool(found);
  }

  // ----- list_sum and list_avg -----

  /** Every element is an int or a float (bools are not numbers here). */
  predicate AllNumbers(xs: seq<Value>) {
    forall k :: 0 <= k < |xs| ==> IsNumber(xs[k])
  }

  /** The exact sum of the elements' values. */
  function NumSum(xs: seq<Value>): real
    requires AllNumbers(xs)
  {
    if |xs| == 0 then 0.0 else NumSum(xs[..|xs| - 1]) + NumVal(xs[|xs| - 1])
  }

  /** Sums add up across a concatenation. */
  lemma {:induction false} NumSumAppend(a: seq<Value>, b: seq<Value>)
    requires AllNumbers(a) && AllNumbers(b)
    ensures AllNumbers(a + b)
    ensures NumSum(a + b) == NumSum(a) + NumSum(b)
    decreases |b|
  {
    if |b| > 0 {
      var b' := b[..|b| - 1];
      assert (a + b)[..|a + b| - 1] == a + b';
      NumSumAppend(a, b');
    } else {
      assert a + b == a;
    }
  }

  /** n equal values sum to n times that value. */
  lemma {:induction false} NumSumConstant(xs: seq<Value>, c: real)
    requires AllNumbers(xs)
    requires forall k :: 0 <= k < |xs| ==> NumVal(xs[k]) == c
    ensures NumSum(xs) == |xs| as real * c
  {
    if |xs| > 0 {
      NumSumConstant(xs[..|xs| - 1], c);
    }
  }

  /** `list_sum`: int 0 for an empty list, `None` if an element is not a number, else a float. */
  function SumOf(xs: seq<Value>): (r: Value)
    ensures |xs| == 0 ==> r == Int(0)
    ensures |xs| > 0 ==> (r.Float? <==> AllNumbers(xs))
    ensures |xs| > 0 && !AllNumbers(xs) ==> r == Null
  {
    if |xs| == 0 then Int(0)
    else if AllNumbers(xs) then Float(NumSum(xs))
    else Null
  }

  /** `list_sum`: adds the elements into a float accumulator, bailing out on a non-number. */
  method ListSum(xs: seq<Value>) returns (r: Value)
    ensures r == SumOf(xs)
  {
    if |xs| == 0 {
      return Int(0);
    }
    var sum := 0.0;
    var i := 0;
    while i < |xs|
      invariant 0 <= i <= |xs|
      invariant AllNumbers(xs[..i])
      invariant sum == NumSum(xs[..i])
    {
      var element := xs[i];
      if !IsNumber(element) {
        return Null;
      }
      assert xs[..i + 1][..i] == xs[..i];
      sum := sum + NumVal(element);
      i := i + 1;
    }
    assert xs[..i] == xs;
    return Float(sum);
  }

  /** `list_avg`: `None` for an empty list or a non-number, else the mean as a float. */
  function AverageOf(xs: seq<Value>): (r: Value)
    ensures r.Float? <==> |xs| > 0 && AllNumbers(xs)
    ensures !r.Float? ==> r == Null
  {
    if |xs| == 0 then Null
    else if AllNumbers(xs) then Float(NumSum(xs) / (|xs| as real))
    else Null
  }

  /** The mean of equal values is that value. */
  lemma AverageOfConstant(xs: seq<Value>, c: real)
    requires |xs| > 0 && AllNumbers(xs)
    requires forall k :: 0 <= k < |xs| ==> NumVal(xs[k]) == c
    ensures AverageOf(xs) == Float(c)
  {
    NumSumConstant(xs, c);
  }

  /** Sum and mean agree: the mean times the length is the sum. */
  lemma AverageTimesLength(xs: seq<Value>)
    requires |xs| > 0 && AllNumbers(xs)
    ensures AverageOf(xs).f * (|xs| as real) == SumOf(xs).f
  {
  }

  /** `list_avg`: the same accumulation as `list_sum`, divided by the length. */
  method ListAvg(xs: seq<Value>) returns (r: Value)
    ensures r == AverageOf(xs)
  {
    var length := |xs|;
    if length == 0 {
      return Null;
    }
    var sum := 0.0;
    var i := 0;
    while i < length
      invariant 0 <= i <= length
      invariant AllNumbers(xs[..i])
      invariant sum == NumSum(xs[..i])
    {
      var element := xs[i];
      if !IsNumber(element) {
        return Null;
      }
      assert xs[..i + 1][..i] == xs[..i];
      sum := sum + NumVal(element);
      i := i + 1;
    }
    assert xs[..i] == xs;
    return Float(sum / (length as real));
  }

  // ----- list_join -----

  predicate AllStrings(xs: seq<Value>) {
    forall k :: 0 <= k < |xs| ==> xs[k].Str?
  }

  function StringsOf(xs: seq<Value>): (r: seq<string>)
    requires AllStrings(xs)
    ensures |r| == |xs|
    ensures forall k :: 0 <= k < |xs| ==> r[k] == xs[k].s
  {
    seq(|xs|, k requires 0 <= k < |xs| => xs[k].s)
  }

  /**
   * `list_join`: a glue that is not a str is an error; an element that is not
   * a str gives `None`; otherwise the elements joined by the glue.
   */
  function JoinOf(glue: Value, xs: seq<Value>): (r: Result<Value>)
    ensures r.Err? <==> !glue.Str?
    ensures r.Err? ==> r.error == GlueNotString
    ensures r.Ok? ==> (r.value.Str? <==> AllStrings(xs))
    ensures r.Ok? && !AllStrings(xs) ==> r.value == Null
  {
    if !glue.Str? then Err(GlueNotString)
    else if AllStrings(xs) then Ok(Str(JoinWith(StringsOf(xs), glue.s)))
    else Ok(Null)
  }

  /** A join of strs is as long as the strs plus one glue between each pair. */
  lemma JoinOfLength(glue: string, xs: seq<Value>)
    requires |xs| > 0 && AllStrings(xs)
    ensures |JoinOf(Str(glue), xs).value.s| == TotalLength(StringsOf(xs)) + (|xs| - 1) * |glue|
  {
    JoinWithLength(StringsOf(xs), glue);
  }

  /** `list_join`: extracts the glue, collects the strs into `parts`, then joins them. */
  method ListJoin(glue: Value, xs: seq<Value>) returns (r: Result<Value>)
    ensures r == JoinOf(glue, xs)
  {
    if !glue.Str? {
      return Err(GlueNotString);
    }
    var parts: seq<string> := [];
    var i := 0;
    while i < |xs|
      invariant 0 <= i <= |xs|
      invariant AllStrings(xs[..i])
      invariant parts == StringsOf(xs[..i])
    {
      var element := xs[i];
      if !element.Str? {
        return Ok(Null);
      }
      assert xs[..i + 1][..i] == xs[..i];
      parts := parts + [element.s];
      i := i + 1;
    }
    assert xs[..i] == xs;
    return Ok(Str(JoinWith(parts, glue.s)));
  }

  // ----- list_min_max -----

  /** `x` replaces the running best: strictly greater (max) or strictly smaller (min). */
  predicate Beats(x: Value, best: Value, isMax: bool) {
    if IsNumber(x) && IsNumber(best) then
      (if isMax then NumVal(x) > NumVal(best) else NumVal(x) < NumVal(best))
    else if x.Str? && best.Str? then
      (if isMax then StrLt(best.s, x.s) else StrLt(x.s, best.s))
    else false
  }

  /** `x` has the kind the first element announced: a number after a number, a str after a str. */
  predicate SameKind(first: Value, x: Value) {
    (IsNumber(first) ==> IsNumber(x)) && (first.Str? ==> x.Str?)
  }

  /** A non-empty list of numbers only or of strs only. */
  predicate Comparable(xs: seq<Value>) {
    |xs| > 0 && (IsNumber(xs[0]) || xs[0].Str?) &&
    forall k :: 0 <= k < |xs| ==> SameKind(xs[0], xs[k])
  }

  /** The position of the running best after the first `n` elements. */
  function BestIndex(xs: seq<Value>, n: nat, isMax: bool): (b: nat)
    requires 0 < n <= |xs|
    ensures b < n
  {
    if n == 1 then 0
    else
      var b := BestIndex(xs, n - 1, isMax);
      if Beats(xs[n - 1], xs[b], isMax) then n - 1 else b
  }

  /** `list_min_max`: `None` unless the list is `Comparable`, else the best element. */
  function MinMaxOf(xs: seq<Value>, isMax: bool): (r: Value)
    ensures r == Null <==> !Comparable(xs)
    ensures Comparable(xs) ==> r == xs[BestIndex(xs, |xs|, isMax)]
  {
    if Comparable(xs) then
      var r := xs[BestIndex(xs, |xs|, isMax)];
      assert SameKind(xs[0], r);
      r
    else Null
  }

  lemma BeatsTransitive(x: Value, y: Value, z: Value, isMax: bool)
    requires SameKind(x, y) && SameKind(x, z) && (IsNumber(x) || x.Str?)
    requires Beats(x, y, isMax) && Beats(y, z, isMax)
    ensures Beats(x, z, isMax)
  {
    if x.Str? {
      if isMax {
        StrLtTransitive(z.s, y.s, x.s);
      } else {
        StrLtTransitive(x.s, y.s, z.s);
      }
    }
  }

  lemma BeatsTotal(x: Value, y: Value, isMax: bool)
    requires SameKind(x, y) && (IsNumber(x) || x.Str?)
    ensures Beats(x, y, isMax) || Beats(y, x, isMax) || (IsNumber(x) && NumVal(x) == NumVal(y)) || x == y
  {
    if x.Str? {
      StrLtTotal(x.s, y.s);
    }
  }

  lemma BeatsIrreflexive(x: Value, isMax: bool)
    ensures !Beats(x, x, isMax)
  {
    if x.Str? {
      StrLtIrreflexive(x.s);
    }
  }

  /**
   * The result is an element no other element beats, and it beats every
   * element before it: among equals the first occurrence wins.
   */
  lemma {:induction false} BestIndexIsBest(xs: seq<Value>, n: nat, isMax: bool)
    requires Comparable(xs) && 0 < n <= |xs|
    ensures forall j :: 0 <= j < n ==> !Beats(xs[j], xs[BestIndex(xs, n, isMax)], isMax)
    ensures forall j :: 0 <= j < BestIndex(xs, n, isMax) ==> Beats(xs[BestIndex(xs, n, isMax)], xs[j], isMax)
  {
    assert SameKind(xs[0], xs[0]);
    if n == 1 {
      BeatsIrreflexive(xs[0], isMax);
    } else {
      BestIndexIsBest(xs, n - 1, isMax);
      var b := BestIndex(xs, n - 1, isMax);
      var last := xs[n - 1];
      assert SameKind(xs[0], last) && SameKind(xs[0], xs[b]);
      if Beats(last, xs[b], isMax) {
        forall j | 0 <= j < n ensures !Beats(xs[j], last, isMax) {
          assert SameKind(xs[0], xs[j]);
          if j == n - 1 {
            BeatsIrreflexive(last, isMax);
          } else if Beats(xs[j], last, isMax) {
            BeatsTransitive(xs[j], last, xs[b], isMax);
          }
        }
        forall j | 0 <= j < n - 1 ensures Beats(last, xs[j], isMax) {
          assert SameKind(xs[0], xs[j]);
          BeatsTotal(xs[b], xs[j], isMax);
          if Beats(xs[b], xs[j], isMax) {
            BeatsTransitive(last, xs[b], xs[j], isMax);
          }
        }
      } else {
        BeatsTotal(last, xs[b], isMax);
      }
    }
  }

  /** `list_min_max`: checks the kind of every element and keeps the best one seen so far. */
  method ListMinMax(xs: seq<Value>, isMax: bool) returns (r: Value)
    ensures r == MinMaxOf(xs, isMax)
  {
    var length := |xs|;
    if length == 0 {
      return Null;
    }
    var first := xs[0];
    var expectNumber := IsNumber(first);
    var expectString := first.Str?;
    if !expectNumber && !expectString {
      return Null;
    }
    var best := first;
    var bestIndex := 0;
    var i := 1;
    while i < length
      invariant 1 <= i <= length
      invariant forall k :: 0 <= k < i ==> SameKind(first, xs[k])
      invariant bestIndex == BestIndex(xs, i, isMax) && best == xs[bestIndex]
    {
      var current := xs[i];
      var isNum := IsNumber(current);
      var isStr := current.Str?;
      if expectNumber && !isNum {
        assert !SameKind(first, xs[i]);
        return Null;
      }
      if expectString && !isStr {
        assert !SameKind(first, xs[i]);
        return Null;
      }
      if Beats(current, best, isMax) {
        best := current;
        bestIndex := i;
      }
      i := i + 1;
    }
    return best;
  }

  // ----- list_sort -----

  /** The key Python's `sorted` effectively orders by: a number's value, or a str. */
  function NaturalKey(v: Value): SortKey {
    if IsNumeric(v) then SortKey(0, Some(NumVal(v)), None, None)
    else if v.Str? then SortKey(0, None, None, Some(v.s))
    else SortKey(1, None, None, None)
  }

  function NaturalPairs(xs: seq<Value>): (ps: seq<Keyed<Value>>)
    ensures |ps| == |xs|
    ensures Payloads(ps) == xs
  {
    var ps := seq(|xs|, i requires 0 <= i < |xs| => (NaturalKey(xs[i]), xs[i]));
    assert Payloads(ps) == xs;
    ps
  }

  /** Values `sorted` can order among themselves: all numbers (bools included), or all strs. */
  predicate Orderable(xs: seq<Value>) {
    (forall k :: 0 <= k < |xs| ==> IsNumeric(xs[k])) || (forall k :: 0 <= k < |xs| ==> xs[k].Str?)
  }

  /**
   * `list_sort`, Python's `sorted`: a stable ascending sort; with two or more
   * values of kinds it cannot order, a `TypeError`.
   */
  function SortedOf(xs: seq<Value>): (r: Result<Value>)
    ensures r.Err? <==> |xs| > 1 && !Orderable(xs)
    ensures r.Err? ==> r.error == Unorderable
    ensures r.Ok? ==> r.value.List? && multiset(r.value.items) == multiset(xs)
  {
    if |xs| <= 1 then Ok(List(xs))
    else if Orderable(xs) then
      var ps := NaturalPairs(xs);
      StableSortPayloads(ps);
      Ok(List(Payloads(StableSort(ps))))
    else Err(Unorderable)
  }

  /** No value is followed by a smaller one: numbers by value, strs by code points. */
  predicate Ascending(ys: seq<Value>) {
    forall i, j :: 0 <= i < j < |ys| ==>
      (IsNumeric(ys[i]) && IsNumeric(ys[j]) ==> NumVal(ys[i]) <= NumVal(ys[j])) &&
      (ys[i].Str? && ys[j].Str? ==> !StrLt(ys[j].s, ys[i].s))
  }

  /** What `sorted` returns is in ascending order. */
  lemma SortedOfAscending(xs: seq<Value>)
    requires SortedOf(xs).Ok?
    ensures Ascending(SortedOf(xs).value.items)
  {
    if |xs| > 1 {
      var ps := NaturalPairs(xs);
      var sorted := StableSort(ps);
      var out := Payloads(sorted);
      StableSortSorted(ps);
      assert out == SortedOf(xs).value.items;
      forall p | p in sorted ensures p.0 == NaturalKey(p.1) && p.1 in xs {
        assert p in multiset(sorted);
      }
      forall i, j | 0 <= i < j < |out|
        ensures IsNumeric(out[i]) && IsNumeric(out[j]) ==> NumVal(out[i]) <= NumVal(out[j])
        ensures out[i].Str? && out[j].Str? ==> !StrLt(out[j].s, out[i].s)
      {
        assert sorted[i] in sorted && sorted[j] in sorted;
        assert !KeyLt(sorted[j].0, sorted[i].0);
      }
    }
  }
}
