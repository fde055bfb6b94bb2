# jmespath_rs core in Dafny

`jmespath_rs` evaluates JMESPath queries over Python data. A query is an
expression tree (`Node`, `src/nodes.rs`) that `match_any` (`src/matchs.rs`)
walks, dispatching to the operators of `src/eval.rs`. The operators take
values that type predicates have already admitted (those of `src/checks.rs`,
plus `is_string`, `is_object` and `is_eq`, which the model defines itself; see below);
`src/util.rs` holds an older copy of the `src/checks.rs` ones. Alongside the
evaluator there are two writers of query text:

- the pretty-printer `src/display.rs`;
- `QueryBuilder` (`src/querybuilder.rs`), which builds JMESPath text through
  the helpers of `src/parsing.rs`.

This project models all of the above:

- Python values are a `Value` datatype: `None`, bool, int, float, str, list,
  tuple and dict. A dict is its entries in insertion order. A tuple passes
  the `is_list` guard like a list, but it never equals a list under `==`,
  and PyO3's `downcast::<PyList>()` rejects it with a TypeError.
  Python's `==`, truthiness, `<` on str and dict `get`/`__setitem__`/`update`
  are written out over these values (`values.dfy`).
- `Evaluator.MatchAny` is `match_any` with its dispatchers, over the node
  shape settled below. An evaluation
  gives a value or a host error (`Wrappers.Error`). A wrong operand type
  never fails: it gives `None` or `false`, as in the source.
- Where `list_flatten` and `list_sort_like` downcast their argument to a
  `PyList`, a tuple gives the error `NotAPyList` (`EvaluatorProps.TupleBase`).
- Each loop of `src/eval.rs` is a method with the source's loop, proved to
  compute the specification function that `MatchAny` uses for it
  (`eval_loops.dfy` and `aggregates.dfy`).
- Separate lemmas prove what those functions mean. Examples: the stable sort
  of `sort_by`; the first minimum and last maximum of `min_by`/`max_by`; the
  last-binding semantics of `merge` and `multi_dict`; De Morgan's laws with
  errors and evaluation order included; Python slicing (`slicing.dfy`).
- The pretty-printer renders its own node shape, which is older than
  `src/nodes.rs`. It is modelled over a `Display.QueryNode` datatype with
  the same variants; the comparison, unary-function and binary-function
  variants are grouped into operator datatypes.
- Every `QueryBuilder` method is a function on an immutable `QueryBuilder`
  value; the Rust struct is frozen. `select_list` and `select_dict` are
  methods with the source's loops. Lemmas tie the builder's output to the
  pretty-printer's text for the same node.

`src/matchs.rs` does not match the `Node` of `src/nodes.rs` in every
place. The model settles the differences this way:

- `Nodes.Node` has the variants of src/nodes.rs:57-70. Its `Coalesce` is
  evaluated by `not_null`, as src/matchs.rs:14 evaluates `NotNull`.
- src/matchs.rs:15 dispatches a `Length(x)` node, which src/nodes.rs does
  not define. Instead, the `Length` operators of `ListOp` and `StrOp`
  (src/nodes.rs:80 and 108) are evaluated by `eval::length` on the base
  (`Evaluator.MatchListOp`, `Evaluator.MatchStrOp`). `match_list_op` and
  `match_str_op` have no arm for them.
- The `Join` glue and the `Contains`, `StartsWith` and `EndsWith` operands
  are `String` in src/nodes.rs:86 and 105-107. src/matchs.rs:60-63 and
  135-143 evaluate them as nodes, so the model holds them as `Node`s.
- `is_string`, `is_object` and `is_eq` are called (src/matchs.rs:26 and 33,
  src/eval.rs:325-412 and 495-499) but not defined in src/checks.rs or
  src/util.rs. The model reads them as an isinstance test for str
  (`Checks.IsString`), an isinstance test for dict (`Checks.IsObject`) and
  `eq_semantics` (`EvalOps.Eq`).

Where the code and the JMESPath specification disagree, the model follows
the code:

- A slice with no bounds and a negative step (`[::-1]`) gives `[]`. This is
  because `list_slice` and `str_slice` pass the defaults `0` and
  `isize::MAX` before slicing (`Slicing.SliceWithDefaults`,
  `EvalOps.SliceNegativeStepIsEmpty`). The intended slicers, which fill in
  missing bounds as Python itself does, are modelled beside them
  (`EvalOps.ListSliceCorrected`, `EvalOps.StrSliceCorrected`; see Findings).
- `eq_semantics` treats a bool and the int 0 or 1 as unequal. A bool and the
  float 1.0 stay equal (`Checks.EqSemanticsBoolCases`).
- `cmp_bool` orders numbers only: strings compare as `false` under
  `<`, `<=`, `>` and `>=` (`EvalOps.CmpBool`).

## Model

| member | source | states |
|---|---|---|
| Checks.IsList | src/checks.rs:5-8 | holds exactly for a list or tuple |
| Checks.IsString | src/matchs.rs:26 | `is_string` holds exactly for a str |
| Checks.IsObject | src/matchs.rs:33 | `is_object` holds exactly for a dict |
| Checks.IsSized | src/checks.rs:9-12 | holds exactly for str, list and tuple; a sized value is never numeric |
| Checks.IsNumber | src/checks.rs:14-17 | holds exactly for int and float, bool excluded |
| Checks.IsComparable | src/checks.rs:19-22 | holds exactly for int, float and str |
| Checks.IsEmpty | src/checks.rs:24-43 | holds exactly for None, false, and an empty str, list, tuple or dict; an empty value is falsy and not a number |
| Checks.NotEmpty | src/checks.rs:45-48 | holds exactly when the value is truthy or a number |
| Checks.Check01 | src/checks.rs:49-56 | holds exactly when the flag passed in is false and the value is int 0, int 1 or a bool (bools extract as i64) |
| Checks.Check01OwnFlag | src/checks.rs:49-69 | called with the value's own bool flag, as `eq_semantics` does, it holds exactly for the ints 0 and 1 |
| Checks.EqSemantics | src/checks.rs:57-69 | a bool against int 0/1 is unequal; otherwise it is Python `==` |
| Checks.EqSemanticsSymmetric | src/checks.rs:57-69 | `eq_semantics` is symmetric on well-formed values |
| Checks.EqSemanticsBoolCases | src/checks.rs:57-69 | `True` vs 1 and `0` vs `False` are unequal although Python `==` holds; `True` vs 1.0 is equal |
| Util.IsList | src/util.rs:5-8 | agrees with `checks::is_list`, never failing |
| Util.IsSized | src/util.rs:10-13 | agrees with `checks::is_sized` |
| Util.IsNumber | src/util.rs:15-21 | agrees with `checks::is_number`, never failing |
| Util.IsComparable | src/util.rs:23-26 | agrees with `checks::is_comparable`, never failing |
| Util.IsEmpty | src/util.rs:28-47 | agrees with `checks::is_empty`, never failing |
| Util.NotEmpty | src/util.rs:49-52 | agrees with `checks::not_empty`, never failing |
| Util.EqSemantics | src/util.rs:54-78 | the inline 0/1 test agrees with `checks::eq_semantics` |
| Values.PyEq | src/checks.rs:57-69 | Python `==`: numbers by value with bools as 0/1, strs by characters, lists and tuples elementwise (a list never equals a tuple), dicts of the same size whose every key is found in the other with an equal value; its meaning is carried by `Values.PyEqSymmetric` and `Values.PyEqReflexive` |
| Values.IsTruthy | src/eval.rs:119-140 | Python `bool(v)`: false exactly for None, false, 0, 0.0 and empty str, list, tuple or dict; `Checks.IsEmpty` and `EvaluatorProps.AndTruthiness` state its use |
| Values.SameKind | src/eval.rs:33-48 | a list or tuple holding the given items, of the same kind as the sliced value |
| Values.DowncastList | src/eval.rs:88 | succeeds exactly on a list, giving its items; a tuple gives the TypeError `NotAPyList` |
| Values.ExtractF64 | src/eval.rs:263-270 | succeeds exactly on int, bool and float, giving its numeric value |
| Values.ExtractI64 | src/eval.rs:195-262 | succeeds exactly on a bool or an int within i64, giving its value |
| Values.ExtractString | src/eval.rs:370-389 | succeeds exactly on a str, giving it |
| Values.PyEqSymmetric | src/checks.rs:57-69 | Python `==` on well-formed values is symmetric |
| Values.PyEqReflexive | src/checks.rs:57-69 | every well-formed value is `==` to itself |
| Values.StrLtTransitive | src/eval.rs:390-427 | the str order used by min/max and sorting is transitive |
| Values.StrLtTotal | src/eval.rs:390-427 | any two distinct strs are ordered one way or the other |
| Values.StrLtIrreflexive | src/eval.rs:390-427 | no str is below itself |
| Values.StrLtAsymmetric | src/eval.rs:390-427 | two strs are never each below the other |
| Values.Lookup | src/eval.rs:15-20 | `get` is None exactly when no entry has the key; otherwise an entry holds the key and the result |
| Values.LookupEntry | src/eval.rs:15-20 | with distinct keys, `get` of an entry's key finds that entry's value |
| Values.DictSetLookup | src/eval.rs:75-85 | after `d[k] = v`, `k` maps to `v` and every other key keeps its value |
| Values.DictSetUnique | src/eval.rs:75-85 | assignment keeps dict keys distinct |
| Values.DictUpdateLookup | src/eval.rs:429-442 | after `d.update(e)`, a key of `e` maps to its last value in `e`; other keys keep their value |
| Values.DictUpdateUnique | src/eval.rs:429-442 | update keeps dict keys distinct |
| Values.LookupLastUnique | src/eval.rs:429-442 | with distinct keys, the last entry under a key is the only one |
| Values.KeysValuesAligned | src/eval.rs:155-161 | the i-th key of `keys()` maps to the i-th element of `values()` |
| Nodes.IntoLit | src/nodes.rs:49-54 | an `Expr` gives its node; any other object becomes a literal of that object |
| Nodes.ComparisonOp.Rhs | src/nodes.rs:125-133 | each comparison carries a right-hand expression strictly smaller than itself |
| Slicing.Reversed | src/eval.rs:454-461 | the same length, element k taken from position len-1-k |
| Slicing.ReversedTwice | src/eval.rs:454-461 | reversing twice gives the original |
| Slicing.AdjustBound | src/eval.rs:33-65 | negative bounds count from the end; results are clamped by step direction; in-range bounds are kept |
| Slicing.SliceIndexInRange | src/eval.rs:33-65 | every selected position is inside the sequence and before the stop |
| Slicing.SliceLengthBound | src/eval.rs:33-65 | a slice never has more elements than the sequence |
| Slicing.UnpackStep | src/eval.rs:33-65 | the unpacked step is non-zero, keeps its sign and lies within ±isize::MAX |
| Slicing.PySlice | src/eval.rs:33-65 | fails exactly on step 0 (ZeroSliceStep); a result is no longer than the input and holds only its elements |
| Slicing.SliceWithDefaults | src/eval.rs:33-48 | with the defaults 0/isize::MAX/1, fails exactly when the step given is 0 |
| Slicing.PySliceContiguous | src/eval.rs:33-48 | step 1 with in-range bounds is the run `s[a..b]` |
| Slicing.PySliceClamped | src/eval.rs:33-48 | step 1 with an end past the sequence runs to its end |
| Slicing.PySliceFromEnd | src/eval.rs:33-48 | `s[-n:]` is the last n elements |
| Slicing.PySliceReverse | src/eval.rs:454-457 | `[isize::MAX:isize::MIN:-1]` is the full reversal |
| Slicing.DefaultSliceIsCopy | src/eval.rs:33-48 | no bounds and no step give the whole sequence |
| Slicing.DefaultBoundsNegativeStep | src/eval.rs:33-48 | as written, no bounds and a negative step give the empty sequence |
| Slicing.SliceUnpacked | src/eval.rs:33-65 | corrected defaults (start isize::MAX and stop isize::MIN for a negative step); fails exactly when the step given is 0 |
| Slicing.SliceUnpackedAgrees | src/eval.rs:33-65 | with a positive or missing step, or with both bounds given, the corrected slice equals the slice as written |
| Slicing.SliceUnpackedReverse | src/eval.rs:33-65 | with the corrected defaults, `s[::-1]` is the full reversal |
| Text.JoinWith | src/display.rs:92-98 | joining no parts gives "" and joining one part gives that part |
| Text.JoinWithLength | src/eval.rs:370-389 | a join's length is the parts' total plus one separator between each pair |
| Text.JoinWithSnoc | src/display.rs:92-98 | joining one more part appends the separator and that part |
| Text.NatToString | src/querybuilder.rs:58-60 | non-empty decimal digits with no leading zero |
| Text.IntToString | src/querybuilder.rs:58-60 | non-empty, made only of a sign and digits |
| Text.NatRoundTrip | src/querybuilder.rs:58-60 | reading back the digits of n gives n |
| Text.IntRoundTrip | src/querybuilder.rs:58-60 | reading back a formatted integer gives the same integer |
| SortKeys.KeyOf | src/eval.rs:195-262 | bucket 0 for a number or str with its extracted float/int/str; bucket 1 otherwise |
| SortKeys.KeyLtIrreflexive | src/eval.rs:195-262 | no key is below itself |
| SortKeys.KeyLtTransitive | src/eval.rs:195-262 | the key order is transitive |
| SortKeys.KeyLtTotal | src/eval.rs:195-262 | any two distinct keys are ordered |
| SortKeys.KeyLtAsymmetric | src/eval.rs:195-262 | at most one of a<b and b<a |
| SortKeys.StableSort | src/eval.rs:195-262 | a permutation of the keyed pairs |
| SortKeys.StableSortSorted | src/eval.rs:195-262 | the sort result is ordered by key |
| SortKeys.StableSortStable | src/eval.rs:195-262 | the elements with any one key keep their relative order |
| SortKeys.StableSortPayloads | src/eval.rs:195-262 | the sorted payloads are a permutation of the input |
| SortKeys.MinIndexIsFirstMinimum | src/eval.rs:195-262 | `min_by` picks a minimal key, and the first element with it |
| SortKeys.MaxIndexIsLastMaximum | src/eval.rs:195-262 | `max_by` picks a maximal key, and the last element with it |
| EvalOps.Field | src/eval.rs:15-20 | the value of an entry stored under the name, or None when no entry has it |
| EvalOps.FieldOfEntry | src/eval.rs:15-20 | with distinct keys, `field` finds exactly the stored entry |
| EvalOps.ListIndex | src/eval.rs:22-31 | a non-negative index reads from the front and a negative one from the end; out of range gives None |
| EvalOps.ListSlice | src/eval.rs:33-48 | with the defaults 0/isize::MAX/1 as passed: fails exactly on step 0; otherwise a list for a list and a tuple for a tuple, no longer than the input |
| EvalOps.StrSlice | src/eval.rs:50-65 | with the defaults 0/isize::MAX/1 as passed: fails exactly on step 0; otherwise a str no longer than the input |
| EvalOps.SliceNegativeStepIsEmpty | src/eval.rs:33-65 | as written, a negative step with no bounds gives an empty list, tuple or str |
| EvalOps.ListSliceCorrected | src/eval.rs:33-48 | the intended `list_slice` with Python's own defaults: fails exactly on step 0; otherwise of the input's kind and no longer |
| EvalOps.StrSliceCorrected | src/eval.rs:50-65 | the intended `str_slice` with Python's own defaults: fails exactly on step 0; otherwise a str no longer than the input |
| EvalOps.SliceCorrectedAgrees | src/eval.rs:33-65 | with a positive or missing step, or both bounds given, the corrected slicers give what the slicers as written give |
| EvalOps.ListReverse | src/eval.rs:454-457 | the list or tuple reversed, keeping its kind |
| EvalOps.SliceReverseIsListReverse | src/eval.rs:454-457 | with the corrected defaults, `[::-1]` on a list or tuple gives what `reverse` gives |
| EvalOps.SliceReverseIsStrReverse | src/eval.rs:458-461 | with the corrected defaults, `[::-1]` on a str gives what `reverse` gives |
| EvalOps.StrReverse | src/eval.rs:458-461 | the str reversed |
| EvalOps.Length | src/eval.rs:142-150 | the `len()` of a str (its character count) or of a list or tuple (its element count); None for every other value |
| EvalOps.DictKeys | src/eval.rs:155-157 | the keys as strs, in insertion order |
| EvalOps.DictValues | src/eval.rs:159-161 | the values, in insertion order |
| EvalOps.CmpBool | src/eval.rs:175-187 | a bool; true only for two numbers, and then exactly when the ordering holds |
| EvalOps.CmpBoolConverse | src/eval.rs:175-187 | `x < y` is `y > x` and `x <= y` is `y >= x` |
| EvalOps.CmpBoolTrichotomy | src/eval.rs:175-187 | on numbers `<=` is `<` or `eq`, and exactly one of `<`, `>=` holds |
| EvalOps.Eq | src/eval.rs:494-496 | a bool that is `eq_semantics` |
| EvalOps.Ne | src/eval.rs:498-501 | the negation of `eq` |
| EvalOps.Abs | src/eval.rs:263-270 | a non-negative float of the same magnitude |
| EvalOps.Floor | src/eval.rs:297-300 | the whole float f with f <= x < f + 1 |
| EvalOps.Ceil | src/eval.rs:292-295 | the whole float f with f - 1 < x <= f |
| EvalOps.StrContains | src/eval.rs:320-335 | a str needle gives whether it occurs; any other needle gives None |
| EvalOps.StartsWith | src/eval.rs:337-352 | true exactly for a str prefix of the subject |
| EvalOps.EndsWith | src/eval.rs:354-369 | true exactly for a str suffix of the subject |
| EvalOps.AffixImpliesContains | src/eval.rs:320-369 | a str that starts or ends with t contains t |
| EvalOps.EndsWithIsReversedStartsWith | src/eval.rs:337-369 | `ends_with` is `starts_with` on the reversed strings |
| Aggregates.FlattenedAppend | src/eval.rs:87-103 | flattening distributes over concatenation |
| Aggregates.Flattened | src/eval.rs:87-103 | the one-level flattening; its meaning is carried by the three lemmas below |
| Aggregates.FlattenedFlat | src/eval.rs:87-103 | a list with no list or tuple elements is its own flattening |
| Aggregates.FlattenedNested | src/eval.rs:87-103 | exactly one level goes: nested lists are spliced in as they are |
| Aggregates.ListFlatten | src/eval.rs:87-103 | a tuple argument fails the `PyList` downcast (NotAPyList); for a list the loop returns the one-level flattening |
| Aggregates.Includes | src/eval.rs:302-318 | some element is `==` to the search value; see the two lemmas below |
| Aggregates.IncludesMember | src/eval.rs:302-318 | every well-formed element is found in its list |
| Aggregates.IncludesAppend | src/eval.rs:302-318 | a search of a concatenation succeeds when it succeeds in either part |
| Aggregates.ListContains | src/eval.rs:302-318 | the early-exit scan returns whether some element is `==` to the search value |
| Aggregates.SumOf | src/eval.rs:463-481 | int 0 for an empty list; a float exactly when all elements are numbers; None otherwise |
| Aggregates.NumSum | src/eval.rs:463-481 | the sum of the numeric values; `Aggregates.NumSumAppend` states it adds across a concatenation |
| Aggregates.NumSumAppend | src/eval.rs:463-481 | sums add up across a concatenation |
| Aggregates.ListSum | src/eval.rs:463-481 | the loop returns `SumOf` |
| Aggregates.AverageOf | src/eval.rs:272-291 | a float exactly for a non-empty list of numbers; None otherwise |
| Aggregates.AverageOfConstant | src/eval.rs:272-291 | the mean of equal values is that value |
| Aggregates.AverageTimesLength | src/eval.rs:272-291 | mean times length is the sum |
| Aggregates.ListAvg | src/eval.rs:272-291 | the loop returns `AverageOf` |
| Aggregates.JoinOf | src/eval.rs:370-389 | fails exactly when the glue is not a str (GlueNotString); a str exactly when all elements are strs; None otherwise |
| Aggregates.JoinOfLength | src/eval.rs:370-389 | the joined length is the parts plus one glue between each pair |
| Aggregates.ListJoin | src/eval.rs:370-389 | the loop returns `JoinOf` |
| Aggregates.MinMaxOf | src/eval.rs:390-427 | None exactly when the list is empty or mixes kinds; otherwise the best element |
| Aggregates.BestIndexIsBest | src/eval.rs:390-427 | nothing beats the chosen element, and it beats every earlier element (first of the best) |
| Aggregates.BeatsTransitive | src/eval.rs:390-427 | the min/max comparison is transitive within a kind |
| Aggregates.ListMinMax | src/eval.rs:390-427 | the loop returns `MinMaxOf` |
| Aggregates.SortedOf | src/eval.rs:152-154 | fails (Unorderable) exactly for more than one element of mixed or unorderable kinds; otherwise a permutation |
| Aggregates.SortedOfAscending | src/eval.rs:152-154 | the sorted list ascends: numbers by value, strs by code points |
| Evaluator.MatchAny | src/matchs.rs:7-47 | `match_any`: each node kind dispatched to its operator, a typed operator on a base of another type giving None; see `EvaluatorProps` |
| Evaluator.MatchListOp | src/matchs.rs:49-75 | `match_list_op`; `Flatten` and the `*By` operators downcast the base to a list first (`EvaluatorProps.TupleBase`) |
| Evaluator.MatchStrOp | src/matchs.rs:126-145 | `match_str_op`, the needle, prefix or suffix evaluated against the input |
| Evaluator.MatchStructOp | src/matchs.rs:146-157 | `match_struct_op`: `field`, `keys` and `values` of the dict |
| Evaluator.MatchScalarOp | src/matchs.rs:77-83 | `match_scalar_op`: `abs`, `ceil` and `floor` of the number |
| Evaluator.MatchComparisonOp | src/matchs.rs:85-124 | `match_comparison_op`; stated by `EvaluatorProps.CompareSemantics` |
| Evaluator.EvalAnd | src/eval.rs:119-126 | `and`; stated by `EvaluatorProps.AndTruthiness` and `EvaluatorProps.DeMorgan` |
| Evaluator.EvalOr | src/eval.rs:128-135 | `or`; stated by `EvaluatorProps.OrTruthiness` and `EvaluatorProps.DeMorgan` |
| Evaluator.EvalNot | src/eval.rs:137-140 | `not`; stated by `EvaluatorProps.DoubleNegation` |
| Evaluator.NotNullPrefix | src/eval.rs:444-452 | `not_null` over a prefix of the children; stated by `EvaluatorProps.NotNullIsFirst` |
| Evaluator.MergePrefix | src/eval.rs:429-442 | `merge` over a prefix of the children; stated by the `EvaluatorProps.Merge*` lemmas |
| Evaluator.SortLike | src/eval.rs:195-262 | `list_sort_like` on the items; stated by `EvaluatorProps.SortByIsStableSort` and `EvaluatorProps.MinByMaxBy` |
| Evaluator.MultiDictPrefix | src/eval.rs:75-85 | `multi_dict` over a prefix of the entries; stated by `EvaluatorProps.MultiDictIsLastBinding` |
| Evaluator.AsList | src/eval.rs:67-73 | a list result exactly when the elements were computed |
| Evaluator.AsDict | src/eval.rs:75-85 | a dict result exactly when the entries were computed |
| Evaluator.Filtered | src/eval.rs:105-117 | no more elements than were scanned |
| Evaluator.Mapped | src/eval.rs:163-173 | one result per element scanned |
| Evaluator.KeyedPairs | src/eval.rs:195-262 | one pair per element, each carrying its element |
| Evaluator.MultiListPrefix | src/eval.rs:67-73 | one result per expression |
| EvaluatorProps.IntoLitEvaluates | src/nodes.rs:49-54 | a literal evaluates to its object on any input; an `Expr` evaluates as its node |
| EvaluatorProps.WrongTypeGivesNull | src/matchs.rs:7-47 | errors of the base propagate; a base of the wrong type gives None for list, str, struct and scalar operators |
| EvaluatorProps.TupleBase | src/matchs.rs:49-75 | on a tuple base, `flatten`, `sort_by`, `min_by` and `max_by` fail with NotAPyList |
| EvaluatorProps.TupleBaseKeepsKind | src/matchs.rs:49-75 | on a tuple base, slicing gives a tuple and `reverse` the reversed tuple |
| EvaluatorProps.CompareSemantics | src/matchs.rs:85-124 | both sides are evaluated left first, and their errors propagate; the result is the comparison of the two values |
| EvaluatorProps.EqualityIsSymmetric | src/matchs.rs:85-124 | `a == b` and `b == a` agree, and so do `!=` |
| EvaluatorProps.OrderingConverse | src/matchs.rs:85-124 | `a < b` is `b > a` and `a <= b` is `b >= a` |
| EvaluatorProps.AndTruthiness | src/eval.rs:119-126 | `and` is truthy exactly when both operands are; the right one runs only after a truthy left |
| EvaluatorProps.OrTruthiness | src/eval.rs:128-135 | `or` is truthy exactly when one operand is; the right one runs only after a falsy left |
| EvaluatorProps.DeMorgan | src/eval.rs:119-140 | `!(a && b)` equals `!a || !b` and `!(a || b)` equals `!a && !b`, errors included |
| EvaluatorProps.DoubleNegation | src/eval.rs:137-140 | `not` gives a bool, and `!!x` is x's truthiness |
| EvaluatorProps.MappedElementwise | src/eval.rs:163-173 | `list_map` succeeds exactly when every key result does; the i-th result is the key applied to the i-th element |
| EvaluatorProps.SelectSnoc | src/eval.rs:105-117 | selection of one more element keeps it exactly when its condition is truthy |
| EvaluatorProps.FilterIsSelect | src/eval.rs:105-117 | `list_filter` fails as `list_map` of the condition fails; otherwise it keeps exactly the elements whose condition is truthy, in order |
| EvaluatorProps.MultiListElementwise | src/eval.rs:67-73 | `multi_list` succeeds exactly when every expression does; the i-th element is the i-th expression's result |
| EvaluatorProps.NotNullIsFirst | src/eval.rs:444-452 | None exactly when every child gives None; otherwise the first child result that is not None |
| EvaluatorProps.MergeStepOf | src/eval.rs:429-442 | each step updates the fold with the next child when both are dicts |
| EvaluatorProps.MergeNoneIffNotADict | src/eval.rs:429-442 | `merge` gives None exactly when some child is not a dict |
| EvaluatorProps.MergeIsLastBinding | src/eval.rs:429-442 | the merged dict has distinct keys, each with its value in the last child that has it |
| EvaluatorProps.MultiDictIsLastBinding | src/eval.rs:75-85 | the dict has distinct keys, each with the result of its last entry |
| EvaluatorProps.KeyedPairsKeys | src/eval.rs:195-262 | each pair carries the sort key of its element's key result |
| EvaluatorProps.SortByIsStableSort | src/eval.rs:483-486 | `sort_by` gives a permutation of the list, ordered by key, that keeps the input order among equal keys |
| EvaluatorProps.MinByMaxBy | src/eval.rs:487-493 | None for an empty list; otherwise `min_by` gives the first element of least key and `max_by` the last of greatest key |
| EvalLoops.ListFilter | src/eval.rs:105-117 | the loop computes `Filtered` |
| EvalLoops.ListMap | src/eval.rs:163-173 | the loop computes `Mapped` |
| EvalLoops.NotNull | src/eval.rs:444-452 | the loop computes what `match_any` gives for `not_null` |
| EvalLoops.Merge | src/eval.rs:429-442 | the loop computes what `match_any` gives for `merge` |
| EvalLoops.BuildPairs | src/eval.rs:195-262 | the key loop computes `KeyedPairs` |
| EvalLoops.CollectPayloads | src/eval.rs:237-240 | the output loop of `sort_by` gives the payloads of the sorted pairs, in order |
| EvalLoops.ListSortLike | src/eval.rs:195-262 | a tuple argument fails the `PyList` downcast (NotAPyList); for a list the method computes `SortLike` for sort, min and max |
| EvalLoops.MultiList | src/eval.rs:67-73 | the loop computes `MultiListPrefix` |
| EvalLoops.MultiDict | src/eval.rs:75-85 | the loop computes `MultiDictPrefix` |
| Display.DisplaySlice | src/display.rs:108-117 | `s:e` without a step and `s:e:st` with one, empty text for a missing bound |
| Display.Render | src/display.rs:7-88 | the printer; stated by the `Display` lemmas below |
| Display.DisplayItems | src/display.rs:92-98 | the items rendered and separated by `", "`; stated by `Display.DisplayItemsIsJoin` |
| Display.DisplayMultidict | src/display.rs:100-106 | the `"key": value` entries separated by `", "`; stated by `Display.DisplayMultidictIsJoin` |
| Display.DisplayItemsIsJoin | src/display.rs:92-98 | the `", "`-join of the items' renderings, in order |
| Display.DisplayMultidictIsJoin | src/display.rs:100-106 | the `", "`-join of the `"key": value` entries, in order |
| Display.FunctionsRenderAsCalls | src/display.rs:55-75 | every unary and binary function node renders as a call of its name |
| Display.ListCallsRenderAsCalls | src/display.rs:77-82 | `merge` and `not_null` render as calls over their items |
| Display.MapRendersAsCall | src/display.rs:84 | `map` renders as a call with the `&`-marked key first |
| Display.ByFunctionsRenderAsCalls | src/display.rs:85-87 | `sort_by`, `min_by` and `max_by` render as calls with the `&`-marked key second |
| Display.FieldPathRendering | src/display.rs:13-23 | a chain of fields from `@` renders as the names joined by dots |
| Display.BracketsAttach | src/display.rs:9-23 | an index or slice after a base other than `@` is written straight after it, with no dot; after `@` an index stands alone |
| Display.FilterThenIsSuffix | src/display.rs:36-42 | the filter text is a prefix of the whole, and equals it exactly when the continuation is `@` |
| Display.BooleanOperatorsParenthesised | src/display.rs:44-46 | `&&`, `\|\|` and `!` render parenthesised |
| Display.BoundRoundTrip | src/display.rs:108-117 | reading back a written bound gives it |
| Display.SliceRoundTrip | src/display.rs:108-117 | reading back `display_slice` gives the start, end and step |
| Parsing.StripPrefix | src/parsing.rs:11-14 | present exactly when the text starts with the prefix, giving the rest |
| Parsing.CleanRhsExprForByFunc | src/parsing.rs:11-14 | a suffix of the text at most two characters shorter, with one `@` then one `.` removed |
| Parsing.CleanRhsSpellings | src/parsing.rs:11-14 | `t`, `.t`, `@t` and `@.t` clean to the same `t` |
| Parsing.EnsureLeadingDot | src/parsing.rs:39-45 | unchanged exactly for empty text or text starting with `.` or `[`; otherwise dotted |
| Parsing.EnsureLeadingDotIdempotent | src/parsing.rs:39-45 | dotting twice is dotting once |
| Parsing.ObjToJmespathLiteralString | src/parsing.rs:16-26 | the JSON text in backquotes, or NotSerializable when `json.dumps` raises |
| Parsing.ObjToJmespathString | src/parsing.rs:28-37 | a builder gives its text, a str itself, anything else its literal |
| Parsing.LiteralTextIsQuoted | src/parsing.rs:16-37 | only a failed serialisation makes the conversion fail; literal text starts and ends with a backquote |
| QueryBuilders.QueryBuilder.Slice | src/querybuilder.rs:38-49 | appends `display_slice` of the same bounds in brackets |
| QueryBuilders.QueryBuilder.Field | src/querybuilder.rs:51-57 | extends the text with `.name` |
| QueryBuilders.QueryBuilder.Index | src/querybuilder.rs:58-60 | appends a bracketed integer that reads back as the index |
| QueryBuilders.QueryBuilder.Project | src/querybuilder.rs:61-66 | fails exactly when the operand does; `[*]` and the dotted operand |
| QueryBuilders.QueryBuilder.VProject | src/querybuilder.rs:67-72 | fails exactly when the operand does; `*` and the dotted operand, as written |
| QueryBuilders.QueryBuilder.VProjectCorrected | src/querybuilder.rs:67-72 | fails exactly when the operand does; `.*` and the dotted operand |
| QueryBuilders.QueryBuilder.Flatten | src/querybuilder.rs:73-75 | appends `[]` |
| QueryBuilders.QueryBuilder.Filter | src/querybuilder.rs:77-87 | fails exactly when an operand does; `[?cond]` with one leading `@` dropped, then the dotted continuation |
| QueryBuilders.QueryBuilder.BinaryOp | src/querybuilder.rs:16-20 | fails exactly when the operand does; both sides parenthesised around the operator |
| QueryBuilders.BinaryOpMatchesDisplay | src/querybuilder.rs:16-20 | on printed operands, a comparison writes the printer's comparison symbol between the same two texts, each operand parenthesised where the printer leaves them bare |
| QueryBuilders.BinaryOpLogicMatchesDisplay | src/querybuilder.rs:16-20 | on printed operands, `&&` and `\|\|` write the printer's operator between the same two texts, each operand parenthesised where the printer parenthesises the whole |
| QueryBuilders.QueryBuilder.Not | src/querybuilder.rs:117-120 | `!(expr)` |
| QueryBuilders.QueryBuilder.Pipe | src/querybuilder.rs:121-124 | fails exactly when the operand does; `expr \| rhs` |
| QueryBuilders.QueryBuilder.Wrap | src/querybuilder.rs:126-146 | `name(expr)` for the seven wrapping methods |
| QueryBuilders.QueryBuilder.Map | src/querybuilder.rs:148-154 | fails exactly when the operand does; `map(&key, expr)` with the key cleaned |
| QueryBuilders.QueryBuilder.ByFunc | src/querybuilder.rs:21-26 | fails exactly when the operand does; `name(expr, &key)` with the key cleaned |
| QueryBuilders.NewBuilder | src/querybuilder.rs:31-36 | a new builder holds `@` |
| QueryBuilders.FieldBuilder | src/querybuilder.rs:173-176 | `field(name)` holds the bare name |
| QueryBuilders.Lit | src/querybuilder.rs:178-184 | succeeds exactly when the object serialises, holding its backquoted JSON |
| QueryBuilders.SelectPart | src/querybuilder.rs:191-195 | never empty: empty text becomes `@`, other text is kept |
| QueryBuilders.SelectList | src/querybuilder.rs:188-200 | the intended `select_list`, its arguments bound as a tuple: the loop computes `SelectListOf` |
| QueryBuilders.BindVarargs | src/querybuilder.rs:186-187 | PyO3's binding of `*args`: succeeds with the arguments exactly when the parameter is not declared `PyList`; otherwise NotAPyList |
| QueryBuilders.SelectListAsDeclaredFails | src/querybuilder.rs:186-187 | as declared, every call fails with NotAPyList, even the one with no arguments that is meant to give `[]`; bound as a tuple it is `SelectListOf` |
| QueryBuilders.ListPartsElementwise | src/querybuilder.rs:186-201 | fails exactly when some argument does; the i-th part is the i-th argument's text, `@` if empty |
| QueryBuilders.SelectDict | src/querybuilder.rs:203-222 | the loop computes `SelectDictOf` |
| QueryBuilders.DictPartsElementwise | src/querybuilder.rs:203-222 | fails exactly when some value does; the i-th part is `key: value` for the i-th keyword |
| QueryBuilders.SelectDictEmpty | src/querybuilder.rs:203-222 | no keywords give `{}` |
| QueryBuilders.FieldChainMatchesDisplay | src/querybuilder.rs:51-57 | fields chained on a new builder give `@.` and the printer's dotted path |
| QueryBuilders.WrappingMethodsMatchDisplay | src/querybuilder.rs:117-146 | `not_`, `flatten` and the wrapping methods write what the printer writes for the node |
| QueryBuilders.FieldMatchesDisplay | src/querybuilder.rs:51-54 | `field` writes the printer's sub-expression text |
| QueryBuilders.IndexMatchesDisplay | src/querybuilder.rs:58-60 | `index` writes the printer's sub-expression text |
| QueryBuilders.SliceMatchesDisplay | src/querybuilder.rs:38-49 | `slice` writes the printer's sub-expression text |
| QueryBuilders.PipeMatchesDisplay | src/querybuilder.rs:121-124 | `pipe` writes the printer's pipe text |
| QueryBuilders.ProjectionsMatchDisplay | src/querybuilder.rs:61-72 | `project` and the corrected `vproject` write the printer's projection texts |
| QueryBuilders.MapMatchesDisplay | src/querybuilder.rs:148-154 | `map_with` writes the printer's `map` text |
| QueryBuilders.ByFuncMatchesDisplay | src/querybuilder.rs:156-166 | `sort_by`, `min_by` and `max_by` write the printer's text |
| QueryBuilders.FilterMatchesDisplay | src/querybuilder.rs:77-87 | `filter` with an empty continuation writes the printer's text for a filter projection onto `@`, the condition's leading `@` being absent |
| QueryBuilders.FilterThenMatchesDisplay | src/querybuilder.rs:77-87 | `filter` with a continuation writes the printer's filter-projection text, the continuation joined by exactly one `.` |
| QueryBuilders.SelectListMatchesDisplay | src/querybuilder.rs:186-201 | `select_list` of node texts writes the printer's multi-select list |
| QueryBuilders.VProjectMissesDot | src/querybuilder.rs:67-72 | as written, the character after the base is `*`; corrected, it is `.*` |
| QueryBuilders.VProjectExample | src/querybuilder.rs:67-72 | `field("metadata").vproject("e")` gives `metadata*.e`; corrected, it gives the printer's `metadata.*.e` |

## Left out

- PyO3 plumbing is not modelled: the GIL, `#[pyclass]`/`#[pymethods]` registration, the module setup of `src/lib.rs`, and the object holder of `src/holder.rs`.
- The builder namespaces `src/exprs.rs`, `src/lists.rs`, `src/strings.rs`, `src/structs.rs` and `src/queries.rs` are not part of this model; they only construct `Node` values.
- Conversions between Python and Rust data (`src/conversions.rs`, `src/datajson.rs`) are not part of this model. Values are the `Value` datatype directly.
- `json.dumps` is foreign code. Its output is a parameter (`Parsing.HostObj.Other(dumped)`), with `None` standing for an exception.
- `Nodes.IntoLit`: the literal's `Debug` text, which `display.rs` prints for `Literal`, is not computed. `Display.Literal` carries that text as given.
- Floating point is modelled as exact reals: rounding, NaN, infinities and the int-to-f64 conversion are not modelled (`abs`, `floor`, `ceil`, `sum`, `avg`, `cmp_bool`).
- `PySequence_Check` behind `is_sized` is a foreign call. The model fixes its answer for the values modelled: true for str, list and tuple.
- The other PyO3 downcasts (`PySequence`, `PyDict`) follow type guards that admit only values they accept, so they cannot fail on the modelled values. Errors raised by Python's own `==` are not modelled.
- Values are limited to None, bool, int, float, str, list, tuple and dict; other sequence types (`range`, user classes) are not modelled.
- Aggregates.SortedOf: Python's `sorted` can order lists of lists and other types; here every list of more than one element that is not all numbers or all strs is reported as `Unorderable`.
- QueryBuilders.QueryBuilder.Index: the i64 range of the index is not checked; integers are unbounded.
- QueryBuilders.QueryBuilder.Slice: the i64 range of the `slice` bounds and step (an OverflowError when PyO3 binds them) is not checked; integers are unbounded.
- QueryBuilders.SelectDict: the `key.extract::<String>()` of each keyword is assumed to succeed, since Python keyword names are always str.
- Display.Render: the printer's node type has one variant per comparison and per function. The model groups them into the `Comparator`, `UnaryFunction` and `BinaryFunction` datatypes; the text written is the same.

## Findings

| source | as written | input that shows it | evidently intended | confidence | as-written member | corrected member |
|---|---|---|---|---|---|---|
| src/querybuilder.rs:67-72 | `vproject` appends `*` directly after the base, with no `.` before it | `field("metadata").vproject("e")` gives `metadata*.e`; tests/cases.py:49-50 expects `metadata.d.*.e` for the same call after `.d` | the object projection `metadata.*.e`, as the pretty-printer writes it (src/display.rs:33) | high, not executed | QueryBuilders.VProjectMissesDot | QueryBuilders.ProjectionsMatchDisplay |
| src/eval.rs:33-65 | `list_slice` and `str_slice` replace a missing start and end by `0` and `isize::MAX` whatever the step's sign | `[1, 2, 3][::-1]` gives `[]` | `[3, 2, 1]`: Python's own defaults for a negative step (start at the last element, stop before the first), which `list_reverse` at src/eval.rs:454-457 spells out | high, not executed | EvalOps.SliceNegativeStepIsEmpty | EvalOps.SliceReverseIsListReverse |
| src/querybuilder.rs:186-187 | `select_list` gathers `*args` but declares the parameter `&Bound<PyList>`; PyO3 gathers varargs into a tuple, and a tuple is not a `PyList` | `select_list()` or `select_list(field("a"))` raises TypeError while its arguments are bound | `[]` and `[a]`: one part per argument, as the body at src/querybuilder.rs:188-200 builds them (the parameter declared as a tuple) | medium, not executed (depends on PyO3's varargs extraction) | QueryBuilders.SelectListAsDeclaredFails | QueryBuilders.ListPartsElementwise |
