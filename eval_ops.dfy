/**
 * The operators of `src/eval.rs` that work on one value without looping:
 * each takes the payload its type guard in `match_any` has established.
 */
module EvalOps {
  import opened Wrappers
  import opened Values
  import opened Checks
  import opened Slicing
  import Nodes

  /** `field`: the value under `name`, or `None` when the dict lacks the key. */
  function Field(d: seq<(string, Value)>, name: string): (r: Value)
    ensures (exists i :: 0 <= i < |d| && d[i] == (name, r)) ||
            (r == Null && forall i :: 0 <= i < |d| ==> d[i].0 != name)
  {
    match Lookup(d, name)
    case Some(x) => x
    case None => Null
  }

  /** In a dict with distinct keys, `field` finds exactly the entry stored under the name. */
  lemma FieldOfEntry(d: seq<(string, Value)>, i: nat)
    requires UniqueKeys(d) && i < |d|
    ensures Field(d, d[i].0) == d[i].1
  {
    LookupEntry(d, i);
  }

  /** `list_index`: a negative index counts from the end; out of range gives `None`. */
  function ListIndex(xs: seq<Value>, i: int): (r: Value)
    ensures 0 <= i < |xs| ==> r == xs[i]
    ensures -|xs| <= i < 0 ==> r == xs[|xs| + i]
    ensures i < -|xs| || |xs| <= i ==> r == Null
  {
    var idx := if i < 0 then |xs| + i else i;
    if idx < 0 || idx >= |xs| then Null else xs[idx]
  }

  /**
   * `list_slice`: the list or tuple sliced with a missing start, end and step
   * passed as `0`, `isize::MAX` and `1`; slicing a tuple gives a tuple.
   */
  function ListSlice(list: Value, start: Option<Nodes.Isize>, end: Option<Nodes.Isize>, step: Option<Nodes.Isize>): (r: Result<Value>)
    requires IsList(list)
    ensures r.Err? <==> step == Some(0)
    ensures r.Ok? ==> r.value.List? == list.List? && r.value.Tuple? == list.Tuple? && |r.value.items| <= |list.items|
  {
    match SliceWithDefaults(list.items, start, end, step)
    case Ok(ys) => Ok(SameKind(list, ys))
    case Err(e) => Err(e)
  }

  /** `str_slice`: the same slicing on the characters of a str. */
  function StrSlice(s: string, start: Option<Nodes.Isize>, end: Option<Nodes.Isize>, step: Option<Nodes.Isize>): (r: Result<Value>)
    ensures r.Err? <==> step == Some(0)
    ensures r.Ok? ==> r.value.Str? && |r.value.s| <= |s|
  {
    match SliceWithDefaults(s, start, end, step)
    case Ok(t) => Ok(Str(t))
    case Err(e) => Err(e)
  }

  /** As written, `[::-n]` on a list, tuple or str selects nothing. */
  lemma SliceNegativeStepIsEmpty(list: Value, s: string, step: Nodes.Isize)
    requires IsList(list) && step < 0
    ensures ListSlice(list, None, None, Some(step)) == Ok(SameKind(list, []))
    ensures StrSlice(s, None, None, Some(step)) == Ok(Str(""))
  {
    DefaultBoundsNegativeStep(list.items, step);
    DefaultBoundsNegativeStep(s, step);
  }

  /**
   * `list_slice` as evidently intended: missing bounds filled in as Python
   * fills them (`SliceUnpacked`), so that a negative step runs from the end.
   */
  function ListSliceCorrected(list: Value, start: Option<Nodes.Isize>, end: Option<Nodes.Isize>, step: Option<Nodes.Isize>): (r: Result<Value>)
    requires IsList(list)
    ensures r.Err? <==> step == Some(0)
    ensures r.Ok? ==> r.value.List? == list.List? && r.value.Tuple? == list.Tuple? && |r.value.items| <= |list.items|
  {
    match SliceUnpacked(list.items, start, end, step)
    case Ok(ys) => Ok(SameKind(list, ys))
    case Err(e) => Err(e)
  }

  /** `str_slice` as evidently intended, with Python's own defaults. */
  function StrSliceCorrected(s: string, start: Option<Nodes.Isize>, end: Option<Nodes.Isize>, step: Option<Nodes.Isize>): (r: Result<Value>)
    ensures r.Err? <==> step == Some(0)
    ensures r.Ok? ==> r.value.Str? && |r.value.s| <= |s|
  {
    match SliceUnpacked(s, start, end, step)
    case Ok(t) => Ok(Str(t))
    case Err(e) => Err(e)
  }

  /** The corrected slicers differ from the slicers as written only for a negative step with a bound missing. */
  lemma SliceCorrectedAgrees(list: Value, s: string, start: Option<Nodes.Isize>, end: Option<Nodes.Isize>, step: Option<Nodes.Isize>)
    requires IsList(list)
    requires OrElse(step, 1) > 0 || (start.Some? && end.Some?)
    ensures ListSliceCorrected(list, start, end, step) == ListSlice(list, start, end, step)
    ensures StrSliceCorrected(s, start, end, step) == StrSlice(s, start, end, step)
  {
    SliceUnpackedAgrees(list.items, start, end, step);
    SliceUnpackedAgrees(s, start, end, step);
  }

  /**
   * `list_reverse`: the slice `[isize::MAX:isize::MIN:-1]`, which is the full
   * reversal, a tuple staying a tuple.
   */
  function ListReverse(list: Value): (r: Result<Value>)
    requires IsList(list)
    ensures |list.items| <= Nodes.ISIZE_MAX ==> r == Ok(SameKind(list, Reversed(list.items)))
  {
    var xs := list.items;
    var sliced := PySlice(xs, Nodes.ISIZE_MAX, Nodes.ISIZE_MIN, -1);
    assert |xs| <= Nodes.ISIZE_MAX ==> sliced == Ok(Reversed(xs)) by {
      if |xs| <= Nodes.ISIZE_MAX {
        PySliceReverse(xs);
      }
    }
    match sliced
    case Ok(ys) => Ok(SameKind(list, ys))
    case Err(e) => Err(e)
  }

  /** With the corrected defaults, `[::-1]` on a list or tuple is what `reverse` gives. */
  lemma SliceReverseIsListReverse(list: Value)
    requires IsList(list) && |list.items| <= Nodes.ISIZE_MAX
    ensures ListSliceCorrected(list, None, None, Some(-1)) == ListReverse(list)
  {
    SliceUnpackedReverse(list.items);
  }

  /** With the corrected defaults, `[::-1]` on a str is what `reverse` gives. */
  lemma SliceReverseIsStrReverse(s: string)
    requires |s| <= Nodes.ISIZE_MAX
    ensures StrSliceCorrected(s, None, None, Some(-1)) == Ok(StrReverse(s))
  {
    SliceUnpackedReverse(s);
  }

  /** The characters of `s`, last first, collected one at a time. */
  function RevChars(s: string): (r: string)
    ensures r == Reversed(s)
  {
    if |s| == 0 then ""
    else
      var r := RevChars(s[1..]) + [s[0]];
      assert forall k :: 0 <= k < |s| - 1 ==> r[k] == s[1..][|s| - 2 - k];
      r
  }

  /** `str_reverse`: the characters in the opposite order. */
  function StrReverse(s: string): (r: Value)
    ensures r.Str? && r.s == Reversed(s)
  {
    Str(RevChars(s))
  }

  /** `length`: the size of a str, a list or a tuple; anything else gives `None`. */
  function Length(v: Value): (r: Value)
    ensures r.Int? <==> v.Str? || v.List? || v.Tuple?
    ensures v.Str? ==> r == Int(|v.s|)
    ensures (v.List? || v.Tuple?) ==> r == Int(|v.items|)
    ensures r.Int? ==> r.i >= 0
    ensures !r.Int? ==> r == Null
  {
    if !IsSized(v) then Null
    else if v.Str? then Int(|v.s|)
    else Int(|v.items|)
  }

  /** `keys`: the dict's keys as a list of str, in insertion order. */
  function DictKeys(d: seq<(string, Value)>): (r: Value)
    ensures r.List? && |r.items| == |d|
    ensures forall i :: 0 <= i < |d| ==> r.items[i] == Str(d[i].0)
  {
    List(KeysOf(d))
  }

  /** `values`: the dict's values as a list, in insertion order. */
  function DictValues(d: seq<(string, Value)>): (r: Value)
    ensures r.List? && |r.items| == |d|
    ensures forall i :: 0 <= i < |d| ==> r.items[i] == d[i].1
  {
    List(ValuesOf(d))
  }

  /** The four orderings `cmp_bool` receives. */
  datatype CompareOp = Lt | Le | Gt | Ge

  predicate Holds(op: CompareOp, x: real, y: real) {
    match op
    case Lt => x < y
    case Le => x <= y
    case Gt => x > y
    case Ge => x >= y
  }

  /** `cmp_bool`: orders two numbers; any other pair, strings included, gives `false`. */
  function CmpBool(left: Value, right: Value, op: CompareOp): (r: Value)
    ensures r.Bool?
    ensures r.b ==> IsNumber(left) && IsNumber(right)
    ensures IsNumber(left) && IsNumber(right) ==> (r.b <==> Holds(op, NumVal(left), NumVal(right)))
  {
    var result := if IsNumber(left) && IsNumber(right) then Holds(op, NumVal(left), NumVal(right)) else false;
    Bool(result)
  }

  /** Swapping the operands turns `<` into `>` and `<=` into `>=`. */
  lemma CmpBoolConverse(x: Value, y: Value)
    ensures CmpBool(x, y, Lt) == CmpBool(y, x, Gt)
    ensures CmpBool(x, y, Le) == CmpBool(y, x, Ge)
  {
  }

  /** On numbers `<=` is `<` or equal value, and exactly one of `<`, `>=` holds. */
  lemma CmpBoolTrichotomy(x: Value, y: Value)
    requires IsNumber(x) && IsNumber(y)
    ensures CmpBool(x, y, Le).b <==> CmpBool(x, y, Lt).b || EqSemantics(x, y)
    ensures CmpBool(x, y, Lt).b != CmpBool(x, y, Ge).b
  {
  }

  /** `eq`: `eq_semantics` as a bool value. */
  function Eq(left: Value, right: Value): (r: Value)
    ensures r.Bool? && (r.b <==> EqSemantics(left, right))
  {
    Bool(EqSemantics(left, right))
  }

  /** `ne`: the negation of `eq`. */
  function Ne(left: Value, right: Value): (r: Value)
    ensures r.Bool? && r.b == !Eq(left, right).b
  {
    Bool(!EqSemantics(left, right))
  }

  /** `abs`: the magnitude, as a float even for an int. */
  function Abs(number: Value): (r: Value)
    requires IsNumeric(number)
    ensures r.Float? && r.f >= 0.0
    ensures r.f == NumVal(number) || r.f == -NumVal(number)
  {
    var x := NumVal(number);
    Float(if x < 0.0 then -x else x)
  }

  /** `floor`: the greatest whole number not above the value, as a float. */
  function Floor(number: Value): (r: Value)
    requires IsNumeric(number)
    ensures r.Float? && r.f == r.f.Floor as real
    ensures r.f <= NumVal(number) < r.f + 1.0
  {
    Float(NumVal(number).Floor as real)
  }

  /** `ceil`: the least whole number not below the value, as a float. */
  function Ceil(number: Value): (r: Value)
    requires IsNumeric(number)
    ensures r.Float? && r.f == r.f.Floor as real
    ensures r.f - 1.0 < NumVal(number) <= r.f
  {
    var x := NumVal(number);
    var n: int := -((-x).Floor);
    assert (-x).Floor as real <= -x < (-x).Floor as real + 1.0;
    Float(n as real)
  }

  /** `t` occurs in `s` as a run of consecutive characters. */
  predicate HasSubstring(s: string, t: string) {
    exists i | 0 <= i <= |s| - |t| :: OccursAt(s, t, i)
  }

  /** `t` occurs in `s` starting at position `i`. */
  predicate OccursAt(s: string, t: string, i: int) {
    0 <= i <= |s| - |t| && s[i..i + |t|] == t
  }

  predicate IsPrefix(t: string, s: string) {
    |t| <= |s| && s[..|t|] == t
  }

  predicate IsSuffix(t: string, s: string) {
    |t| <= |s| && s[|s| - |t|..] == t
  }

  /** `str_contains`: a str needle gives whether it occurs; anything else gives `None`. */
  function StrContains(s: string, search: Value): (r: Value)
    ensures search.Str? <==> r.Bool?
    ensures !search.Str? ==> r == Null
    ensures search.Str? ==> (r.b <==> HasSubstring(s, search.s))
  {
    if !search.Str? then Null else Bool(HasSubstring(s, search.s))
  }

  /** `starts_with`: a non-str prefix gives `false`. */
  function StartsWith(s: string, prefix: Value): (r: Value)
    ensures r.Bool?
    ensures r.b <==> prefix.Str? && IsPrefix(prefix.s, s)
  {
    if !prefix.Str? then Bool(false) else Bool(IsPrefix(prefix.s, s))
  }

  /** `ends_with`: a non-str suffix gives `false`. */
  function EndsWith(s: string, suffix: Value): (r: Value)
    ensures r.Bool?
    ensures r.b <==> suffix.Str? && IsSuffix(suffix.s, s)
  {
    if !suffix.Str? then Bool(false) else Bool(IsSuffix(suffix.s, s))
  }

  /** A str that starts or ends with another contains it. */
  lemma AffixImpliesContains(s: string, t: string)
    ensures StartsWith(s, Str(t)).b ==> StrContains(s, Str(t)).b
    ensures EndsWith(s, Str(t)).b ==> StrContains(s, Str(t)).b
  {
    if IsPrefix(t, s) {
      assert OccursAt(s, t, 0);
    }
    if IsSuffix(t, s) {
      assert OccursAt(s, t, |s| - |t|);
    }
  }

  /** `ends_with` is `starts_with` on the reversed strings. */
  lemma {:induction false} EndsWithIsReversedStartsWith(s: string, t: string)
    ensures EndsWith(s, Str(t)) == StartsWith(Reversed(s), Str(Reversed(t)))
  {
    var rs, rt := Reversed(s), Reversed(t);
    if |t| <= |s| {
      if IsSuffix(t, s) {
        assert rs[..|rt|] == rt by {
          forall k | 0 <= k < |rt| ensures rs[k] == rt[k] {
            assert s[|s| - 1 - k] == s[|s| - |t|..][|t| - 1 - k];
          }
        }
      }
      if IsPrefix(rt, rs) {
        assert s[|s| - |t|..] == t by {
          forall k | 0 <= k < |t| ensures s[|s| - |t|..][k] == t[k] {
            assert rs[|t| - 1 - k] == rt[|t| - 1 - k];
          }
        }
      }
    }
  }
}
