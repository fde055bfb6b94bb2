/**
 * The host data the evaluator works on: the Python objects a query receives
 * and produces, restricted to the JSON-like ones (None, bool, int, float, str,
 * list, tuple, dict), with the parts of Python's object protocol the evaluator
 * relies on: truthiness, `==`, `<` on str, and dict item assignment.
 */
module Values {
  import opened Wrappers

  /** A Python value. `Int` and `Float` are kept apart, and so are `List` and `Tuple`. */
  datatype Value =
    | Null
    | Bool(b: bool)
    | Int(i: int)
    | Float(f: real)
    | Str(s: string)
    | List(items: seq<Value>)
    | Tuple(items: seq<Value>)
    | Dict(entries: seq<(string, Value)>)

  /** A list or a tuple holding `ys`: the same kind of sequence as `v`, as slicing a list or tuple gives. */
  function SameKind(v: Value, ys: seq<Value>): (r: Value)
    requires v.List? || v.Tuple?
    ensures (r.List? || r.Tuple?) && r.items == ys && r.List? == v.List? && r.Tuple? == v.Tuple?
  {
    if v.Tuple? then Tuple(ys) else List(ys)
  }

  /**
   * PyO3's `downcast::<PyList>()`: the items of a list. A tuple passes the
   * `is_list` guard but is no `PyList`, so the downcast raises TypeError.
   */
  function DowncastList(v: Value): (r: Result<seq<Value>>)
    ensures r.Ok? <==> v.List?
    ensures r.Ok? ==> r.value == v.items
    ensures r.Err? ==> r.error == NotAPyList
  {
    if v.List? then Ok(v.items) else Err(NotAPyList)
  }

  /** Python's `bool(v)`, which `is_truthy()` calls. */
  predicate IsTruthy(v: Value) {
    match v
    case Null => false
    case Bool(b) => b
    case Int(i) => i != 0
    case Float(f) => f != 0.0
    case Str(s) => s != []
    case List(xs) => xs != []
    case Tuple(xs) => xs != []
    case Dict(d) => d != []
  }

  /** Members of Python's numeric tower: `bool` is a subclass of `int`. */
  predicate IsNumeric(v: Value) {
    v.Bool? || v.Int? || v.Float?
  }

  /** The number a numeric value stands for (`True` is 1, `False` is 0). */
  function NumVal(v: Value): real
    requires IsNumeric(v)
  {
    match v
    case Bool(b) => if b then 1.0 else 0.0
    case Int(i) => i as real
    case Float(f) => f
  }

  /** PyO3's `extract::<f64>()`: any int, bool or float converts (through `__float__`). */
  function ExtractF64(v: Value): (r: Option<real>)
    ensures r.Some? <==> IsNumeric(v)
    ensures r.Some? ==> r.value == NumVal(v)
  {
    match v
    case Bool(b) => Some(if b then 1.0 else 0.0)
    case Int(i) => Some(i as real)
    case Float(f) => Some(f)
    case _ => None
  }

  const I64_MIN: int := -0x8000_0000_0000_0000
  const I64_MAX: int := 0x7fff_ffff_ffff_ffff

  /**
   * PyO3's `extract::<i64>()`: an int (bool included) that fits in 64 bits
   * converts; a float does not, since it has no `__index__`.
   */
  function ExtractI64(v: Value): (r: Option<int>)
    ensures r.Some? <==> (v.Bool? || (v.Int? && I64_MIN <= v.i <= I64_MAX))
    ensures r.Some? ==> r.value as real == NumVal(v)
  {
    match v
    case Bool(b) => Some(if b then 1 else 0)
    case Int(i) => if I64_MIN <= i <= I64_MAX then Some(i) else None
    case _ => None
  }

  /** PyO3's `extract::<String>()`: only a str converts. */
  function ExtractString(v: Value): (r: Option<string>)
    ensures r.Some? <==> v.Str?
    ensures r.Some? ==> r.value == v.s
  {
    if v.Str? then Some(v.s) else None
  }

  /**
   * Python's `==`: numbers compare by value across bool, int and float, str by
   * content, a list with a list and a tuple with a tuple element-wise (a list
   * never equals a tuple), and dicts as CPython's `dict_equal` does:
   * equal sizes, and every key of the left dict is found in the right one
   * with an equal value.
   */
  predicate PyEq(x: Value, y: Value)
    decreases x
  {
    if IsNumeric(x) || IsNumeric(y) then
      IsNumeric(x) && IsNumeric(y) && NumVal(x) == NumVal(y)
    else
      match x
      case Null => y.Null?
      case Str(s) => y.Str? && y.s == s
      case List(xs) =>
        y.List? && |xs| == |y.items| &&
        forall k :: 0 <= k < |xs| ==> PyEq(xs[k], y.items[k])
      case Tuple(xs) =>
        y.Tuple? && |xs| == |y.items| &&
        forall k :: 0 <= k < |xs| ==> PyEq(xs[k], y.items[k])
      case Dict(d) =>
        y.Dict? && |d| == |y.entries| &&
        forall i :: 0 <= i < |d| ==>
          var found := Lookup(y.entries, d[i].0);
          found.Some? && PyEq(d[i].1, found.value)
      case _ => false
  }

  /** Python's own values keep the keys of every dict distinct, at every depth. */
  ghost predicate WellFormed(v: Value) {
    match v
    case List(xs) => forall k :: 0 <= k < |xs| ==> WellFormed(xs[k])
    case Tuple(xs) => forall k :: 0 <= k < |xs| ==> WellFormed(xs[k])
    case Dict(d) => UniqueKeys(d) && forall i :: 0 <= i < |d| ==> WellFormed(d[i].1)
    case _ => true
  }

  /** The set of keys of a dict. */
  ghost function KeySet(d: seq<(string, Value)>): set<string> {
    set i | 0 <= i < |d| :: d[i].0
  }

  lemma {:induction false} KeySetSize(d: seq<(string, Value)>)
    requires UniqueKeys(d)
    ensures |KeySet(d)| == |d|
  {
    if d != [] {
      KeySetSize(d[1..]);
      assert KeySet(d) == {d[0].0} + KeySet(d[1..]) by {
        forall k | k in KeySet(d) ensures k in {d[0].0} + KeySet(d[1..]) {
          var i :| 0 <= i < |d| && d[i].0 == k;
          if i > 0 {
            assert d[1..][i - 1] == d[i];
          }
        }
      }
      assert d[0].0 !in KeySet(d[1..]);
    }
  }

  /** Two dicts of the same size with distinct keys, the first's keys all in the second, have the same keys. */
  lemma SameKeys(d: seq<(string, Value)>, e: seq<(string, Value)>)
    requires UniqueKeys(d) && UniqueKeys(e) && |d| == |e|
    requires forall i :: 0 <= i < |d| ==> Lookup(e, d[i].0).Some?
    ensures forall j :: 0 <= j < |e| ==> Lookup(d, e[j].0).Some?
  {
    KeySetSize(d);
    KeySetSize(e);
    assert KeySet(d) <= KeySet(e);
    assert KeySet(e) - KeySet(d) == {} by {
      assert KeySet(e) == KeySet(d) + (KeySet(e) - KeySet(d));
    }
    forall j | 0 <= j < |e| ensures Lookup(d, e[j].0).Some? {
      assert e[j].0 in KeySet(e);
    }
  }

  lemma {:induction false} PyEqFlip(x: Value, y: Value)
    requires WellFormed(x) && WellFormed(y) && PyEq(x, y)
    ensures PyEq(y, x)
    decreases x
  {
    match x
    case List(xs) =>
      forall k | 0 <= k < |xs| ensures PyEq(y.items[k], xs[k]) {
        PyEqFlip(xs[k], y.items[k]);
      }
    case Tuple(xs) =>
      forall k | 0 <= k < |xs| ensures PyEq(y.items[k], xs[k]) {
        PyEqFlip(xs[k], y.items[k]);
      }
    case Dict(d) =>
      var e := y.entries;
      SameKeys(d, e);
      forall j | 0 <= j < |e| ensures Lookup(d, e[j].0).Some? && PyEq(e[j].1, Lookup(d, e[j].0).value) {
        var i :| 0 <= i < |d| && d[i] == (e[j].0, Lookup(d, e[j].0).value);
        LookupEntry(e, j);
        PyEqFlip(d[i].1, e[j].1);
      }
    case _ =>
  }

  /** Python's `==` is symmetric on well-formed values. */
  lemma PyEqSymmetric(x: Value, y: Value)
    requires WellFormed(x) && WellFormed(y)
    ensures PyEq(x, y) == PyEq(y, x)
  {
    if PyEq(x, y) {
      PyEqFlip(x, y);
    }
    if PyEq(y, x) {
      PyEqFlip(y, x);
    }
  }

  /** Every well-formed value is `==` to itself (there is no NaN among these numbers). */
  lemma {:induction false} PyEqReflexive(x: Value)
    requires WellFormed(x)
    ensures PyEq(x, x)
    decreases x
  {
    match x
    case List(xs) =>
      forall k | 0 <= k < |xs| ensures PyEq(xs[k], xs[k]) {
        PyEqReflexive(xs[k]);
      }
    case Tuple(xs) =>
      forall k | 0 <= k < |xs| ensures PyEq(xs[k], xs[k]) {
        PyEqReflexive(xs[k]);
      }
    case Dict(d) =>
      forall i | 0 <= i < |d| ensures Lookup(d, d[i].0).Some? && PyEq(d[i].1, Lookup(d, d[i].0).value) {
        LookupEntry(d, i);
        PyEqReflexive(d[i].1);
      }
    case _ =>
  }

  /** Python's `<` on str: lexicographic order of code points. */
  predicate StrLt(s: string, t: string)
    decreases |s|
  {
    if s == [] then t != []
    else if t == [] then false
    else if s[0] == t[0] then StrLt(s[1..], t[1..])
    else s[0] < t[0]
  }

  lemma {:induction false} StrLtIrreflexive(s: string)
    ensures !StrLt(s, s)
    decreases |s|
  {
    if s != [] {
      StrLtIrreflexive(s[1..]);
    }
  }

  lemma {:induction false} StrLtTransitive(a: string, b: string, c: string)
    requires StrLt(a, b) && StrLt(b, c)
    ensures StrLt(a, c)
    decreases |a|
  {
    if a != [] && b != [] && c != [] && a[0] == b[0] == c[0] {
      StrLtTransitive(a[1..], b[1..], c[1..]);
    }
  }

  lemma {:induction false} StrLtTotal(a: string, b: string)
    ensures a == b || StrLt(a, b) || StrLt(b, a)
    decreases |a|
  {
    if a != [] && b != [] && a[0] == b[0] {
      StrLtTotal(a[1..], b[1..]);
      if a[1..] == b[1..] {
        assert a == [a[0]] + a[1..] && b == [b[0]] + b[1..];
      }
    }
  }

  lemma StrLtAsymmetric(a: string, b: string)
    requires StrLt(a, b)
    ensures !StrLt(b, a)
  {
    if StrLt(b, a) {
      StrLtTransitive(a, b, a);
      StrLtIrreflexive(a);
    }
  }

  /** Python's `d.get(k)` on a dict given by its entries in insertion order. */
  function Lookup(d: seq<(string, Value)>, k: string): (r: Option<Value>)
    ensures r.None? <==> forall i :: 0 <= i < |d| ==> d[i].0 != k
    ensures r.Some? ==> exists i :: 0 <= i < |d| && d[i] == (k, r.value)
  {
    if d == [] then None
    else if d[0].0 == k then Some(d[0].1)
    else
      var r := Lookup(d[1..], k);
      assert forall i :: 1 <= i < |d| ==> d[i] == d[1..][i - 1];
      r
  }

  /** The keys of a dict, which a Python dict keeps distinct. */
  ghost predicate UniqueKeys(d: seq<(string, Value)>) {
    forall i, j :: 0 <= i < j < |d| ==> d[i].0 != d[j].0
  }

  /** In a dict with distinct keys, each entry is what `get` finds under its key. */
  lemma {:induction false} LookupEntry(d: seq<(string, Value)>, i: nat)
    requires UniqueKeys(d) && i < |d|
    ensures Lookup(d, d[i].0) == Some(d[i].1)
  {
    if i > 0 {
      assert d[1..][i - 1] == d[i];
      LookupEntry(d[1..], i - 1);
    }
  }

  /**
   * Python's `d[k] = v`: the value under an existing key is replaced in
   * place, a new key goes at the end.
   */
  function DictSet(d: seq<(string, Value)>, k: string, v: Value): (r: seq<(string, Value)>)
    ensures |r| >= |d|
  {
    if d == [] then [(k, v)]
    else if d[0].0 == k then [(k, v)] + d[1..]
    else [d[0]] + DictSet(d[1..], k, v)
  }

  /** After `d[k] = v`, `k` maps to `v` and every other key keeps its value. */
  lemma {:induction false} DictSetLookup(d: seq<(string, Value)>, k: string, v: Value, k': string)
    ensures Lookup(DictSet(d, k, v), k') == if k' == k then Some(v) else Lookup(d, k')
  {
    if d != [] && d[0].0 != k {
      DictSetLookup(d[1..], k, v, k');
    }
  }

  /** Assignment keeps the keys of a dict distinct. */
  lemma {:induction false} DictSetUnique(d: seq<(string, Value)>, k: string, v: Value)
    ensures UniqueKeys(d) ==> UniqueKeys(DictSet(d, k, v))
  {
    if d != [] && UniqueKeys(d) {
      if d[0].0 == k {
        var r := DictSet(d, k, v);
        assert forall i :: 0 <= i < |r| ==> r[i].0 == d[i].0;
      } else {
        assert UniqueKeys(d[1..]);
        DictSetUnique(d[1..], k, v);
        DictSetLookup(d[1..], k, v, d[0].0);
        assert Lookup(d[1..], d[0].0).None? by {
          forall i | 0 <= i < |d[1..]| ensures d[1..][i].0 != d[0].0 {
            assert d[1..][i] == d[i + 1];
          }
        }
      }
    }
  }

  /** Python's `d.update(e)`: each entry of `e`, in order, is assigned into `d`. */
  function DictUpdate(d: seq<(string, Value)>, e: seq<(string, Value)>): (r: seq<(string, Value)>)
    ensures |r| >= |d|
    decreases |e|
  {
    if e == [] then d else DictUpdate(DictSet(d, e[0].0, e[0].1), e[1..])
  }

  /** An update keeps the keys of a dict distinct. */
  lemma {:induction false} DictUpdateUnique(d: seq<(string, Value)>, e: seq<(string, Value)>)
    ensures UniqueKeys(d) ==> UniqueKeys(DictUpdate(d, e))
    decreases |e|
  {
    if e != [] {
      DictSetUnique(d, e[0].0, e[0].1);
      DictUpdateUnique(DictSet(d, e[0].0, e[0].1), e[1..]);
    }
  }

  /** The value of the LAST entry under `k`, which is what assigning the entries in order leaves behind. */
  function LookupLast(e: seq<(string, Value)>, k: string): (r: Option<Value>)
    ensures r.None? <==> Lookup(e, k).None?
  {
    if e == [] then None
    else
      var later := LookupLast(e[1..], k);
      if later.Some? then later else if e[0].0 == k then Some(e[0].1) else None
  }

  /** With distinct keys the last entry under a key is the only one. */
  lemma {:induction false} LookupLastUnique(e: seq<(string, Value)>, k: string)
    requires UniqueKeys(e)
    ensures LookupLast(e, k) == Lookup(e, k)
  {
    if e != [] {
      assert UniqueKeys(e[1..]);
      LookupLastUnique(e[1..], k);
      if e[0].0 == k {
        assert Lookup(e[1..], k).None? by {
          forall i | 0 <= i < |e[1..]| ensures e[1..][i].0 != k {
            assert e[1..][i] == e[i + 1];
          }
        }
      }
    }
  }

  /** After `d.update(e)`, a key of `e` maps to its last value in `e`; other keys keep their value in `d`. */
  lemma {:induction false} DictUpdateLookup(d: seq<(string, Value)>, e: seq<(string, Value)>, k: string)
    ensures Lookup(DictUpdate(d, e), k) == if LookupLast(e, k).Some? then LookupLast(e, k) else Lookup(d, k)
    decreases |e|
  {
    if e != [] {
      DictUpdateLookup(DictSet(d, e[0].0, e[0].1), e[1..], k);
      DictSetLookup(d, e[0].0, e[0].1, k);
    }
  }

  /** `dict.keys()` as a list of str, in insertion order. */
  function KeysOf(d: seq<(string, Value)>): (r: seq<Value>)
    ensures |r| == |d| && forall i :: 0 <= i < |d| ==> r[i] == Str(d[i].0)
  {
    seq(|d|, i requires 0 <= i < |d| => Str(d[i].0))
  }

  /** `dict.values()` as a list, in insertion order. */
  function ValuesOf(d: seq<(string, Value)>): (r: seq<Value>)
    ensures |r| == |d| && forall i :: 0 <= i < |d| ==> r[i] == d[i].1
  {
    seq(|d|, i requires 0 <= i < |d| => d[i].1)
  }

  /** `keys()` and `values()` list the same entries in the same order. */
  lemma KeysValuesAligned(d: seq<(string, Value)>, i: nat)
    requires UniqueKeys(d) && i < |d|
    ensures Lookup(d, KeysOf(d)[i].s) == Some(ValuesOf(d)[i])
  {
    LookupEntry(d, i);
  }
}
