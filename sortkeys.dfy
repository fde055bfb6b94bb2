/**
 * The keys `list_sort_like` orders by, and the three ways it uses them: a
 * stable sort (`Vec::sort_by`), the first minimum (`Iterator::min_by`) and
 * the last maximum (`Iterator::max_by`).
 */
module SortKeys {
  import opened Wrappers
  import opened Values

  /**
   * The tuple `(bucket, f64 key, i64 key, string key)` built for each element
   * from the value its key expression produced.
   */
  datatype SortKey = SortKey(bucket: nat, asFloat: Option<real>, asInt: Option<int>, asString: Option<string>)

  /** Bucket 0 when any of the three extractions succeeds, 1 otherwise. */
  function KeyOf(kv: Value): (k: SortKey)
    ensures k.bucket == 0 <==> IsNumeric(kv) || kv.Str?
    ensures k.bucket <= 1
    ensures kv.Int? && I64_MIN <= kv.i <= I64_MAX ==> k == SortKey(0, Some(kv.i as real), Some(kv.i), None)
    ensures kv.Float? ==> k == SortKey(0, Some(kv.f), None, None)
    ensures kv.Str? ==> k == SortKey(0, None, None, Some(kv.s))
    ensures !IsNumeric(kv) && !kv.Str? ==> k == SortKey(1, None, None, None)
  {
    var f := ExtractF64(kv);
    var i := ExtractI64(kv);
    var s := ExtractString(kv);
    SortKey(if f.Some? || i.Some? || s.Some? then 0 else 1, f, i, s)
  }

  /** Rust's order on `Option`: `None` first. */
  predicate RealOptLt(a: Option<real>, b: Option<real>) {
    match (a, b)
    case (None, Some(_)) => true
    case (Some(x), Some(y)) => x < y
    case _ => false
  }

  predicate IntOptLt(a: Option<int>, b: Option<int>) {
    match (a, b)
    case (None, Some(_)) => true
    case (Some(x), Some(y)) => x < y
    case _ => false
  }

  /** `Option<&str>`: byte order of UTF-8, which is the code-point order `StrLt`. */
  predicate StrOptLt(a: Option<string>, b: Option<string>) {
    match (a, b)
    case (None, Some(_)) => true
    case (Some(x), Some(y)) => StrLt(x, y)
    case _ => false
  }

  /** The lexicographic order of the key tuples. */
  predicate KeyLt(a: SortKey, b: SortKey) {
    a.bucket < b.bucket ||
    (a.bucket == b.bucket &&
      (RealOptLt(a.asFloat, b.asFloat) ||
        (a.asFloat == b.asFloat &&
          (IntOptLt(a.asInt, b.asInt) ||
            (a.asInt == b.asInt && StrOptLt(a.asString, b.asString))))))
  }

  lemma KeyLtIrreflexive(a: SortKey)
    ensures !KeyLt(a, a)
  {
    if a.asString.Some? {
      StrLtIrreflexive(a.asString.value);
    }
  }

  lemma StrOptLtTransitive(a: Option<string>, b: Option<string>, c: Option<string>)
    requires StrOptLt(a, b) && StrOptLt(b, c)
    ensures StrOptLt(a, c)
  {
    if a.Some? {
      StrLtTransitive(a.value, b.value, c.value);
    }
  }

  lemma KeyLtTransitive(a: SortKey, b: SortKey, c: SortKey)
    requires KeyLt(a, b) && KeyLt(b, c)
    ensures KeyLt(a, c)
  {
    if a.bucket == b.bucket == c.bucket && a.asFloat == b.asFloat == c.asFloat && a.asInt == b.asInt == c.asInt {
      StrOptLtTransitive(a.asString, b.asString, c.asString);
    }
  }

  /** Any two distinct keys are ordered one way or the other. */
  lemma KeyLtTotal(a: SortKey, b: SortKey)
    ensures a == b || KeyLt(a, b) || KeyLt(b, a)
  {
    if a.asString.Some? && b.asString.Some? {
      StrLtTotal(a.asString.value, b.asString.value);
    }
  }

  lemma KeyLtAsymmetric(a: SortKey, b: SortKey)
    requires KeyLt(a, b)
    ensures !KeyLt(b, a)
  {
    if KeyLt(b, a) {
      KeyLtTransitive(a, b, a);
      KeyLtIrreflexive(a);
    }
  }

  /** Each element paired with its key. */
  type Keyed<T> = (SortKey, T)

  /** No later element has a smaller key than an earlier one. */
  predicate SortedByKey<T>(ps: seq<Keyed<T>>) {
    forall i, j :: 0 <= i < j < |ps| ==> !KeyLt(ps[j].0, ps[i].0)
  }

  /** The elements whose key is `k`, in order. */
  function WithKey<T>(ps: seq<Keyed<T>>, k: SortKey): (r: seq<T>)
    ensures |r| <= |ps|
  {
    if |ps| == 0 then []
    else (if ps[0].0 == k then [ps[0].1] else []) + WithKey(ps[1..], k)
  }

  /** The payloads of the pairs, in order. */
  function Payloads<T>(ps: seq<Keyed<T>>): (r: seq<T>)
    ensures |r| == |ps|
    ensures forall i :: 0 <= i < |ps| ==> r[i] == ps[i].1
  {
    seq(|ps|, i requires 0 <= i < |ps| => ps[i].1)
  }

  /** Insert `x` before the first element whose key is not smaller than its own. */
  function Insert<T(==)>(x: Keyed<T>, ys: seq<Keyed<T>>): (r: seq<Keyed<T>>)
    ensures multiset(r) == multiset{x} + multiset(ys)
  {
    if |ys| == 0 || !KeyLt(ys[0].0, x.0) then [x] + ys
    else
      assert ys == [ys[0]] + ys[1..];
      [ys[0]] + Insert(x, ys[1..])
  }

  /** A stable sort by key: insertion of each element, the last first. */
  function StableSort<T(==)>(ps: seq<Keyed<T>>): (r: seq<Keyed<T>>)
    ensures multiset(r) == multiset(ps)
    ensures |r| == |ps|
  {
    if |ps| == 0 then []
    else
      var rest := StableSort(ps[1..]);
      assert ps == [ps[0]] + ps[1..];
      assert multiset(ps) == multiset{ps[0]} + multiset(ps[1..]);
      var r := Insert(ps[0], rest);
      assert |r| == |multiset(r)|;
      r
  }

  lemma {:induction false} InsertSorted<T>(x: Keyed<T>, ys: seq<Keyed<T>>)
    requires SortedByKey(ys)
    ensures SortedByKey(Insert(x, ys))
  {
    if |ys| == 0 || !KeyLt(ys[0].0, x.0) {
      var r := [x] + ys;
      forall i, j | 0 <= i < j < |r| ensures !KeyLt(r[j].0, r[i].0) {
        if i == 0 && j > 1 {
          var y := ys[j - 1];
          assert !KeyLt(y.0, ys[0].0);
          if KeyLt(y.0, x.0) {
            KeyLtTotal(ys[0].0, y.0);
            if ys[0].0 != y.0 {
              KeyLtTransitive(ys[0].0, y.0, x.0);
            }
          }
        }
      }
    } else {
      InsertSorted(x, ys[1..]);
      var tail := Insert(x, ys[1..]);
      var r := [ys[0]] + tail;
      forall i, j | 0 <= i < j < |r| ensures !KeyLt(r[j].0, r[i].0) {
        if i == 0 {
          assert r[j] in multiset(tail);
          assert r[j] == x || r[j] in ys[1..];
          if r[j] == x {
            KeyLtAsymmetric(ys[0].0, x.0);
          } else {
            var m :| 0 <= m < |ys[1..]| && ys[1..][m] == r[j];
            assert ys[m + 1] == r[j];
          }
        }
      }
    }
  }

  /** The stable sort orders its result by key. */
  lemma {:induction false} StableSortSorted<T>(ps: seq<Keyed<T>>)
    ensures SortedByKey(StableSort(ps))
  {
    if |ps| > 0 {
      StableSortSorted(ps[1..]);
      InsertSorted(ps[0], StableSort(ps[1..]));
    }
  }

  lemma {:induction false} InsertWithKey<T>(x: Keyed<T>, ys: seq<Keyed<T>>, k: SortKey)
    ensures WithKey(Insert(x, ys), k) == (if x.0 == k then [x.1] else []) + WithKey(ys, k)
  {
    if |ys| == 0 || !KeyLt(ys[0].0, x.0) {
      assert ([x] + ys)[1..] == ys;
    } else {
      InsertWithKey(x, ys[1..], k);
      assert ([ys[0]] + Insert(x, ys[1..]))[1..] == Insert(x, ys[1..]);
      if x.0 == k {
        KeyLtIrreflexive(k);
        assert ys[0].0 != k;
      }
    }
  }

  /** Stability: the elements sharing any one key keep their relative order. */
  lemma {:induction false} StableSortStable<T>(ps: seq<Keyed<T>>, k: SortKey)
    ensures WithKey(StableSort(ps), k) == WithKey(ps, k)
  {
    if |ps| > 0 {
      StableSortStable(ps[1..], k);
      InsertWithKey(ps[0], StableSort(ps[1..]), k);
    }
  }

  lemma PayloadsCons<T>(x: Keyed<T>, ys: seq<Keyed<T>>)
    ensures Payloads([x] + ys) == [x.1] + Payloads(ys)
  {
  }

  lemma {:induction false} InsertPayloads<T>(x: Keyed<T>, ys: seq<Keyed<T>>)
    ensures multiset(Payloads(Insert(x, ys))) == multiset{x.1} + multiset(Payloads(ys))
  {
    if |ys| == 0 || !KeyLt(ys[0].0, x.0) {
      PayloadsCons(x, ys);
    } else {
      InsertPayloads(x, ys[1..]);
      PayloadsCons(ys[0], Insert(x, ys[1..]));
      PayloadsCons(ys[0], ys[1..]);
      assert ys == [ys[0]] + ys[1..];
    }
  }

  /** The sort rearranges the elements without adding or dropping any. */
  lemma {:induction false} StableSortPayloads<T>(ps: seq<Keyed<T>>)
    ensures multiset(Payloads(StableSort(ps))) == multiset(Payloads(ps))
  {
    if |ps| > 0 {
      StableSortPayloads(ps[1..]);
      InsertPayloads(ps[0], StableSort(ps[1..]));
      PayloadsCons(ps[0], ps[1..]);
      assert ps == [ps[0]] + ps[1..];
    }
  }

  /**
   * The index `Iterator::min_by` settles on among the first `n` pairs: the
   * running best is replaced only by a strictly smaller key.
   */
  function MinIndex<T>(ps: seq<Keyed<T>>, n: nat): (i: nat)
    requires 0 < n <= |ps|
    ensures i < n
  {
    if n == 1 then 0
    else
      var b := MinIndex(ps, n - 1);
      if KeyLt(ps[n - 1].0, ps[b].0) then n - 1 else b
  }

  /**
   * The index `Iterator::max_by` settles on among the first `n` pairs: the
   * running best is replaced unless the new key is strictly smaller.
   */
  function MaxIndex<T>(ps: seq<Keyed<T>>, n: nat): (i: nat)
    requires 0 < n <= |ps|
    ensures i < n
  {
    if n == 1 then 0
    else
      var b := MaxIndex(ps, n - 1);
      if KeyLt(ps[n - 1].0, ps[b].0) then b else n - 1
  }

  /** `min_by` picks a minimal key, and the first element carrying it. */
  lemma {:induction false} MinIndexIsFirstMinimum<T>(ps: seq<Keyed<T>>, n: nat)
    requires 0 < n <= |ps|
    ensures forall j :: 0 <= j < n ==> !KeyLt(ps[j].0, ps[MinIndex(ps, n)].0)
    ensures forall j :: 0 <= j < MinIndex(ps, n) ==> KeyLt(ps[MinIndex(ps, n)].0, ps[j].0)
  {
    if n == 1 {
      KeyLtIrreflexive(ps[0].0);
    } else {
      MinIndexIsFirstMinimum(ps, n - 1);
      var b := MinIndex(ps, n - 1);
      if KeyLt(ps[n - 1].0, ps[b].0) {
        forall j | 0 <= j < n ensures !KeyLt(ps[j].0, ps[n - 1].0) {
          if j == n - 1 {
            KeyLtIrreflexive(ps[j].0);
          } else if KeyLt(ps[j].0, ps[n - 1].0) {
            KeyLtTransitive(ps[j].0, ps[n - 1].0, ps[b].0);
          }
        }
        forall j | 0 <= j < n - 1 ensures KeyLt(ps[n - 1].0, ps[j].0) {
          KeyLtTotal(ps[b].0, ps[j].0);
          if ps[b].0 != ps[j].0 {
            KeyLtTransitive(ps[n - 1].0, ps[b].0, ps[j].0);
          }
        }
      } else {
        forall j | 0 <= j < n ensures !KeyLt(ps[j].0, ps[b].0) {
        }
      }
    }
  }

  /** `max_by` picks a maximal key, and the last element carrying it. */
  lemma {:induction false} MaxIndexIsLastMaximum<T>(ps: seq<Keyed<T>>, n: nat)
    requires 0 < n <= |ps|
    ensures forall j :: 0 <= j < n ==> !KeyLt(ps[MaxIndex(ps, n)].0, ps[j].0)
    ensures forall j :: MaxIndex(ps, n) < j < n ==> KeyLt(ps[j].0, ps[MaxIndex(ps, n)].0)
  {
    if n == 1 {
      KeyLtIrreflexive(ps[0].0);
    } else {
      MaxIndexIsLastMaximum(ps, n - 1);
      var b := MaxIndex(ps, n - 1);
      if KeyLt(ps[n - 1].0, ps[b].0) {
        KeyLtAsymmetric(ps[n - 1].0, ps[b].0);
      } else {
        forall j | 0 <= j < n ensures !KeyLt(ps[n - 1].0, ps[j].0) {
          if j == n - 1 {
            KeyLtIrreflexive(ps[j].0);
          } else if KeyLt(ps[n - 1].0, ps[j].0) {
            KeyLtTotal(ps[n - 1].0, ps[b].0);
            if ps[n - 1].0 != ps[b].0 {
              KeyLtTransitive(ps[b].0, ps[n - 1].0, ps[j].0);
            }
          }
        }
      }
    }
  }
}
