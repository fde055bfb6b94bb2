/**
 * Python's `seq[start:stop:step]` on a list or a str, as CPython computes it
 * (`PySlice_Unpack` followed by `PySlice_AdjustIndices`), for the case the
 * evaluator uses: all three parts given as `isize` values.
 */
module Slicing {
  import opened Wrappers
  import opened Nodes

  /** The elements of `s` in the opposite order. */
  function Reversed<T>(s: seq<T>): (r: seq<T>)
    ensures |r| == |s|
    ensures forall k :: 0 <= k < |s| ==> r[k] == s[|s| - 1 - k]
  {
    seq(|s|, k requires 0 <= k < |s| => s[|s| - 1 - k])
  }

  /** Reversing twice gives back the original sequence. */
  lemma ReversedTwice<T>(s: seq<T>)
    ensures Reversed(Reversed(s)) == s
  {
  }

  /**
   * One bound after adjustment: a negative bound counts from the end, and
   * a bound still out of range is clamped to the first or last position the
   * step direction can use.
   */
  function AdjustBound(i: int, len: nat, step: int): (r: int)
    requires step != 0
    ensures step > 0 ==> 0 <= r <= len
    ensures step < 0 ==> -1 <= r <= len - 1
    ensures 0 <= i < len ==> r == i
    ensures i < 0 && 0 <= i + len ==> r == i + len
  {
    if i < 0 then
      if i + len < 0 then (if step < 0 then -1 else 0) else i + len
    else if i >= len then (if step < 0 then len - 1 else len)
    else i
  }

  /** The number of elements the adjusted slice selects. */
  function SliceLength(start: int, stop: int, step: int): nat
    requires step != 0
  {
    if step < 0 then
      (if stop < start then (start - stop - 1) / (-step) + 1 else 0)
    else
      (if start < stop then (stop - start - 1) / step + 1 else 0)
  }

  /** Adjusted bounds for the given step direction. */
  predicate Adjusted(len: nat, start: int, stop: int, step: int) {
    step != 0 &&
    (step > 0 ==> 0 <= start <= len && 0 <= stop <= len) &&
    (step < 0 ==> -1 <= start <= len - 1 && -1 <= stop <= len - 1)
  }

  lemma DivMulBound(a: int, b: int)
    requires 0 <= a && 0 < b
    ensures (a / b) * b <= a
    ensures a / b <= a
  {
    var q, m := a / b, a % b;
    assert a == q * b + m;
    assert 0 <= m;
    assert 0 <= q;
    MulMonotone(1, b, q);
    assert q * 1 <= b * q;
  }

  lemma MulMonotone(k: nat, m: nat, b: nat)
    requires k <= m
    ensures k * b <= m * b
  {
    assert m * b == k * b + (m - k) * b;
  }

  /** Every position the slice selects lies inside the sequence. */
  lemma {:induction false} SliceIndexInRange(len: nat, start: int, stop: int, step: int, k: nat)
    requires Adjusted(len, start, stop, step)
    requires k < SliceLength(start, stop, step)
    ensures 0 <= start + k * step < len
    ensures step > 0 ==> start + k * step < stop
    ensures step < 0 ==> stop < start + k * step
  {
    if step > 0 {
      ForwardIndexInRange(start, stop, step, k);
    } else {
      BackwardIndexInRange(start, stop, -step, k);
      assert k * step == -(k * (-step));
    }
  }

  /** The k-th position of a forward slice lies before its stop. */
  lemma ForwardIndexInRange(start: int, stop: int, step: int, k: nat)
    requires step > 0 && start < stop && k <= (stop - start - 1) / step
    ensures start <= start + k * step < stop
  {
    var q := (stop - start - 1) / step;
    DivMulBound(stop - start - 1, step);
    MulMonotone(k, q, step);
    assert k * step <= q * step <= stop - start - 1;
  }

  /** The k-th position of a backward slice with stride `stride` lies after its stop. */
  lemma BackwardIndexInRange(start: int, stop: int, stride: int, k: nat)
    requires stride > 0 && stop < start && k <= (start - stop - 1) / stride
    ensures stop < start - k * stride <= start
  {
    var q := (start - stop - 1) / stride;
    DivMulBound(start - stop - 1, stride);
    MulMonotone(k, q, stride);
    assert k * stride <= q * stride <= start - stop - 1;
  }

  /** The slice never selects more elements than the sequence holds. */
  lemma SliceLengthBound(len: nat, start: int, stop: int, step: int)
    requires Adjusted(len, start, stop, step)
    ensures SliceLength(start, stop, step) <= len
  {
    if step > 0 && start < stop {
      DivMulBound(stop - start - 1, step);
    } else if step < 0 && stop < start {
      DivMulBound(start - stop - 1, -step);
    }
  }

  function SliceElement<T>(s: seq<T>, start: int, stop: int, step: int, k: nat): T
    requires Adjusted(|s|, start, stop, step)
    requires k < SliceLength(start, stop, step)
  {
    SliceIndexInRange(|s|, start, stop, step, k);
    s[start + k * step]
  }

  /** The step after `PySlice_Unpack`: the most negative value is raised by one. */
  function UnpackStep(step: Isize): (r: int)
    requires step != 0
    ensures r != 0 && (r < 0 <==> step < 0)
    ensures -ISIZE_MAX <= r <= ISIZE_MAX
  {
    if step < -ISIZE_MAX then -ISIZE_MAX else step
  }

  /**
   * `s[start:stop:step]`: a zero step is Python's `ValueError`; otherwise the
   * elements at `a, a+step, a+2*step, ...` between the adjusted bounds.
   */
  function PySlice<T>(s: seq<T>, start: Isize, stop: Isize, step: Isize): (r: Result<seq<T>>)
    ensures r.Err? <==> step == 0
    ensures r.Err? ==> r.error == ZeroSliceStep
    ensures r.Ok? ==> |r.value| <= |s|
    ensures r.Ok? ==> forall k :: 0 <= k < |r.value| ==> r.value[k] in s
  {
    if step == 0 then Err(ZeroSliceStep)
    else
      var st := UnpackStep(step);
      var a := AdjustBound(start, |s|, st);
      var b := AdjustBound(stop, |s|, st);
      var n := SliceLength(a, b, st);
      SliceLengthBound(|s|, a, b, st);
      var r := seq(n, k requires 0 <= k < n => SliceElement(s, a, b, st, k));
      assert forall k :: 0 <= k < n ==> r[k] in s by {
        forall k | 0 <= k < n ensures r[k] in s {
          SliceIndexInRange(|s|, a, b, st, k);
        }
      }
      Ok(r)
  }

  function OrElse(o: Option<Isize>, d: Isize): Isize {
    match o
    case Some(x) => x
    case None => d
  }

  /**
   * The slice `list_slice` and `str_slice` take: a missing start, end or step
   * is passed as `0`, `isize::MAX` or `1`.
   */
  function SliceWithDefaults<T>(s: seq<T>, start: Option<Isize>, end: Option<Isize>, step: Option<Isize>): (r: Result<seq<T>>)
    ensures r.Err? <==> step == Some(0)
  {
    PySlice(s, OrElse(start, 0), OrElse(end, ISIZE_MAX), OrElse(step, 1))
  }

  /**
   * The slice with its missing parts filled in as Python's own
   * `PySlice_Unpack` fills them: the step defaults to `1`; with a negative
   * step a missing start is `isize::MAX` and a missing stop `isize::MIN`
   * (the last and the before-first positions), otherwise `0` and `isize::MAX`.
   */
  function SliceUnpacked<T>(s: seq<T>, start: Option<Isize>, end: Option<Isize>, step: Option<Isize>): (r: Result<seq<T>>)
    ensures r.Err? <==> step == Some(0)
  {
    var st := OrElse(step, 1);
    var a := OrElse(start, if st < 0 then ISIZE_MAX else 0);
    var b := OrElse(end, if st < 0 then ISIZE_MIN else ISIZE_MAX);
    PySlice(s, a, b, st)
  }

  /**
   * The two ways of filling in a slice differ only where a bound is missing
   * and the step is negative.
   */
  lemma SliceUnpackedAgrees<T>(s: seq<T>, start: Option<Isize>, end: Option<Isize>, step: Option<Isize>)
    ensures (OrElse(step, 1) > 0 || (start.Some? && end.Some?)) ==>
      SliceUnpacked(s, start, end, step) == SliceWithDefaults(s, start, end, step)
  {
  }

  /** `s[::-1]` with Python's defaults is the full reversal. */
  lemma SliceUnpackedReverse<T>(s: seq<T>)
    requires |s| <= ISIZE_MAX
    ensures SliceUnpacked(s, None, None, Some(-1)) == Ok(Reversed(s))
  {
    PySliceReverse(s);
  }

  /** With step 1 and in-range bounds, a slice is the contiguous run `s[a..b]`. */
  lemma PySliceContiguous<T>(s: seq<T>, a: Isize, b: Isize)
    requires 0 <= a <= b <= |s|
    ensures PySlice(s, a, b, 1) == Ok(s[a..b])
  {
    var r := PySlice(s, a, b, 1).value;
    assert |r| == b - a;
    forall k | 0 <= k < |r| ensures r[k] == s[a..b][k] {
    }
    assert r == s[a..b];
  }

  /** With step 1, out-of-range bounds are clamped to the sequence: `s[:len]` is all of `s`. */
  lemma PySliceClamped<T>(s: seq<T>, a: Isize, b: Isize)
    requires 0 <= a <= |s| <= b
    ensures PySlice(s, a, b, 1) == Ok(s[a..])
  {
    var r := PySlice(s, a, b, 1).value;
    assert |r| == |s| - a;
    forall k | 0 <= k < |r| ensures r[k] == s[a..][k] {
    }
    assert r == s[a..];
  }

  /** Negative bounds count from the end: `s[-n:]` is the last n elements. */
  lemma PySliceFromEnd<T>(s: seq<T>, n: Isize)
    requires 0 < n <= |s| <= ISIZE_MAX
    ensures PySlice(s, -n, ISIZE_MAX, 1) == Ok(s[|s| - n..])
  {
    var r := PySlice(s, -n, ISIZE_MAX, 1).value;
    assert |r| == n;
    forall k | 0 <= k < |r| ensures r[k] == s[|s| - n..][k] {
    }
    assert r == s[|s| - n..];
  }

  /** `s[isize::MAX:isize::MIN:-1]`, which `list_reverse` evaluates, is the full reversal. */
  lemma PySliceReverse<T>(s: seq<T>)
    requires |s| <= ISIZE_MAX
    ensures PySlice(s, ISIZE_MAX, ISIZE_MIN, -1) == Ok(Reversed(s))
  {
    var r := PySlice(s, ISIZE_MAX, ISIZE_MIN, -1).value;
    assert |r| == |s|;
    forall k | 0 <= k < |r| ensures r[k] == Reversed(s)[k] {
    }
    assert r == Reversed(s);
  }

  /** With no bounds and step 1 the slice is the whole sequence. */
  lemma DefaultSliceIsCopy<T>(s: seq<T>)
    requires |s| <= ISIZE_MAX
    ensures SliceWithDefaults(s, None, None, None) == Ok(s)
  {
    PySliceClamped(s, 0, ISIZE_MAX);
  }

  /**
   * With no bounds, a negative step selects nothing: the defaults `0` and
   * `isize::MAX` stand for the first and last positions, in that order.
   */
  lemma DefaultBoundsNegativeStep<T>(s: seq<T>, step: Isize)
    requires step < 0
    ensures SliceWithDefaults(s, None, None, Some(step)) == Ok([])
  {
  }
}
