/**
 * The type predicates of `src/checks.rs`. Each host type test
 * (`is_instance_of::<PyBool>()` and so on) is a constructor test on `Value`;
 * Python's `bool` is a subclass of `int`, so the `PyLong` test accepts it.
 */
module Checks {
  import opened Wrappers
  import opened Values

  predicate IsInstanceBool(v: Value) { v.Bool? }
  predicate IsInstanceLong(v: Value) { v.Int? || v.Bool? }
  predicate IsInstanceFloat(v: Value) { v.Float? }
  predicate IsInstanceUnicode(v: Value) { v.Str? }
  predicate IsInstanceDict(v: Value) { v.Dict? }
  /** `PyList` or `PyTuple`. */
  predicate IsInstanceListOrTuple(v: Value) { v.List? || v.Tuple? }

  /** `is_list`: a list or a tuple. */
  predicate IsList(v: Value)
    ensures IsList(v) <==> v.List? || v.Tuple?
  {
    IsInstanceListOrTuple(v)
  }

  /** `is_string`, the str test `match_any` applies before a string operator. */
  predicate IsString(v: Value)
    ensures IsString(v) <==> v.Str?
  {
    IsInstanceUnicode(v)
  }

  /** `is_object`, the dict test `match_any` applies before a struct operator. */
  predicate IsObject(v: Value)
    ensures IsObject(v) <==> v.Dict?
  {
    IsInstanceDict(v)
  }

  /** `is_sized`: `PySequence_Check`, which among these values holds for str, list and tuple. */
  predicate IsSized(v: Value)
    ensures IsSized(v) <==> v.Str? || v.List? || v.Tuple?
    ensures IsSized(v) ==> !IsNumeric(v)
  {
    IsInstanceUnicode(v) || IsInstanceListOrTuple(v)
  }

  /** `is_number`: an int or a float, but not a bool. */
  predicate IsNumber(v: Value)
    ensures IsNumber(v) <==> v.Int? || v.Float?
    ensures IsNumber(v) ==> IsNumeric(v)
  {
    (IsInstanceFloat(v) || IsInstanceLong(v)) && !IsInstanceBool(v)
  }

  /** `is_comparable`: a number or a str. */
  predicate IsComparable(v: Value)
    ensures IsComparable(v) <==> v.Int? || v.Float? || v.Str?
  {
    IsNumber(v) || IsInstanceUnicode(v)
  }

  /**
   * `is_empty`: None, False, the empty str, an empty list or tuple and an
   * empty dict; no number is empty, not even 0.
   */
  predicate IsEmpty(v: Value)
    ensures IsEmpty(v) <==>
      v == Null || v == Bool(false) || v == Str("") || v == List([]) || v == Tuple([]) || v == Dict([])
    ensures IsEmpty(v) ==> !IsNumber(v) && !IsTruthy(v)
  {
    if v.Null? then true
    else if IsInstanceBool(v) && v.b == false then true
    else if IsInstanceUnicode(v) && v.s == [] then true
    else if IsList(v) then |v.items| == 0
    else if IsInstanceDict(v) && |v.entries| == 0 then true
    else false
  }

  /** `not_empty`: a value is not empty exactly when it is truthy or a number. */
  predicate NotEmpty(v: Value)
    ensures NotEmpty(v) <==> IsTruthy(v) || IsNumber(v)
  {
    !IsEmpty(v)
  }

  /**
   * `check_01`: `vBool` is false and `extract::<i64>()` gives 0 or 1. Called,
   * as the source does, with `vBool` the bool test of `v`, it holds exactly for
   * the int 0 and the int 1.
   */
  predicate Check01(v: Value, vBool: bool)
    ensures Check01(v, vBool) <==> !vBool && (v == Int(0) || v == Int(1) || v.Bool?)
  {
    !vBool &&
    match ExtractI64(v)
    case Some(i) => i == 0 || i == 1
    case None => false
  }

  /**
   * Both call sites in `eq_semantics` pass the value's own bool flag; then
   * `check_01` holds exactly for the ints 0 and 1.
   */
  lemma Check01OwnFlag(v: Value)
    ensures Check01(v, IsInstanceBool(v)) <==> v == Int(0) || v == Int(1)
  {
  }

  /** One side is a bool and the other is the int 0 or 1. */
  predicate BoolAgainst01(x: Value, y: Value) {
    (x.Bool? && (y == Int(0) || y == Int(1))) || (y.Bool? && (x == Int(0) || x == Int(1)))
  }

  /**
   * `eq_semantics`: Python's `==`, except that a bool never equals the int 0
   * or 1 (in either order). A float 0.0 or 1.0 is not caught by the guard.
   */
  predicate EqSemantics(x: Value, y: Value)
    ensures BoolAgainst01(x, y) ==> !EqSemantics(x, y)
    ensures !BoolAgainst01(x, y) ==> (EqSemantics(x, y) <==> PyEq(x, y))
  {
    if IsNumber(x) || IsNumber(y) then
      var xBool := IsInstanceBool(x);
      var yBool := IsInstanceBool(y);
      if (Check01(x, xBool) && yBool) || (Check01(y, yBool) && xBool) then false
      else PyEq(x, y)
    else
      PyEq(x, y)
  }

  /** The guard is symmetric in x and y, and so is `==`; hence `eq_semantics` is. */
  lemma EqSemanticsSymmetric(x: Value, y: Value)
    requires WellFormed(x) && WellFormed(y)
    ensures EqSemantics(x, y) == EqSemantics(y, x)
  {
    PyEqSymmetric(x, y);
  }

  /** Where `eq_semantics` and `==` part ways: `True == 1` holds, `True == 1.0` too. */
  lemma EqSemanticsBoolCases()
    ensures PyEq(Bool(true), Int(1)) && !EqSemantics(Bool(true), Int(1))
    ensures PyEq(Int(0), Bool(false)) && !EqSemantics(Int(0), Bool(false))
    ensures EqSemantics(Bool(true), Float(1.0))
    ensures EqSemantics(Int(1), Int(1)) && EqSemantics(Bool(true), Bool(true))
  {
  }
}
