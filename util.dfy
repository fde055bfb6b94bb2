/**
 * `src/util.rs`: an older copy of the predicates in `src/checks.rs` that
 * wraps each answer in `PyResult`. Each is written as in that file and
 * proved to agree with its counterpart in `Checks`.
 */
module Util {
  import opened Wrappers
  import opened Values
  import Checks

  function IsList(v: Value): (r: Result<bool>)
    ensures r == Ok(Checks.IsList(v))
  {
    Ok(v.List? || v.Tuple?)
  }

  function IsSized(v: Value): (r: bool)
    ensures r == Checks.IsSized(v)
  {
    v.Str? || v.List? || v.Tuple?
  }

  function IsNumber(v: Value): (r: Result<bool>)
    ensures r == Ok(Checks.IsNumber(v))
  {
    Ok((v.Float? || v.Int? || v.Bool?) && !v.Bool?)
  }

  function IsComparable(v: Value): (r: Result<bool>)
    ensures r == Ok(Checks.IsComparable(v))
  {
    match IsNumber(v)
    case Err(e) => Err(e)
    case Ok(n) => Ok(n || v.Str?)
  }

  function IsEmpty(v: Value): (r: Result<bool>)
    ensures r == Ok(Checks.IsEmpty(v))
  {
    if v.Null? then Ok(true)
    else if v.Bool? && v.b == false then Ok(true)
    else if v.Str? && v.s == [] then Ok(true)
    else
      match IsList(v)
      case Err(e) => Err(e)
      case Ok(isList) =>
        if isList then Ok(|v.items| == 0)
        else if v.Dict? && |v.entries| == 0 then Ok(true)
        else Ok(false)
  }

  function NotEmpty(v: Value): (r: Result<bool>)
    ensures r == Ok(Checks.NotEmpty(v))
  {
    match IsEmpty(v)
    case Err(e) => Err(e)
    case Ok(empty) => Ok(!empty)
  }

  /** The 0/1 test is written out inline here rather than through `check_01`. */
  function EqSemantics(x: Value, y: Value): (r: Result<bool>)
    ensures r == Ok(Checks.EqSemantics(x, y))
  {
    match (IsNumber(x), IsNumber(y))
    case (Err(e), _) => Err(e)
    case (_, Err(e)) => Err(e)
    case (Ok(xNum), Ok(yNum)) =>
    if xNum || yNum then
      var xBool := x.Bool?;
      var yBool := y.Bool?;
      var xIs01 := !xBool && (match ExtractI64(x) case Some(i) => i == 0 || i == 1 case None => false);
      var yIs01 := !yBool && (match ExtractI64(y) case Some(i) => i == 0 || i == 1 case None => false);
      if (xIs01 && yBool) || (yIs01 && xBool) then Ok(false)
      else Ok(PyEq(x, y))
    else
      Ok(PyEq(x, y))
  }
}
