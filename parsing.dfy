/**
 * The text helpers of `src/parsing.rs` that the query builder assembles
 * JMESPath strings with.
 */
module Parsing {
  import opened Wrappers

  const KWORD_CURRENT: string := "@"
  const KWORD_DOT: string := "."
  const KWORD_ARRAY_PROJECT: string := "[*]"
  const KWORD_OBJECT_PROJECT: string := "*"
  const KWORD_FLATTEN: string := "[]"

  /** Rust's `strip_prefix`: the rest of `s` when it starts with `p`. */
  function StripPrefix(s: string, p: string): (r: Option<string>)
    ensures r.Some? <==> p <= s
    ensures r.Some? ==> p + r.value == s
  {
    if p <= s then
      assert s == s[..|p|] + s[|p|..];
      Some(s[|p|..])
    else None
  }

  /** `strip_prefix(p).unwrap_or(s)`. */
  function StripPrefixOrSame(s: string, p: string): (r: string)
    ensures p <= s ==> p + r == s
    ensures !(p <= s) ==> r == s
  {
    match StripPrefix(s, p)
    case Some(rest) => rest
    case None => s
  }

  /** `clean_rhs_expr_for_by_func`: drops at most one leading `@`, then at most one leading `.`. */
  function CleanRhsExprForByFunc(s: string): (r: string)
    ensures |s| - 2 <= |r| <= |s| && r == s[|s| - |r|..]
    ensures |r| == |s| ==> s == [] || (s[0] != '@' && s[0] != '.')
    ensures |r| == |s| - 2 ==> s[..2] == "@."
    ensures |r| == |s| - 1 ==> s[0] == '.' || (s[0] == '@' && (|s| == 1 || s[1] != '.'))
  {
    var cleaned := StripPrefixOrSame(s, KWORD_CURRENT);
    StripPrefixOrSame(cleaned, KWORD_DOT)
  }

  /**
   * A key expression written bare, as `.key`, as `@key` or as `@.key`
   * reaches the `*_by` functions as the same text.
   */
  lemma CleanRhsSpellings(t: string)
    requires t == [] || (t[0] != '@' && t[0] != '.')
    ensures CleanRhsExprForByFunc(t) == t
    ensures CleanRhsExprForByFunc(KWORD_DOT + t) == t
    ensures CleanRhsExprForByFunc(KWORD_CURRENT + t) == t
    ensures CleanRhsExprForByFunc(KWORD_CURRENT + KWORD_DOT + t) == t
  {
    assert (KWORD_DOT + t)[1..] == t;
    assert (KWORD_CURRENT + t)[1..] == t;
    assert (KWORD_CURRENT + KWORD_DOT + t)[1..] == KWORD_DOT + t;
  }

  /** `ensure_leading_dot`: prefixes `.` unless the text is empty or already starts with `.` or `[`. */
  function EnsureLeadingDot(text: string): (r: string)
    ensures r == text || r == KWORD_DOT + text
    ensures r == "" || r[0] == '.' || r[0] == '['
    ensures r == text <==> text == "" || text[0] == '.' || text[0] == '['
  {
    if KWORD_DOT <= text || (|text| > 0 && text[0] == '[') || |text| == 0 then text
    else KWORD_DOT + text
  }

  /** Dotting twice is dotting once. */
  lemma EnsureLeadingDotIdempotent(text: string)
    ensures EnsureLeadingDot(EnsureLeadingDot(text)) == EnsureLeadingDot(text)
  {
  }

  /**
   * A host object handed to the builder: another builder, a Python str, or
   * any other object, given by what `json.dumps(obj, default=str)` returns
   * for it (`None` when it raises). The JSON encoder is the host's and is
   * not part of this model.
   */
  datatype HostObj = Builder(expr: string) | PyStr(s: string) | Other(dumped: Option<string>)

  /** `obj_to_jmespath_literal_string`: the JSON text between backquotes. */
  function ObjToJmespathLiteralString(dumped: Option<string>): (r: Result<string>)
    ensures r.Ok? <==> dumped.Some?
    ensures r.Ok? ==> r.value == "`" + dumped.value + "`"
    ensures r.Err? ==> r.error == NotSerializable
  {
    match dumped
    case Some(s) => Ok("`" + s + "`")
    case None => Err(NotSerializable)
  }

  /** `obj_to_jmespath_string`: a builder's text and a str as they are, anything else as a literal. */
  function ObjToJmespathString(o: HostObj): (r: Result<string>)
    ensures o.Builder? ==> r == Ok(o.expr)
    ensures o.PyStr? ==> r == Ok(o.s)
    ensures o.Other? ==> r == ObjToJmespathLiteralString(o.dumped)
  {
    match o
    case Builder(e) => Ok(e)
    case PyStr(s) => Ok(s)
    case Other(d) => ObjToJmespathLiteralString(d)
  }

  /** Only a literal can fail, and a literal's text is always backquoted. */
  lemma LiteralTextIsQuoted(o: HostObj)
    ensures ObjToJmespathString(o).Err? ==> o.Other? && o.dumped.None?
    ensures o.Other? && ObjToJmespathString(o).Ok? ==>
      var t := ObjToJmespathString(o).value; |t| >= 2 && t[0] == '`' && t[|t| - 1] == '`'
  {
  }
}
