/**
 * `QueryBuilder` of `src/querybuilder.rs`: an immutable value holding
 * JMESPath text, whose methods each return a new builder with more text.
 * Host objects given as operands are reduced to text by
 * `Parsing.ObjToJmespathString`, the only step that can fail.
 */
module QueryBuilders {
  import opened Wrappers
  import opened Text
  import opened Parsing
  import Display

  /** The builder's operator for a comparator of the pretty-printer. */
  function OfComparator(c: Display.Comparator): BinaryOperator {
    match c
    case Eq => BinaryOperator.Eq
    case Ne => BinaryOperator.Ne
    case Lt => BinaryOperator.Lt
    case Le => BinaryOperator.Le
    case Gt => BinaryOperator.Gt
    case Ge => BinaryOperator.Ge
  }

  /** The symbols `binary_op` writes between the two parenthesised operands. */
  datatype BinaryOperator = Eq | Ne | Gt | Ge | Lt | Le | And | Or {
    function Symbol(): string {
      match this
      case Eq => "=="
      case Ne => "!="
      case Gt => ">"
      case Ge => ">="
      case Lt => "<"
      case Le => "<="
      case And => "&&"
      case Or => "||"
    }
  }

  /** The one-argument functions the builder wraps its text in. */
  datatype Wrapper = Length | Sort | Keys | Values | ToString | ToNumber | ToArray {
    function Name(): string {
      match this
      case Length => "length"
      case Sort => "sort"
      case Keys => "keys"
      case Values => "values"
      case ToString => "to_string"
      case ToNumber => "to_number"
      case ToArray => "to_array"
    }

    /** The pretty-printer's function of the same name. */
    function AsFunction(): Display.UnaryFunction {
      match this
      case Length => Display.Length
      case Sort => Display.Sort
      case Keys => Display.Keys
      case Values => Display.Values
      case ToString => Display.ToString
      case ToNumber => Display.ToNumber
      case ToArray => Display.ToArray
    }
  }

  /** The three functions `by_func` builds. */
  datatype ByFunction = SortBy | MinBy | MaxBy {
    function Name(): string {
      match this
      case SortBy => "sort_by"
      case MinBy => "min_by"
      case MaxBy => "max_by"
    }
  }

  /** A bound as `slice` writes it: the integer, or nothing when absent. */
  function BoundOrEmpty(b: Option<int>): string {
    if b.Some? then IntToString(b.value) else ""
  }

  datatype QueryBuilder = QueryBuilder(expr: string) {

    /** `slice`: appends `[start:end]`, or `[start:end:step]` when a step is given. */
    function Slice(start: Option<int>, end: Option<int>, step: Option<int>): (r: QueryBuilder)
      ensures r.expr == expr + "[" + Display.DisplaySlice(start, end, step) + "]"
    {
      var sliceText :=
        if step.Some? then BoundOrEmpty(start) + ":" + BoundOrEmpty(end) + ":" + IntToString(step.value)
        else BoundOrEmpty(start) + ":" + BoundOrEmpty(end);
      QueryBuilder(expr + "[" + sliceText + "]")
    }

    /** `field_`, and `__getattr__`, which calls it. */
    function Field(name: string): (r: QueryBuilder)
      ensures expr <= r.expr && r.expr[|expr|..] == KWORD_DOT + name
    {
      QueryBuilder(expr + KWORD_DOT + name)
    }

    /** `index`: appends `[i]`. */
    function Index(i: int): (r: QueryBuilder)
      ensures |r.expr| >= |expr| + 3 && expr <= r.expr
      ensures r.expr[|expr|] == '[' && r.expr[|r.expr| - 1] == ']'
      ensures ParseInt(r.expr[|expr| + 1..|r.expr| - 1]) == Some(i)
    {
      var r := QueryBuilder(expr + "[" + IntToString(i) + "]");
      assert r.expr[|expr| + 1..|r.expr| - 1] == IntToString(i);
      IntRoundTrip(i);
      r
    }

    /** `project`: `[*]` and the right-hand side, dotted. */
    function Project(rhs: HostObj): (r: Result<QueryBuilder>)
      ensures r.Ok? <==> ObjToJmespathString(rhs).Ok?
      ensures r.Ok? ==> r.value.expr == expr + KWORD_ARRAY_PROJECT + EnsureLeadingDot(ObjToJmespathString(rhs).value)
    {
      var rhsText :- ObjToJmespathString(rhs);
      Ok(QueryBuilder(expr + KWORD_ARRAY_PROJECT + EnsureLeadingDot(rhsText)))
    }

    /** `vproject` as written: `*` is appended with no dot before it. */
    function VProject(rhs: HostObj): (r: Result<QueryBuilder>)
      ensures r.Ok? <==> ObjToJmespathString(rhs).Ok?
      ensures r.Ok? ==> r.value.expr == expr + KWORD_OBJECT_PROJECT + EnsureLeadingDot(ObjToJmespathString(rhs).value)
    {
      var rhsText :- ObjToJmespathString(rhs);
      Ok(QueryBuilder(expr + KWORD_OBJECT_PROJECT + EnsureLeadingDot(rhsText)))
    }

    /** `vproject` as an object projection is written in JMESPath: `.*` and the right-hand side, dotted. */
    function VProjectCorrected(rhs: HostObj): (r: Result<QueryBuilder>)
      ensures r.Ok? <==> ObjToJmespathString(rhs).Ok?
      ensures r.Ok? ==> r.value.expr == expr + ".*" + EnsureLeadingDot(ObjToJmespathString(rhs).value)
    {
      var rhsText :- ObjToJmespathString(rhs);
      Ok(QueryBuilder(expr + KWORD_DOT + KWORD_OBJECT_PROJECT + EnsureLeadingDot(rhsText)))
    }

    /** `flatten`: appends `[]`. */
    function Flatten(): (r: QueryBuilder)
      ensures r.expr == expr + KWORD_FLATTEN
    {
      QueryBuilder(expr + KWORD_FLATTEN)
    }

    /** `filter`: `[?cond]` with one leading `@` of the condition dropped, then `then`, dotted. */
    function Filter(cond: HostObj, next: HostObj): (r: Result<QueryBuilder>)
      ensures r.Ok? <==> ObjToJmespathString(cond).Ok? && ObjToJmespathString(next).Ok?
      ensures r.Ok? ==>
        var c := ObjToJmespathString(cond).value;
        var cleaned := if KWORD_CURRENT <= c then c[1..] else c;
        r.value.expr == expr + "[?" + cleaned + "]" + EnsureLeadingDot(ObjToJmespathString(next).value)
    {
      var condText :- ObjToJmespathString(cond);
      var thenText :- ObjToJmespathString(next);
      var condCleaned := StripPrefixOrSame(condText, KWORD_CURRENT);
      Ok(QueryBuilder(expr + "[?" + condCleaned + "]" + EnsureLeadingDot(thenText)))
    }

    /** `binary_op`: both operands parenthesised, the operator between them. */
    function BinaryOp(other: HostObj, op: BinaryOperator): (r: Result<QueryBuilder>)
      ensures r.Ok? <==> ObjToJmespathString(other).Ok?
      ensures r.Ok? ==> r.value.expr == "(" + expr + ") " + op.Symbol() + " (" + ObjToJmespathString(other).value + ")"
    {
      var rightExpr :- ObjToJmespathString(other);
      Ok(QueryBuilder("(" + expr + ") " + op.Symbol() + " (" + rightExpr + ")"))
    }

    /** `not_`: `!(expr)`. */
    function Not(): (r: QueryBuilder)
      ensures r.expr == "!(" + expr + ")"
    {
      QueryBuilder("!(" + expr + ")")
    }

    /** `pipe`: `expr | rhs`. */
    function Pipe(rhs: HostObj): (r: Result<QueryBuilder>)
      ensures r.Ok? <==> ObjToJmespathString(rhs).Ok?
      ensures r.Ok? ==> r.value.expr == expr + " | " + ObjToJmespathString(rhs).value
    {
      var rhsExpr :- ObjToJmespathString(rhs);
      Ok(QueryBuilder(expr + " | " + rhsExpr))
    }

    /** `length`, `sort`, `keys`, `values`, `to_string`, `to_number`, `to_array`: `name(expr)`. */
    function Wrap(w: Wrapper): (r: QueryBuilder)
      ensures r.expr == w.Name() + "(" + expr + ")"
    {
      QueryBuilder(w.Name() + "(" + expr + ")")
    }

    /** `map`: `map(&key, expr)`, the key cleaned of a leading `@` and `.`. */
    function Map(rhs: HostObj): (r: Result<QueryBuilder>)
      ensures r.Ok? <==> ObjToJmespathString(rhs).Ok?
      ensures r.Ok? ==> r.value.expr == "map(&" + CleanRhsExprForByFunc(ObjToJmespathString(rhs).value) + ", " + expr + ")"
    {
      var rhsExpr :- ObjToJmespathString(rhs);
      Ok(QueryBuilder("map(&" + CleanRhsExprForByFunc(rhsExpr) + ", " + expr + ")"))
    }

    /** `by_func` (`sort_by`, `min_by`, `max_by`): `name(expr, &key)`, the key cleaned of a leading `@` and `.`. */
    function ByFunc(f: ByFunction, rhs: HostObj): (r: Result<QueryBuilder>)
      ensures r.Ok? <==> ObjToJmespathString(rhs).Ok?
      ensures r.Ok? ==> r.value.expr == f.Name() + "(" + expr + ", &" + CleanRhsExprForByFunc(ObjToJmespathString(rhs).value) + ")"
    {
      var rhsExpr :- ObjToJmespathString(rhs);
      Ok(QueryBuilder(f.Name() + "(" + expr + ", &" + CleanRhsExprForByFunc(rhsExpr) + ")"))
    }
  }

  /** `QueryBuilder::new`: the current node, `@`. */
  function NewBuilder(): (r: QueryBuilder)
    ensures r.expr == KWORD_CURRENT
  {
    QueryBuilder(KWORD_CURRENT)
  }

  /** The `field` function: a builder holding just the name. */
  function FieldBuilder(name: string): (r: QueryBuilder)
    ensures r.expr == name
  {
    QueryBuilder(name)
  }

  /** The `lit` function: a builder holding the object as a backquoted JSON literal. */
  function Lit(dumped: Option<string>): (r: Result<QueryBuilder>)
    ensures r.Ok? <==> dumped.Some?
    ensures r.Ok? ==> r.value.expr == "`" + dumped.value + "`"
  {
    var text :- ObjToJmespathLiteralString(dumped);
    Ok(QueryBuilder(text))
  }

  /** A part of a multi-select: empty text stands for the current node. */
  function SelectPart(text: string): (r: string)
    ensures r != ""
    ensures text != "" ==> r == text
  {
    if text == "" then KWORD_CURRENT else text
  }

  /** The parts `select_list` pushes for its first `n` arguments. */
  function ListParts(args: seq<HostObj>, n: nat): (r: Result<seq<string>>)
    requires n <= |args|
    ensures r.Ok? ==> |r.value| == n
  {
    if n == 0 then Ok([])
    else
      var parts :- ListParts(args, n - 1);
      var text :- ObjToJmespathString(args[n - 1]);
      Ok(parts + [SelectPart(text)])
  }

  /** What `select_list` returns: the parts between brackets, separated by `", "`. */
  function SelectListOf(args: seq<HostObj>): Result<QueryBuilder> {
    var parts :- ListParts(args, |args|);
    Ok(QueryBuilder("[" + JoinWith(parts, ", ") + "]"))
  }

  lemma {:induction false} ListPartsErrSticky(args: seq<HostObj>, i: nat, n: nat)
    requires i <= n <= |args| && ListParts(args, i).Err?
    ensures ListParts(args, n) == ListParts(args, i)
    decreases n
  {
    if n > i {
      ListPartsErrSticky(args, i, n - 1);
    }
  }

  /**
   * `select_list` as evidently intended, its arguments bound as a tuple:
   * pushes one part per argument, then joins them.
   */
  method SelectList(args: seq<HostObj>) returns (r: Result<QueryBuilder>)
    ensures r == SelectListOf(args)
  {
    var parts: seq<string> := [];
    var i := 0;
    while i < |args|
      invariant 0 <= i <= |args|
      invariant ListParts(args, i) == Ok(parts)
    {
      var exprStr := ObjToJmespathString(args[i]);
      if exprStr.Err? {
        ListPartsErrSticky(args, i + 1, |args|);
        return Err(exprStr.error);
      }
      parts := parts + [SelectPart(exprStr.value)];
      i := i + 1;
    }
    return Ok(QueryBuilder("[" + JoinWith(parts, ", ") + "]"));
  }

  /**
   * How PyO3 binds `*args`: the positional arguments are gathered into a
   * tuple, and the parameter's declared type is then extracted from that
   * tuple. A parameter declared `PyList` cannot be, which is a TypeError.
   */
  function BindVarargs(args: seq<HostObj>, declaredList: bool): (r: Result<seq<HostObj>>)
    ensures r.Ok? <==> !declaredList
    ensures r.Ok? ==> r.value == args
    ensures r.Err? ==> r.error == NotAPyList
  {
    if declaredList then Err(NotAPyList) else Ok(args)
  }

  /**
   * `select_list` behind PyO3's argument binding: `declaredList` is whether
   * the `*args` parameter is declared `PyList`, as it is in the source.
   */
  function SelectListBound(args: seq<HostObj>, declaredList: bool): Result<QueryBuilder> {
    var bound :- BindVarargs(args, declaredList);
    SelectListOf(bound)
  }

  /**
   * As declared, every call of `select_list` fails while its arguments are
   * bound, even `select_list()`, which as intended gives `[]`; bound as a
   * tuple, it is `SelectListOf`, which the method `SelectList` computes.
   */
  lemma SelectListAsDeclaredFails(args: seq<HostObj>)
    ensures SelectListBound(args, true) == Err(NotAPyList)
    ensures SelectListBound(args, false) == SelectListOf(args)
    ensures SelectListOf([]) == Ok(QueryBuilder("[]"))
  {
    assert JoinWith([], ", ") == "";
    assert "[" + "" + "]" == "[]";
  }

  /** The `key: value` parts `select_dict` pushes for its first `n` keyword arguments. */
  function DictParts(items: seq<(string, HostObj)>, n: nat): (r: Result<seq<string>>)
    requires n <= |items|
    ensures r.Ok? ==> |r.value| == n
  {
    if n == 0 then Ok([])
    else
      var parts :- DictParts(items, n - 1);
      var valueText :- ObjToJmespathString(items[n - 1].1);
      Ok(parts + [items[n - 1].0 + ": " + SelectPart(valueText)])
  }

  /** What `select_dict` returns: the parts between braces, separated by `", "`; no keywords give `{}`. */
  function SelectDictOf(kwargs: Option<seq<(string, HostObj)>>): Result<QueryBuilder> {
    var items := if kwargs.Some? then kwargs.value else [];
    var parts :- DictParts(items, |items|);
    Ok(QueryBuilder("{" + JoinWith(parts, ", ") + "}"))
  }

  lemma {:induction false} DictPartsErrSticky(items: seq<(string, HostObj)>, i: nat, n: nat)
    requires i <= n <= |items| && DictParts(items, i).Err?
    ensures DictParts(items, n) == DictParts(items, i)
    decreases n
  {
    if n > i {
      DictPartsErrSticky(items, i, n - 1);
    }
  }

  /** `select_dict`: pushes one `key: value` part per keyword argument, then joins them. */
  method SelectDict(kwargs: Option<seq<(string, HostObj)>>) returns (r: Result<QueryBuilder>)
    ensures r == SelectDictOf(kwargs)
  {
    var parts: seq<string> := [];
    if kwargs.Some? {
      var items := kwargs.value;
      var i := 0;
      while i < |items|
        invariant 0 <= i <= |items|
        invariant DictParts(items, i) == Ok(parts)
      {
        var valueStr := ObjToJmespathString(items[i].1);
        if valueStr.Err? {
          DictPartsErrSticky(items, i + 1, |items|);
          return Err(valueStr.error);
        }
        parts := parts + [items[i].0 + ": " + SelectPart(valueStr.value)];
        i := i + 1;
      }
    }
    return Ok(QueryBuilder("{" + JoinWith(parts, ", ") + "}"));
  }

  /** The builder after `field_` with each name in turn. */
  function FieldChain(q: QueryBuilder, names: seq<string>): QueryBuilder {
    if |names| == 0 then q else FieldChain(q, names[..|names| - 1]).Field(names[|names| - 1])
  }

  /**
   * Fields chained on a new builder give `@.` and the dotted path the
   * pretty-printer renders for the same fields.
   */
  lemma {:induction false} FieldChainMatchesDisplay(names: seq<string>)
    requires |names| > 0
    ensures FieldChain(NewBuilder(), names).expr == KWORD_CURRENT + KWORD_DOT + Display.Render(Display.FieldPath(names))
  {
    Display.FieldPathRendering(names);
    if |names| > 1 {
      FieldChainMatchesDisplay(names[..|names| - 1]);
      Display.FieldPathRendering(names[..|names| - 1]);
    }
  }

  /**
   * The one-operand builder methods write what the pretty-printer writes for
   * the corresponding node, once the builder holds that node's rendering.
   */
  lemma WrappingMethodsMatchDisplay(q: QueryBuilder, n: Display.QueryNode)
    requires q.expr == Display.Render(n)
    ensures q.Not().expr == Display.Render(Display.Not(n))
    ensures q.Flatten().expr == Display.Render(Display.Flatten(n))
    ensures forall w: Wrapper :: q.Wrap(w).expr == Display.Render(Display.Call(w.AsFunction(), n))
  {
    Display.RenderNotStep(n);
    assert Display.Render(Display.Flatten(n)) == q.expr + "[]";
    forall w: Wrapper ensures q.Wrap(w).expr == Display.Render(Display.Call(w.AsFunction(), n)) {
      assert w.Name() == w.AsFunction().Name();
      Display.RenderCallStep(w.AsFunction(), n);
    }
  }

  /** A field appended to a builder is what the pretty-printer writes for a sub-expression ending in that field. */
  lemma FieldMatchesDisplay(q: QueryBuilder, n: Display.QueryNode, name: string)
    requires q.expr == Display.Render(n) && !n.This?
    ensures q.Field(name).expr == Display.Render(Display.SubExpr(n, Display.Field(name)))
  {
    assert Display.Render(Display.SubExpr(n, Display.Field(name))) == q.expr + "." + name;
  }

  /** An index appended to a builder is what the pretty-printer writes for a sub-expression ending in that index. */
  lemma IndexMatchesDisplay(q: QueryBuilder, n: Display.QueryNode, i: int)
    requires q.expr == Display.Render(n) && !n.This?
    ensures q.Index(i).expr == Display.Render(Display.SubExpr(n, Display.Index(i)))
  {
    Display.BracketsAttach(n, i, None, None, None);
  }

  /** A slice appended to a builder is what the pretty-printer writes for a sub-expression ending in that slice. */
  lemma SliceMatchesDisplay(q: QueryBuilder, n: Display.QueryNode, start: Option<int>, end: Option<int>, step: Option<int>)
    requires q.expr == Display.Render(n) && !n.This?
    ensures q.Slice(start, end, step).expr == Display.Render(Display.SubExpr(n, Display.Slice(start, end, step)))
  {
    Display.BracketsAttach(n, 0, start, end, step);
  }

  /** Text that `ensure_leading_dot` must dot: non-empty, not starting with `.` or `[`. */
  predicate NeedsDot(t: string) {
    t != "" && t[0] != '.' && t[0] != '['
  }

  /** Text that `clean_rhs_expr_for_by_func` leaves alone: not starting with `@` or `.`. */
  predicate NothingToClean(t: string) {
    t == [] || (t[0] != '@' && t[0] != '.')
  }

  /** `pipe` writes what the pretty-printer writes for a pipe. */
  lemma PipeMatchesDisplay(q: QueryBuilder, n: Display.QueryNode, m: Display.QueryNode)
    requires q.expr == Display.Render(n)
    ensures q.Pipe(Builder(Display.Render(m))) == Ok(QueryBuilder(Display.Render(Display.Pipe(n, m))))
  {
  }

  /** `project` and the corrected `vproject` write what the pretty-printer writes for the two projections. */
  lemma ProjectionsMatchDisplay(q: QueryBuilder, n: Display.QueryNode, m: Display.QueryNode)
    requires q.expr == Display.Render(n) && NeedsDot(Display.Render(m))
    ensures q.Project(Builder(Display.Render(m))) == Ok(QueryBuilder(Display.Render(Display.ProjectArray(n, m))))
    ensures q.VProjectCorrected(Builder(Display.Render(m))) == Ok(QueryBuilder(Display.Render(Display.ProjectObject(n, m))))
  {
    var a, t := Display.Render(n), Display.Render(m);
    assert EnsureLeadingDot(t) == "." + t;
    assert a + "[*]" + ("." + t) == a + "[*]." + t;
    assert a + ".*" + ("." + t) == a + ".*." + t;
  }

  /** `map` writes what the pretty-printer writes for `map`, when the key needs no cleaning. */
  lemma MapMatchesDisplay(q: QueryBuilder, n: Display.QueryNode, m: Display.QueryNode)
    requires q.expr == Display.Render(n) && NothingToClean(Display.Render(m))
    ensures q.Map(Builder(Display.Render(m))) == Ok(QueryBuilder(Display.Render(Display.MapApply(n, m))))
  {
    MapOfText(q, Display.Render(m));
    Display.RenderMapStep(n, m);
  }

  lemma MapOfText(q: QueryBuilder, t: string)
    requires NothingToClean(t)
    ensures q.Map(Builder(t)) == Ok(QueryBuilder("map(&" + t + ", " + q.expr + ")"))
  {
    assert ObjToJmespathString(Builder(t)) == Ok(t);
    assert CleanRhsExprForByFunc(t) == t;
  }

  /** The pretty-printer's node for a `*_by` function. */
  function ByNode(f: ByFunction, n: Display.QueryNode, m: Display.QueryNode): Display.QueryNode {
    match f
    case SortBy => Display.SortBy(n, m)
    case MinBy => Display.MinBy(n, m)
    case MaxBy => Display.MaxBy(n, m)
  }

  /** `by_func` writes what the pretty-printer writes for `sort_by`, `min_by` and `max_by`, when the key needs no cleaning. */
  lemma ByFuncMatchesDisplay(q: QueryBuilder, n: Display.QueryNode, m: Display.QueryNode, f: ByFunction)
    requires q.expr == Display.Render(n) && NothingToClean(Display.Render(m))
    ensures q.ByFunc(f, Builder(Display.Render(m))) == Ok(QueryBuilder(Display.Render(ByNode(f, n, m))))
  {
    var t := Display.Render(m);
    assert ObjToJmespathString(Builder(t)) == Ok(t);
    assert CleanRhsExprForByFunc(t) == t;
    ByNodeText(f, n, m);
  }

  /** The pretty-printer writes a `*_by` node as `name(base, &key)`. */
  lemma ByNodeText(f: ByFunction, n: Display.QueryNode, m: Display.QueryNode)
    ensures Display.Render(ByNode(f, n, m)) == f.Name() + "(" + Display.Render(n) + ", &" + Display.Render(m) + ")"
  {
    match f
    case SortBy =>
      Display.RenderSortByStep(n, m);
      assert f.Name() + "(" == "sort_by(";
    case MinBy =>
      Display.RenderMinByStep(n, m);
      assert f.Name() + "(" == "min_by(";
    case MaxBy =>
      Display.RenderMaxByStep(n, m);
      assert f.Name() + "(" == "max_by(";
  }

  /** A filter with an empty continuation writes what the pretty-printer writes for a filter projection onto `@`. */
  lemma FilterMatchesDisplay(q: QueryBuilder, n: Display.QueryNode, c: Display.QueryNode)
    requires q.expr == Display.Render(n)
    requires Display.Render(c) == [] || Display.Render(c)[0] != '@'
    ensures q.Filter(Builder(Display.Render(c)), PyStr("")) ==
      Ok(QueryBuilder(Display.Render(Display.FilterProjection(n, Display.This, c))))
  {
    FilterOfText(q, Display.Render(c));
    Display.RenderFilterStep(n, Display.This, c);
  }

  lemma FilterOfText(q: QueryBuilder, k: string)
    requires k == [] || k[0] != '@'
    ensures q.Filter(Builder(k), PyStr("")) == Ok(QueryBuilder(q.expr + "[?" + k + "]" + ""))
  {
    assert ObjToJmespathString(Builder(k)) == Ok(k);
    assert ObjToJmespathString(PyStr("")) == Ok("");
    assert EnsureLeadingDot("") == "";
    assert StripPrefixOrSame(k, KWORD_CURRENT) == k;
  }

  /** A filter with a continuation writes what the pretty-printer writes for a filter projection onto it. */
  lemma FilterThenMatchesDisplay(q: QueryBuilder, n: Display.QueryNode, c: Display.QueryNode, m: Display.QueryNode)
    requires q.expr == Display.Render(n) && !m.This? && NeedsDot(Display.Render(m))
    requires Display.Render(c) == [] || Display.Render(c)[0] != '@'
    ensures q.Filter(Builder(Display.Render(c)), Builder(Display.Render(m))) ==
      Ok(QueryBuilder(Display.Render(Display.FilterProjection(n, m, c))))
  {
    FilterThenOfText(q, Display.Render(c), Display.Render(m));
    Display.RenderFilterStep(n, m, c);
  }

  lemma FilterThenOfText(q: QueryBuilder, k: string, t: string)
    requires (k == [] || k[0] != '@') && NeedsDot(t)
    ensures q.Filter(Builder(k), Builder(t)) == Ok(QueryBuilder(q.expr + "[?" + k + "]" + ("." + t)))
  {
    assert ObjToJmespathString(Builder(k)) == Ok(k);
    assert ObjToJmespathString(Builder(t)) == Ok(t);
    assert StripPrefixOrSame(k, KWORD_CURRENT) == k;
    assert EnsureLeadingDot(t) == "." + t;
  }

  /**
   * `vproject` as written gives `base*.rhs`, which is not the object
   * projection `base.*.rhs` that the pretty-printer writes and JMESPath
   * parses: the `.` before `*` is missing, for every base and right-hand side.
   */
  lemma VProjectMissesDot(q: QueryBuilder, rhs: HostObj)
    ensures q.VProject(rhs).Ok? ==> q.VProject(rhs).value.expr[|q.expr|] == '*'
    ensures q.VProjectCorrected(rhs).Ok? ==> q.VProjectCorrected(rhs).value.expr[|q.expr|..|q.expr| + 2] == ".*"
  {
  }

  /** The object projection of `metadata` onto `e`, as written and as corrected. */
  lemma VProjectExample()
    ensures FieldBuilder("metadata").VProject(PyStr("e")) == Ok(QueryBuilder("metadata*.e"))
    ensures FieldBuilder("metadata").VProjectCorrected(PyStr("e")) == Ok(QueryBuilder("metadata.*.e"))
    ensures Display.Render(Display.ProjectObject(Display.Field("metadata"), Display.Field("e"))) == "metadata.*.e"
  {
    assert EnsureLeadingDot("e") == ".e";
    assert "metadata" + "*" + ".e" == "metadata*.e";
    assert "metadata" + "." + "*" + ".e" == "metadata.*.e";
    assert "metadata" + ".*." + "e" == "metadata.*.e";
  }

  /** `select_list` fails exactly when some argument cannot be written, and otherwise has one part per argument. */
  lemma {:induction false} ListPartsElementwise(args: seq<HostObj>, n: nat)
    requires n <= |args|
    ensures ListParts(args, n).Ok? <==> forall i | 0 <= i < n :: ObjToJmespathString(args[i]).Ok?
    ensures ListParts(args, n).Ok? ==>
      forall i | 0 <= i < n :: ListParts(args, n).value[i] == SelectPart(ObjToJmespathString(args[i]).value)
  {
    if n > 0 {
      ListPartsElementwise(args, n - 1);
    }
  }

  /** `select_list` of builders holding non-empty texts writes those texts, in order, between brackets. */
  lemma SelectListOfTexts(args: seq<HostObj>, texts: seq<string>)
    requires |args| == |texts|
    requires forall i | 0 <= i < |args| :: args[i] == Builder(texts[i]) && texts[i] != ""
    ensures SelectListOf(args) == Ok(QueryBuilder("[" + JoinWith(texts, ", ") + "]"))
  {
    ListPartsElementwise(args, |args|);
    assert ListParts(args, |args|).value == texts;
  }

  /**
   * `select_list` of builders holding the renderings of nodes writes what
   * the pretty-printer writes for the multi-select list of those nodes.
   */
  lemma SelectListMatchesDisplay(ns: seq<Display.QueryNode>)
    requires forall i | 0 <= i < |ns| :: Display.Render(ns[i]) != ""
    ensures SelectListOf(seq(|ns|, i requires 0 <= i < |ns| => Builder(Display.Render(ns[i])))) ==
      Ok(QueryBuilder(Display.Render(Display.MultiList(ns))))
  {
    var texts := Display.Renderings(ns);
    SelectListOfTexts(seq(|ns|, i requires 0 <= i < |ns| => Builder(Display.Render(ns[i]))), texts);
    Display.DisplayItemsIsJoin(ns);
  }

  /** `select_dict` writes one `key: value` part per keyword argument, in order; no keywords give `{}`. */
  lemma {:induction false} DictPartsElementwise(items: seq<(string, HostObj)>, n: nat)
    requires n <= |items|
    ensures DictParts(items, n).Ok? <==> forall i | 0 <= i < n :: ObjToJmespathString(items[i].1).Ok?
    ensures DictParts(items, n).Ok? ==>
      forall i | 0 <= i < n :: DictParts(items, n).value[i] == items[i].0 + ": " + SelectPart(ObjToJmespathString(items[i].1).value)
  {
    if n > 0 {
      DictPartsElementwise(items, n - 1);
    }
  }

  /** No keyword arguments, or none at all, give the empty multi-select hash. */
  lemma SelectDictEmpty()
    ensures SelectDictOf(Some([])) == Ok(QueryBuilder("{}"))
    ensures SelectDictOf(None) == Ok(QueryBuilder("{}"))
  {
    assert "{" + "" + "}" == "{}";
  }

  /** `binary_op` on two operand texts, for each operator the printer also writes. */
  lemma BinaryOpOnTexts(ta: string, tb: string, c: Display.Comparator)
    ensures OfComparator(c).Symbol() == c.Symbol()
    ensures QueryBuilder(ta).BinaryOp(Builder(tb), OfComparator(c)) ==
      Ok(QueryBuilder("(" + ta + ") " + c.Symbol() + " (" + tb + ")"))
    ensures QueryBuilder(ta).BinaryOp(Builder(tb), And) == Ok(QueryBuilder("(" + ta + ") && (" + tb + ")"))
    ensures QueryBuilder(ta).BinaryOp(Builder(tb), Or) == Ok(QueryBuilder("(" + ta + ") || (" + tb + ")"))
  {
    assert "(" + ta + ") " + BinaryOperator.And.Symbol() + " (" + tb + ")" == "(" + ta + ") && (" + tb + ")";
    assert "(" + ta + ") " + BinaryOperator.Or.Symbol() + " (" + tb + ")" == "(" + ta + ") || (" + tb + ")";
  }

  /**
   * On two printed nodes, `binary_op` with a comparison writes the printer's
   * comparison text, with each operand in parentheses.
   */
  lemma BinaryOpMatchesDisplay(a: Display.QueryNode, b: Display.QueryNode, c: Display.Comparator)
    ensures OfComparator(c).Symbol() == c.Symbol()
    ensures Display.Render(Display.Cmp(c, a, b)) == Display.Render(a) + " " + c.Symbol() + " " + Display.Render(b)
    ensures QueryBuilder(Display.Render(a)).BinaryOp(Builder(Display.Render(b)), OfComparator(c)) ==
      Ok(QueryBuilder("(" + Display.Render(a) + ") " + c.Symbol() + " (" + Display.Render(b) + ")"))
  {
    BinaryOpOnTexts(Display.Render(a), Display.Render(b), c);
    Display.RenderCmpStep(c, a, b);
  }

  /**
   * On two printed nodes, `binary_op` with `&&` or `||` writes the printer's
   * operator between the same two texts, parenthesising each operand where
   * the printer parenthesises the whole.
   */
  lemma BinaryOpLogicMatchesDisplay(a: Display.QueryNode, b: Display.QueryNode)
    ensures Display.Render(Display.And(a, b)) == "(" + (Display.Render(a) + " && " + Display.Render(b)) + ")"
    ensures QueryBuilder(Display.Render(a)).BinaryOp(Builder(Display.Render(b)), And) ==
      Ok(QueryBuilder("(" + Display.Render(a) + ") && (" + Display.Render(b) + ")"))
    ensures Display.Render(Display.Or(a, b)) == "(" + (Display.Render(a) + " || " + Display.Render(b)) + ")"
    ensures QueryBuilder(Display.Render(a)).BinaryOp(Builder(Display.Render(b)), Or) ==
      Ok(QueryBuilder("(" + Display.Render(a) + ") || (" + Display.Render(b) + ")"))
  {
    BinaryOpOnTexts(Display.Render(a), Display.Render(b), Display.Comparator.Eq);
    Display.RenderAndStep(a, b);
    Display.RenderOrStep(a, b);
  }
}
