/**
 * The pretty-printer of `src/display.rs`: a query tree rendered as
 * JMESPath text. It renders the query tree of the path-expression front
 * end (fields, sub-expressions, pipes, projections), not the evaluator's
 * `Nodes.Node`, so it has a datatype of its own.
 */
module Display {
  import opened Wrappers
  import opened Text

  /** The six comparison operators, each written infix. */
  datatype Comparator = Eq | Ne | Lt | Le | Gt | Ge {
    function Symbol(): string {
      match this
      case Eq => "=="
      case Ne => "!="
      case Lt => "<"
      case Le => "<="
      case Gt => ">"
      case Ge => ">="
    }
  }

  /** The one-argument JMESPath functions, each written `name(arg)`. */
  datatype UnaryFunction =
    | Length | Sort | Keys | Values | ToArray | ToString | ToNumber | Abs
    | Avg | Ceil | Floor | Max | Min | Reverse | Sum | Type
  {
    function Name(): string {
      match this
      case Length => "length"
      case Sort => "sort"
      case Keys => "keys"
      case Values => "values"
      case ToArray => "to_array"
      case ToString => "to_string"
      case ToNumber => "to_number"
      case Abs => "abs"
      case Avg => "avg"
      case Ceil => "ceil"
      case Floor => "floor"
      case Max => "max"
      case Min => "min"
      case Reverse => "reverse"
      case Sum => "sum"
      case Type => "type"
    }
  }

  /** The two-argument JMESPath functions, each written `name(a, b)`. */
  datatype BinaryFunction = Contains | EndsWith | StartsWith | Join {
    function Name(): string {
      match this
      case Contains => "contains"
      case EndsWith => "ends_with"
      case StartsWith => "starts_with"
      case Join => "join"
    }
  }

  /**
   * A query tree. A literal carries its host object's debug rendering,
   * which is produced by the host and taken here as given text.
   */
  datatype QueryNode =
    | This
    | Field(name: string)
    | Index(index: int)
    | Slice(start: Option<int>, end: Option<int>, step: Option<int>)
    | Literal(repr: string)
    | SubExpr(lhs: QueryNode, rhs: QueryNode)
    | Pipe(left: QueryNode, right: QueryNode)
    | MultiList(items: seq<QueryNode>)
    | MultiDict(entries: seq<(string, QueryNode)>)
    | ProjectArray(arrayBase: QueryNode, arrayRhs: QueryNode)
    | ProjectObject(objectBase: QueryNode, objectRhs: QueryNode)
    | Flatten(inner: QueryNode)
    | FilterProjection(filterBase: QueryNode, thenRhs: QueryNode, cond: QueryNode)
    | And(a: QueryNode, b: QueryNode)
    | Or(a: QueryNode, b: QueryNode)
    | Not(operand: QueryNode)
    | Cmp(comparator: Comparator, cmpLeft: QueryNode, cmpRight: QueryNode)
    | Call(unary: UnaryFunction, arg: QueryNode)
    | Call2(binary: BinaryFunction, first: QueryNode, second: QueryNode)
    | Merge(mergeItems: seq<QueryNode>)
    | NotNull(choices: seq<QueryNode>)
    | MapApply(mapBase: QueryNode, mapKey: QueryNode)
    | SortBy(sortBase: QueryNode, sortKey: QueryNode)
    | MinBy(minBase: QueryNode, minKey: QueryNode)
    | MaxBy(maxBase: QueryNode, maxKey: QueryNode)

  /** `impl Display for Node`. */
  function Render(n: QueryNode): string
    decreases n, 1
  {
    match n
    case This => "@"
    case Field(name) => name
    case Index(i) => "[" + IntToString(i) + "]"
    case Slice(start, end, step) => "[" + DisplaySlice(start, end, step) + "]"
    case Literal(repr) => repr
    case SubExpr(lhs, rhs) =>
      if lhs.This? then Render(rhs)
      else if rhs.Field? then Render(lhs) + "." + rhs.name
      else if rhs.Index? || rhs.Slice? then Render(lhs) + Render(rhs)
      else Render(lhs) + ".(" + Render(rhs) + ")"
    case Pipe(l, r) => Render(l) + " | " + Render(r)
    case MultiList(items) => "[" + DisplayItems(items) + "]"
    case MultiDict(entries) => "{" + DisplayMultidict(entries, |entries|) + "}"
    case ProjectArray(base, rhs) => Render(base) + "[*]." + Render(rhs)
    case ProjectObject(base, rhs) => Render(base) + ".*." + Render(rhs)
    case Flatten(inner) => Render(inner) + "[]"
    case FilterProjection(base, next, cond) =>
      Render(base) + "[?" + Render(cond) + "]" + (if next.This? then "" else "." + Render(next))
    case And(a, b) => "(" + Render(a) + " && " + Render(b) + ")"
    case Or(a, b) => "(" + Render(a) + " || " + Render(b) + ")"
    case Not(x) => "!(" + Render(x) + ")"
    case Cmp(c, a, b) => Render(a) + " " + c.Symbol() + " " + Render(b)
    case Call(f, x) => f.Name() + "(" + Render(x) + ")"
    case Call2(f, a, b) => f.Name() + "(" + Render(a) + ", " + Render(b) + ")"
    case Merge(items) => "merge(" + DisplayItems(items) + ")"
    case NotNull(items) => "not_null(" + DisplayItems(items) + ")"
    case MapApply(base, key) => "map(&" + Render(key) + ", " + Render(base) + ")"
    case SortBy(base, key) => "sort_by(" + Render(base) + ", &" + Render(key) + ")"
    case MinBy(base, key) => "min_by(" + Render(base) + ", &" + Render(key) + ")"
    case MaxBy(base, key) => "max_by(" + Render(base) + ", &" + Render(key) + ")"
  }

  // One step of `Render` for the nodes the call-shape lemmas talk about.

  lemma RenderCallStep(f: UnaryFunction, x: QueryNode)
    ensures Render(Call(f, x)) == f.Name() + "(" + Render(x) + ")"
  {
  }

  lemma RenderCall2Step(f: BinaryFunction, a: QueryNode, b: QueryNode)
    ensures Render(Call2(f, a, b)) == f.Name() + "(" + Render(a) + ", " + Render(b) + ")"
  {
  }

  lemma RenderMapStep(base: QueryNode, key: QueryNode)
    ensures Render(MapApply(base, key)) == "map(&" + Render(key) + ", " + Render(base) + ")"
  {
  }

  lemma RenderSortByStep(base: QueryNode, key: QueryNode)
    ensures Render(SortBy(base, key)) == "sort_by(" + Render(base) + ", &" + Render(key) + ")"
  {
  }

  lemma RenderMinByStep(base: QueryNode, key: QueryNode)
    ensures Render(MinBy(base, key)) == "min_by(" + Render(base) + ", &" + Render(key) + ")"
  {
  }

  lemma RenderMaxByStep(base: QueryNode, key: QueryNode)
    ensures Render(MaxBy(base, key)) == "max_by(" + Render(base) + ", &" + Render(key) + ")"
  {
  }

  lemma RenderAndStep(a: QueryNode, b: QueryNode)
    ensures Render(And(a, b)) == "(" + (Render(a) + " && " + Render(b)) + ")"
  {
  }

  lemma RenderOrStep(a: QueryNode, b: QueryNode)
    ensures Render(Or(a, b)) == "(" + (Render(a) + " || " + Render(b)) + ")"
  {
  }

  lemma RenderCmpStep(c: Comparator, a: QueryNode, b: QueryNode)
    ensures Render(Cmp(c, a, b)) == Render(a) + " " + c.Symbol() + " " + Render(b)
  {
  }

  lemma RenderNotStep(a: QueryNode)
    ensures Render(Not(a)) == "!(" + Render(a) + ")"
  {
  }

  lemma RenderFilterStep(base: QueryNode, next: QueryNode, cond: QueryNode)
    ensures Render(FilterProjection(base, next, cond)) ==
      Render(base) + "[?" + Render(cond) + "]" + (if next.This? then "" else "." + Render(next))
  {
  }

  /** `display_items`: the renderings of the items, separated by `", "`. */
  function DisplayItems(items: seq<QueryNode>): string
    decreases items, 0
  {
    if |items| == 0 then ""
    else if |items| == 1 then Render(items[0])
    else DisplayItems(items[..|items| - 1]) + ", " + Render(items[|items| - 1])
  }

  /** `display_multidict` over the first `n` entries: each as `"key": value`, separated by `", "`. */
  function DisplayMultidict(entries: seq<(string, QueryNode)>, n: nat): string
    requires n <= |entries|
    decreases MultiDict(entries), 0, n
  {
    if n == 0 then ""
    else
      var entry := "\"" + entries[n - 1].0 + "\": " + Render(entries[n - 1].1);
      if n == 1 then entry else DisplayMultidict(entries, n - 1) + ", " + entry
  }

  /** A bound as text: the integer, or nothing when absent. */
  function BoundText(b: Option<int>): string {
    match b
    case None => ""
    case Some(i) => IntToString(i)
  }

  /** `display_slice`: `start:end`, with `:step` when a step is given. */
  function DisplaySlice(start: Option<int>, end: Option<int>, step: Option<int>): (r: string)
    ensures step.None? ==> r == BoundText(start) + ":" + BoundText(end)
    ensures step.Some? ==> r == BoundText(start) + ":" + BoundText(end) + ":" + IntToString(step.value)
  {
    var s := BoundText(start);
    var e := BoundText(end);
    match step
    case Some(st) => s + ":" + e + ":" + IntToString(st)
    case None => s + ":" + e
  }

  /** The renderings of `items`, in order. */
  function Renderings(items: seq<QueryNode>): (r: seq<string>)
    ensures |r| == |items| && forall i :: 0 <= i < |items| ==> r[i] == Render(items[i])
  {
    seq(|items|, i requires 0 <= i < |items| => Render(items[i]))
  }

  /** `display_items` is the `", "`-join of the renderings. */
  lemma {:induction false} DisplayItemsIsJoin(items: seq<QueryNode>)
    ensures DisplayItems(items) == JoinWith(Renderings(items), ", ")
  {
    if |items| > 1 {
      DisplayItemsIsJoin(items[..|items| - 1]);
      assert Renderings(items)[..|items| - 1] == Renderings(items[..|items| - 1]);
    }
  }

  /** The rendering `display_multidict` gives one entry. */
  function EntryText(entry: (string, QueryNode)): string {
    "\"" + entry.0 + "\": " + Render(entry.1)
  }

  /** `display_multidict` is the `", "`-join of the `"key": value` entries, in order. */
  lemma {:induction false} DisplayMultidictIsJoin(entries: seq<(string, QueryNode)>, n: nat)
    requires n <= |entries|
    ensures DisplayMultidict(entries, n) == JoinWith(seq(n, i requires 0 <= i < n => EntryText(entries[i])), ", ")
  {
    if n > 1 {
      DisplayMultidictIsJoin(entries, n - 1);
      var all := seq(n, i requires 0 <= i < n => EntryText(entries[i]));
      assert all[..n - 1] == seq(n - 1, i requires 0 <= i < n - 1 => EntryText(entries[i]));
    }
  }

  /** A JMESPath function call: the name, then the arguments separated by `", "` in parentheses. */
  function CallText(name: string, args: seq<string>): string {
    name + "(" + JoinWith(args, ", ") + ")"
  }

  lemma JoinPair(a: string, b: string)
    ensures JoinWith([a, b], ", ") == a + ", " + b
  {
    assert [a, b][..1] == [a];
  }

  /** Every one- and two-argument function node renders as a call of its JMESPath name. */
  lemma FunctionsRenderAsCalls(x: QueryNode, y: QueryNode)
    ensures forall f: UnaryFunction :: Render(Call(f, x)) == CallText(f.Name(), [Render(x)])
    ensures forall f: BinaryFunction :: Render(Call2(f, x, y)) == CallText(f.Name(), [Render(x), Render(y)])
  {
    forall f: UnaryFunction ensures Render(Call(f, x)) == CallText(f.Name(), [Render(x)]) {
      RenderCallStep(f, x);
      OneArgText(f.Name(), Render(x));
    }
    forall f: BinaryFunction ensures Render(Call2(f, x, y)) == CallText(f.Name(), [Render(x), Render(y)]) {
      RenderCall2Step(f, x, y);
      TwoArgText(f.Name(), Render(x), Render(y));
    }
  }

  lemma OneArgText(name: string, a: string)
    ensures name + "(" + a + ")" == CallText(name, [a])
  {
    assert JoinWith([a], ", ") == a;
  }

  lemma TwoArgText(name: string, a: string, b: string)
    ensures name + "(" + a + ", " + b + ")" == CallText(name, [a, b])
  {
    JoinPair(a, b);
    assert name + "(" + a + ", " + b + ")" == name + "(" + (a + ", " + b) + ")";
  }

  /** `merge` and `not_null` render as calls on the renderings of their items. */
  lemma ListCallsRenderAsCalls(items: seq<QueryNode>)
    ensures Render(Merge(items)) == CallText("merge", Renderings(items))
    ensures Render(NotNull(items)) == CallText("not_null", Renderings(items))
  {
    DisplayItemsIsJoin(items);
    var d := DisplayItems(items);
    assert Render(Merge(items)) == "merge(" + d + ")";
    assert Render(NotNull(items)) == "not_null(" + d + ")";
    assert "merge(" == "merge" + "(";
    assert "not_null(" == "not_null" + "(";
  }

  /** `map` renders as a call that takes the key expression first, marked with `&`. */
  lemma MapRendersAsCall(x: QueryNode, y: QueryNode)
    ensures Render(MapApply(x, y)) == CallText("map", ["&" + Render(y), Render(x)])
  {
    RenderMapStep(x, y);
    MapText(Render(x), Render(y));
  }

  /** The `*_by` functions render as calls that take the key expression second, marked with `&`. */
  lemma ByFunctionsRenderAsCalls(x: QueryNode, y: QueryNode)
    ensures Render(SortBy(x, y)) == CallText("sort_by", [Render(x), "&" + Render(y)])
    ensures Render(MinBy(x, y)) == CallText("min_by", [Render(x), "&" + Render(y)])
    ensures Render(MaxBy(x, y)) == CallText("max_by", [Render(x), "&" + Render(y)])
  {
    RenderSortByStep(x, y);
    RenderMinByStep(x, y);
    RenderMaxByStep(x, y);
    ByTexts(Render(x), Render(y));
  }

  lemma MapText(a: string, k: string)
    ensures "map(&" + k + ", " + a + ")" == CallText("map", ["&" + k, a])
  {
    JoinPair("&" + k, a);
    assert "map(&" + k + ", " + a + ")" == "map" + "(" + ("&" + k + ", " + a) + ")";
  }

  lemma ByTexts(a: string, k: string)
    ensures "sort_by(" + a + ", &" + k + ")" == CallText("sort_by", [a, "&" + k])
    ensures "min_by(" + a + ", &" + k + ")" == CallText("min_by", [a, "&" + k])
    ensures "max_by(" + a + ", &" + k + ")" == CallText("max_by", [a, "&" + k])
  {
    JoinPair(a, "&" + k);
    assert "sort_by(" + a + ", &" + k + ")" == "sort_by" + "(" + (a + ", " + ("&" + k)) + ")";
    assert "min_by(" + a + ", &" + k + ")" == "min_by" + "(" + (a + ", " + ("&" + k)) + ")";
    assert "max_by(" + a + ", &" + k + ")" == "max_by" + "(" + (a + ", " + ("&" + k)) + ")";
  }

  /** The sub-expression `@.a.b...` that selects the named fields one after another. */
  function FieldPath(names: seq<string>): (n: QueryNode)
    requires |names| > 0
    ensures n.SubExpr?
  {
    if |names| == 1 then SubExpr(This, Field(names[0]))
    else SubExpr(FieldPath(names[..|names| - 1]), Field(names[|names| - 1]))
  }

  /** A path of fields renders as the names separated by dots, without the leading `@`. */
  lemma {:induction false} FieldPathRendering(names: seq<string>)
    requires |names| > 0
    ensures Render(FieldPath(names)) == JoinWith(names, ".")
  {
    if |names| > 1 {
      FieldPathRendering(names[..|names| - 1]);
    }
  }

  /** An index or slice after a non-`@` base is appended directly, with no dot. */
  lemma BracketsAttach(lhs: QueryNode, i: int, start: Option<int>, end: Option<int>, step: Option<int>)
    requires !lhs.This?
    ensures Render(SubExpr(lhs, Index(i))) == Render(lhs) + "[" + IntToString(i) + "]"
    ensures Render(SubExpr(lhs, Slice(start, end, step))) == Render(lhs) + "[" + DisplaySlice(start, end, step) + "]"
    ensures Render(SubExpr(This, Index(i))) == "[" + IntToString(i) + "]"
  {
    Appended(Render(lhs), "[", IntToString(i), "]");
    Appended(Render(lhs), "[", DisplaySlice(start, end, step), "]");
    assert Render(SubExpr(lhs, Index(i))) == Render(lhs) + Render(Index(i));
    assert Render(SubExpr(lhs, Slice(start, end, step))) == Render(lhs) + Render(Slice(start, end, step));
  }

  lemma Appended(a: string, open: string, body: string, close: string)
    ensures a + (open + body + close) == a + open + body + close
  {
  }

  /**
   * A filter projection renders its base and condition the same whatever
   * follows; a `then` other than `@` only adds `.then` after them.
   */
  lemma FilterThenIsSuffix(base: QueryNode, next: QueryNode, cond: QueryNode)
    ensures Render(FilterProjection(base, This, cond)) <= Render(FilterProjection(base, next, cond))
    ensures Render(FilterProjection(base, next, cond)) == Render(FilterProjection(base, This, cond)) <==> next.This?
  {
    RenderFilterStep(base, This, cond);
    RenderFilterStep(base, next, cond);
    var plain := Render(base) + "[?" + Render(cond) + "]";
    assert Render(FilterProjection(base, This, cond)) == plain;
    if !next.This? {
      assert Render(FilterProjection(base, next, cond)) == plain + ("." + Render(next));
    }
  }

  /** `&&`, `||` and `!` always parenthesise, so no rendering of them needs outer parentheses. */
  lemma BooleanOperatorsParenthesised(a: QueryNode, b: QueryNode)
    ensures var r := Render(And(a, b)); r[0] == '(' && r[|r| - 1] == ')'
    ensures var r := Render(Or(a, b)); r[0] == '(' && r[|r| - 1] == ')'
    ensures var r := Render(Not(a)); r[..2] == "!(" && r[|r| - 1] == ')'
  {
    RenderAndStep(a, b);
    RenderOrStep(a, b);
    RenderNotStep(a);
    Enclosed("(", Render(a) + " && " + Render(b), ")");
    Enclosed("(", Render(a) + " || " + Render(b), ")");
    Enclosed("!(", Render(a), ")");
  }

  lemma Enclosed(open: string, body: string, close: string)
    requires |close| == 1
    ensures var r := open + body + close; r[..|open|] == open && r[|r| - 1] == close[0]
  {
  }

  function SplitColons(s: string): (r: seq<string>)
    ensures |r| >= 1
  {
    if |s| == 0 then [""]
    else
      var rest := SplitColons(s[1..]);
      if s[0] == ':' then [""] + rest else [[s[0]] + rest[0]] + rest[1..]
  }

  lemma {:induction false} SplitWithoutColon(a: string)
    requires forall k :: 0 <= k < |a| ==> a[k] != ':'
    ensures SplitColons(a) == [a]
  {
    if |a| > 0 {
      SplitWithoutColon(a[1..]);
      assert [a[0]] + a[1..] == a;
    }
  }

  lemma {:induction false} SplitAtColon(a: string, b: string)
    requires forall k :: 0 <= k < |a| ==> a[k] != ':'
    ensures SplitColons(a + ":" + b) == [a] + SplitColons(b)
  {
    if |a| == 0 {
      assert (a + ":" + b)[1..] == b;
    } else {
      assert (a + ":" + b)[1..] == a[1..] + ":" + b;
      SplitAtColon(a[1..], b);
      assert [a[0]] + a[1..] == a;
    }
  }

  /** Reads a bound back: nothing is an absent bound. */
  function ParseBound(t: string): Option<Option<int>> {
    if t == "" then Some(None)
    else
      match ParseInt(t)
      case Some(i) => Some(Some(i))
      case None => None
  }

  /** Reads slice text `start:end` or `start:end:step` back into its three parts. */
  function ParseSlice(t: string): Option<(Option<int>, Option<int>, Option<int>)> {
    var parts := SplitColons(t);
    if |parts| == 2 || (|parts| == 3 && parts[2] != "") then
      match (ParseBound(parts[0]), ParseBound(parts[1]))
      case (Some(s), Some(e)) =>
        if |parts| == 2 then Some((s, e, None))
        else (match ParseInt(parts[2]) case Some(st) => Some((s, e, Some(st))) case None => None)
      case _ => None
    else None
  }

  lemma BoundRoundTrip(b: Option<int>)
    ensures ParseBound(BoundText(b)) == Some(b)
    ensures forall k :: 0 <= k < |BoundText(b)| ==> BoundText(b)[k] != ':'
  {
    if b.Some? {
      IntRoundTrip(b.value);
    }
  }

  lemma {:induction false} SliceRoundTripTwoParts(start: Option<int>, end: Option<int>)
    ensures ParseSlice(DisplaySlice(start, end, None)) == Some((start, end, None))
  {
    var s, e := BoundText(start), BoundText(end);
    BoundRoundTrip(start);
    BoundRoundTrip(end);
    SplitAtColon(s, e);
    SplitWithoutColon(e);
    assert SplitColons(DisplaySlice(start, end, None)) == [s, e];
  }

  lemma {:induction false} SliceRoundTripThreeParts(start: Option<int>, end: Option<int>, st: int)
    ensures ParseSlice(DisplaySlice(start, end, Some(st))) == Some((start, end, Some(st)))
  {
    var s, e, t := BoundText(start), BoundText(end), IntToString(st);
    BoundRoundTrip(start);
    BoundRoundTrip(end);
    IntRoundTrip(st);
    SplitThree(s, e, t);
    var parts := SplitColons(DisplaySlice(start, end, Some(st)));
    assert parts == [s, e, t];
    assert ParseBound(parts[0]) == Some(start) && ParseBound(parts[1]) == Some(end);
    assert ParseInt(parts[2]) == Some(st);
  }

  /** Three colon-free fields joined by colons split back into those fields. */
  lemma SplitThree(s: string, e: string, t: string)
    requires forall k :: 0 <= k < |s| ==> s[k] != ':'
    requires forall k :: 0 <= k < |e| ==> e[k] != ':'
    requires forall k :: 0 <= k < |t| ==> t[k] != ':'
    ensures SplitColons(s + ":" + e + ":" + t) == [s, e, t]
  {
    SplitAtColon(s, e + ":" + t);
    SplitAtColon(e, t);
    SplitWithoutColon(t);
    assert s + ":" + e + ":" + t == s + ":" + (e + ":" + t);
  }

  /** `display_slice` loses nothing: its text reads back as the same three parts. */
  lemma SliceRoundTrip(start: Option<int>, end: Option<int>, step: Option<int>)
    ensures ParseSlice(DisplaySlice(start, end, step)) == Some((start, end, step))
  {
    match step
    case None => SliceRoundTripTwoParts(start, end);
    case Some(st) => SliceRoundTripThreeParts(start, end, st);
  }
}
