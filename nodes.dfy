/**
 * The expression tree of `src/nodes.rs`. Children are held by value, so every
 * tree is finite and evaluation can recurse on its subterms.
 */
module Nodes {
  import opened Wrappers
  import opened Values

  const ISIZE_MIN: int := -0x8000_0000_0000_0000
  const ISIZE_MAX: int := 0x7fff_ffff_ffff_ffff

  /** Rust's `isize` on a 64-bit host. */
  type Isize = i: int | ISIZE_MIN <= i <= ISIZE_MAX

  /**
   * An expression. `Literal` holds the host object it wraps; `Coalesce` is
   * evaluated by `not_null`.
   */
  datatype Node =
    | This
    | Literal(obj: Value)
    | And(left: Node, right: Node)
    | Or(left: Node, right: Node)
    | Not(operand: Node)
    | Coalesce(choices: seq<Node>)
    | Merge(parts: seq<Node>)
    | List(listBase: Node, listOp: ListOp)
    | Str(strBase: Node, strOp: StrOp)
    | Struct(structBase: Node, structOp: StructOp)
    | Scalar(scalarBase: Node, scalarOp: ScalarOp)
    | Compare(compareBase: Node, compareOp: ComparisonOp)

  /** Operators applied to a list. The search, glue and key operands are expressions. */
  datatype ListOp =
    | Index(index: Isize)
    | Slice(start: Option<Isize>, end: Option<Isize>, step: Option<Isize>)
    | Length
    | Reverse
    | Flatten
    | Contains(search: Node)
    | Filter(cond: Node)
    | Map(mapKey: Node)
    | Join(glue: Node)
    | Sort
    | Max
    | Min
    | Sum
    | Avg
    | SortBy(sortKey: Node)
    | MinBy(minKey: Node)
    | MaxBy(maxKey: Node)

  /** Operators applied to a str; `Contains`, `StartsWith` and `EndsWith` evaluate their operand. */
  datatype StrOp =
    | Slice(start: Option<Isize>, end: Option<Isize>, step: Option<Isize>)
    | Reverse
    | Contains(needle: Node)
    | StartsWith(prefix: Node)
    | EndsWith(suffix: Node)
    | Length

  /** Operators applied to a dict. */
  datatype StructOp = Field(name: string) | Keys | Values

  /** Operators applied to a number. */
  datatype ScalarOp = Abs | Ceil | Floor

  /** A comparison with its right-hand side; the left side is the base of `Node.Compare`. */
  datatype ComparisonOp =
    | Eq(other: Node)
    | Ne(other: Node)
    | Lt(other: Node)
    | Le(other: Node)
    | Gt(other: Node)
    | Ge(other: Node)
  {
    /** The one right-hand expression every comparison carries. */
    function Rhs(): (r: Node)
      ensures r < this
    {
      match this
      case Eq(n) => n
      case Ne(n) => n
      case Lt(n) => n
      case Le(n) => n
      case Gt(n) => n
      case Ge(n) => n
    }
  }

  /** A host object handed to a builder: an `Expr` wrapping a node, or any other value. */
  datatype HostObject = ExprObject(node: Node) | PlainObject(obj: Value)

  /** `into_lit`: an `Expr` gives its node, anything else becomes a literal. */
  function IntoLit(o: HostObject): (r: Node)
    ensures o.ExprObject? ==> r == o.node
    ensures o.PlainObject? ==> r.Literal? && r.obj == o.obj
  {
    match o
    case ExprObject(n) => n
    case PlainObject(x) => Literal(x)
  }
}
