// The part of Python's abstract syntax tree that the CFG builder walks.
// Parsing is not modelled: a program arrives as a `Node` (normally a
// `Generic` node standing for the `Module`).
module Ast {
  import opened Wrappers

  /** Comparison operators the builder can render (the COMPARATORS table). */
  datatype CmpOp = Eq | NotEq | Lt | LtE | Gt | GtE | Is | IsNot | In | NotIn

  /** Binary operators the builder can render (the OPERATORS table). */
  datatype Operator =
    | Add | Sub | Mult | MatMult | Div | Mod | Pow
    | LShift | RShift | BitOr | BitXor | BitAnd | FloorDiv

  /** Expressions. A constant carries the text Python's `str()` gives for
      its value; `OtherExpr` is any expression kind the builder does not
      inspect (a subscript, a comparison used as a value, a list, ...). */
  datatype Expr =
    | Constant(text: string)
    | Name(id: string)
    | BinOp(left: Expr, op: Operator, right: Expr)
    | CallExpr(func: string, args: seq<Expr>)
    | OtherExpr

  /** The test of an `if` or `while`: only its first operator and its first
      comparator are read. */
  datatype Compare = Compare(left: Expr, op: CmpOp, right: Expr)

  /** Nodes the visitor dispatches on. `For` keeps only the arguments of
      the call it iterates over; `Return` has no value for a bare `return`.
      `Generic` is every kind without a visit method (Module, Expr, ...):
      it holds the child nodes the generic visit walks, in field order. */
  datatype Node =
    | Assign(target: string, value: Expr)
    | AugAssign(target: string, op: Operator, value: Expr)
    | If(test: Compare, body: seq<Node>, orelse: seq<Node>)
    | While(test: Compare, body: seq<Node>, orelse: seq<Node>)
    | For(target: string, rangeArgs: seq<Expr>, body: seq<Node>, orelse: seq<Node>)
    | Break
    | Continue
    | FunctionDef(name: string, params: seq<string>, body: seq<Node>)
    | Return(returned: Option<Expr>)
    | Call(func: string, args: seq<Expr>)
    | Generic(children: seq<Node>)

  /** A size that shrinks on every descent of the visitor, counting the
      increment statement a `for` loop adds to its own body. */
  function NodeSize(n: Node): (r: nat)
    ensures r >= 1
  {
    match n
    case If(_, body, orelse) => 1 + ListSize(body) + ListSize(orelse)
    case While(_, body, orelse) => 1 + ListSize(body) + ListSize(orelse)
    case For(_, _, body, orelse) => 3 + ListSize(body) + ListSize(orelse)
    case FunctionDef(_, _, body) => 1 + ListSize(body)
    case Generic(children) => 1 + ListSize(children)
    case _ => 1
  }

  function ListSize(ns: seq<Node>): nat
  {
    if ns == [] then 0 else 1 + NodeSize(ns[0]) + ListSize(ns[1..])
  }

  lemma {:induction false} ListSizeAppend(a: seq<Node>, b: seq<Node>)
    ensures ListSize(a + b) == ListSize(a) + ListSize(b)
  {
    if a != [] {
      assert (a + b)[1..] == a[1..] + b;
      ListSizeAppend(a[1..], b);
    } else {
      assert a + b == b;
    }
  }

  lemma {:induction false} ListSizeElement(ns: seq<Node>, i: nat)
    requires i < |ns|
    ensures NodeSize(ns[i]) < ListSize(ns)
  {
    if i > 0 {
      ListSizeElement(ns[1..], i - 1);
    }
  }
}
