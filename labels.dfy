// How the builder renders node labels (ssa/builder.py): versioned names,
// operands, operator symbols and the argument lists of calls. The version
// table is the builder's `defaultdict(int)`: a name never assigned reads 0.
module Labels {
  import opened Wrappers
  import opened Ast

  type Versions = map<string, nat>

  /** The current version of `v` (0 if `v` was never assigned). */
  function Version(ssa: Versions, v: string): nat
  {
    if v in ssa then ssa[v] else 0
  }

  function Digit(d: nat): char
    requires d < 10
  {
    "0123456789"[d]
  }

  /** Decimal rendering of a version number, as `str()` gives it. */
  function NatToString(n: nat): (r: string)
    ensures |r| >= 1
    ensures forall i :: 0 <= i < |r| ==> '0' <= r[i] <= '9'
  {
    if n < 10 then [Digit(n)] else NatToString(n / 10) + [Digit(n % 10)]
  }

  /** Reads decimal digits back (the inverse of NatToString). */
  function DigitsValue(s: string): nat
    requires forall i :: 0 <= i < |s| ==> '0' <= s[i] <= '9'
  {
    if s == [] then 0 else 10 * DigitsValue(s[..|s| - 1]) + (s[|s| - 1] - '0') as nat
  }

  lemma {:induction false} NatToStringRoundTrip(n: nat)
    ensures DigitsValue(NatToString(n)) == n
  {
    var r := NatToString(n);
    if n >= 10 {
      NatToStringRoundTrip(n / 10);
      assert r[..|r| - 1] == NatToString(n / 10);
    }
  }

  /** `name.version`, the form every versioned name takes in a label. */
  function VersionedName(name: string, version: nat): string
  {
    name + "." + NatToString(version)
  }

  /** Splits a rendered `name.version` at its last dot. */
  function SplitVersioned(s: string): (string, string)
  {
    if s == [] then ("", "")
    else if s[|s| - 1] == '.' then (s[..|s| - 1], "")
    else
      var (name, digits) := SplitVersioned(s[..|s| - 1]);
      (name, digits + [s[|s| - 1]])
  }

  /** A rendered versioned name determines the name and the version, for
      any name (a Python identifier has no dot, but none is needed). */
  lemma {:induction false} VersionedNameRoundTrip(name: string, version: nat)
    ensures SplitVersioned(VersionedName(name, version)) == (name, NatToString(version))
    ensures DigitsValue(SplitVersioned(VersionedName(name, version)).1) == version
  {
    SplitDigits(name, NatToString(version));
    NatToStringRoundTrip(version);
  }

  lemma {:induction false} SplitDigits(name: string, digits: string)
    requires forall i :: 0 <= i < |digits| ==> '0' <= digits[i] <= '9'
    ensures SplitVersioned(name + "." + digits) == (name, digits)
  {
    var s := name + "." + digits;
    if digits == [] {
      assert s[..|s| - 1] == name;
    } else {
      var d' := digits[..|digits| - 1];
      assert s[..|s| - 1] == name + "." + d';
      SplitDigits(name, d');
      assert d' + [digits[|digits| - 1]] == digits;
    }
  }

  /** The OPERATORS table. */
  function OperatorSymbol(op: Operator): string
  {
    match op
    case Add => "+"
    case Sub => "-"
    case Mult => "*"
    case MatMult => "@"
    case Div => "/"
    case Mod => "%"
    case Pow => "**"
    case LShift => "<<"
    case RShift => ">>"
    case BitOr => "|"
    case BitXor => "^"
    case BitAnd => "&"
    case FloorDiv => "//"
  }

  /** The COMPARATORS table. */
  function ComparatorSymbol(op: CmpOp): string
  {
    match op
    case Eq => "=="
    case NotEq => "!="
    case Lt => "<"
    case LtE => "<="
    case Gt => ">"
    case GtE => ">="
    case Is => "is"
    case IsNot => "is not"
    case In => "in"
    case NotIn => "not in"
  }

  /** `__get_argument_value`: a constant is its text, a name is rendered
      with its current version, anything else renders as `None`. */
  function ArgumentValue(ssa: Versions, e: Expr): string
  {
    match e
    case Constant(text) => text
    case Name(id) => VersionedName(id, Version(ssa, id))
    case _ => "None"
  }

  /** The label of an `if`/`while` test: `lhs op rhs`. */
  function CompareLabel(ssa: Versions, test: Compare): string
  {
    ArgumentValue(ssa, test.left) + " " + ComparatorSymbol(test.op) + " " + ArgumentValue(ssa, test.right)
  }

  /** One argument's text followed by ", " unless it is the last argument. */
  function Separated(text: string, isLast: bool): string
  {
    if isLast then text else text + ", "
  }

  /** The arguments of a call on the right of an assignment, rendered up to
      (not including) index k: constants as text, names WITHOUT a version,
      every other argument skipped. */
  function AssignArgsText(args: seq<Expr>, k: nat): string
    requires k <= |args|
  {
    if k == 0 then ""
    else
      var a := args[k - 1];
      var isLast := k - 1 == |args| - 1;
      AssignArgsText(args, k - 1) +
        match a
        case Constant(text) => Separated(text, isLast)
        case Name(id) => Separated(id, isLast)
        case _ => ""
  }

  /** The arguments of a call nested inside a call statement, up to index k:
      constants as text, names with their version, others skipped. */
  function NestedArgsText(ssa: Versions, args: seq<Expr>, k: nat): string
    requires k <= |args|
  {
    if k == 0 then ""
    else
      var a := args[k - 1];
      var isLast := k - 1 == |args| - 1;
      NestedArgsText(ssa, args, k - 1) +
        match a
        case Constant(text) => Separated(text, isLast)
        case Name(id) => Separated(VersionedName(id, Version(ssa, id)), isLast)
        case _ => ""
  }

  /** The arguments of a call statement, up to index k: as NestedArgsText,
      and a nested call is rendered `g(...)` with no separator after it. */
  function CallArgsText(ssa: Versions, args: seq<Expr>, k: nat): string
    requires k <= |args|
  {
    if k == 0 then ""
    else
      var a := args[k - 1];
      var isLast := k - 1 == |args| - 1;
      CallArgsText(ssa, args, k - 1) +
        match a
        case Constant(text) => Separated(text, isLast)
        case Name(id) => Separated(VersionedName(id, Version(ssa, id)), isLast)
        case CallExpr(g, inner) => g + "(" + NestedArgsText(ssa, inner, |inner|) + ")"
        case _ => ""
  }

  /** The right-hand side of an assignment, or None for a value kind the
      builder has no branch for (its `value` local is then unbound). */
  function AssignValueText(ssa: Versions, v: Expr): Option<string>
  {
    match v
    case BinOp(l, op, r) =>
      Some(ArgumentValue(ssa, l) + " " + OperatorSymbol(op) + " " + ArgumentValue(ssa, r))
    case Constant(text) => Some(text)
    case Name(id) => Some(id)
    case CallExpr(f, args) => Some(f + "(" + AssignArgsText(args, |args|) + ")")
    case OtherExpr => None
  }
}
