// The argument lists the builder renders into labels, against an
// independent definition: the rendered arguments joined by ", ". The
// builder writes the separator after every argument but the last one;
// when no argument is skipped, that is the join.
module LabelFacts {
  import opened Wrappers
  import opened Ast
  import opened Labels
  import opened Traversal
  import opened BuildFacts

  /** `", ".join(parts)`. */
  function Join(parts: seq<string>): string
  {
    if parts == [] then ""
    else if |parts| == 1 then parts[0]
    else parts[0] + ", " + Join(parts[1..])
  }

  lemma {:induction false} JoinSnoc(parts: seq<string>, x: string)
    ensures Join(parts + [x]) == if parts == [] then x else Join(parts) + ", " + x
  {
    if parts == [] {
      assert parts + [x] == [x];
    } else if |parts| == 1 {
      assert (parts + [x])[1..] == [x];
    } else {
      assert (parts + [x])[1..] == parts[1..] + [x];
      JoinSnoc(parts[1..], x);
    }
  }

  /** An argument the builder renders (every other kind is skipped). */
  predicate PlainArgument(e: Expr)
  {
    e.Constant? || e.Name?
  }

  /** The arguments as a call statement renders them: constants as text,
      names with their current version. */
  function Rendered(ssa: Versions, args: seq<Expr>): (r: seq<string>)
    ensures |r| == |args|
    ensures forall i :: 0 <= i < |args| ==> r[i] == ArgumentValue(ssa, args[i])
  {
    if args == [] then [] else Rendered(ssa, args[..|args| - 1]) + [ArgumentValue(ssa, args[|args| - 1])]
  }

  /** A constant's text or a variable's bare name. */
  function PlainText(e: Expr): string
  {
    match e
    case Constant(text) => text
    case Name(id) => id
    case _ => ""
  }

  /** The arguments as the right-hand side of an assignment renders them:
      names without a version. */
  function Unversioned(args: seq<Expr>): (r: seq<string>)
    ensures |r| == |args|
    ensures forall i :: 0 <= i < |args| ==> r[i] == PlainText(args[i])
  {
    if args == [] then [] else Unversioned(args[..|args| - 1]) + [PlainText(args[|args| - 1])]
  }

  /** The text after the first k of n parts: their join, followed by the
      separator unless they are all the parts. */
  function Partial(parts: seq<string>, k: nat, n: nat): string
    requires k <= |parts|
  {
    if k == 0 then "" else if k < n then Join(parts[..k]) + ", " else Join(parts[..k])
  }

  lemma PartialStep(parts: seq<string>, k: nat, n: nat)
    requires 0 < k <= |parts| && k <= n
    ensures Partial(parts, k, n) == Partial(parts, k - 1, n) + Separated(parts[k - 1], k - 1 == n - 1)
  {
    assert parts[..k] == parts[..k - 1] + [parts[k - 1]];
    JoinSnoc(parts[..k - 1], parts[k - 1]);
  }

  lemma {:induction false} CallArgsPrefix(ssa: Versions, args: seq<Expr>, k: nat)
    requires k <= |args|
    requires forall i :: 0 <= i < |args| ==> PlainArgument(args[i])
    ensures CallArgsText(ssa, args, k) == Partial(Rendered(ssa, args), k, |args|)
  {
    if k > 0 {
      CallArgsPrefix(ssa, args, k - 1);
      PartialStep(Rendered(ssa, args), k, |args|);
    }
  }

  lemma {:induction false} NestedArgsPrefix(ssa: Versions, args: seq<Expr>, k: nat)
    requires k <= |args|
    requires forall i :: 0 <= i < |args| ==> PlainArgument(args[i])
    ensures NestedArgsText(ssa, args, k) == Partial(Rendered(ssa, args), k, |args|)
  {
    if k > 0 {
      NestedArgsPrefix(ssa, args, k - 1);
      PartialStep(Rendered(ssa, args), k, |args|);
    }
  }

  lemma {:induction false} AssignArgsPrefix(args: seq<Expr>, k: nat)
    requires k <= |args|
    requires forall i :: 0 <= i < |args| ==> PlainArgument(args[i])
    ensures AssignArgsText(args, k) == Partial(Unversioned(args), k, |args|)
  {
    if k > 0 {
      AssignArgsPrefix(args, k - 1);
      PartialStep(Unversioned(args), k, |args|);
    }
  }

  /** `visit_Call`: a call statement whose arguments are constants and
      names is labelled `f(a, b, ...)`, names at their current version. */
  lemma CallLabel(st: State, f: string, args: seq<Expr>)
    requires forall i :: 0 <= i < |args| ==> PlainArgument(args[i])
    ensures VisitCall(st, f, args).statements[|st.statements|].node.text == f + "(" + Join(Rendered(st.ssa, args)) + ")"
  {
    CallArgsPrefix(st.ssa, args, |args|);
    assert Rendered(st.ssa, args)[..|args|] == Rendered(st.ssa, args);
  }

  /** The nested call of `visit_Call` renders its arguments the same way. */
  lemma NestedCallText(ssa: Versions, args: seq<Expr>)
    requires forall i :: 0 <= i < |args| ==> PlainArgument(args[i])
    ensures NestedArgsText(ssa, args, |args|) == Join(Rendered(ssa, args))
  {
    NestedArgsPrefix(ssa, args, |args|);
    assert Rendered(ssa, args)[..|args|] == Rendered(ssa, args);
  }

  /** `__visit_Assign` with a call on the right: `x.n = f(a, b, ...)`,
      names without a version. */
  lemma AssignCallText(ssa: Versions, f: string, args: seq<Expr>)
    requires forall i :: 0 <= i < |args| ==> PlainArgument(args[i])
    ensures AssignValueText(ssa, CallExpr(f, args)) == Some(f + "(" + Join(Unversioned(args)) + ")")
  {
    AssignArgsPrefix(args, |args|);
    assert Unversioned(args)[..|args|] == Unversioned(args);
  }

  /** The parameters as `visit_FunctionDef` renders them: each one at its
      old version plus the number of times it occurs up to and including
      its own place, so `def f(x, x)` renders `x.1, x.2`. */
  function Bumped(ssa: Versions, params: seq<string>): (r: seq<string>)
    ensures |r| == |params|
  {
    if params == [] then []
    else
      var p := params[|params| - 1];
      Bumped(ssa, params[..|params| - 1]) + [VersionedName(p, Version(ssa, p) + multiset(params)[p])]
  }

  /** No parameter name occurs twice. */
  predicate Distinct(params: seq<string>)
  {
    forall i, j :: 0 <= i < j < |params| ==> params[i] != params[j]
  }

  lemma {:induction false} BumpedAt(ssa: Versions, params: seq<string>, i: nat)
    requires i < |params|
    ensures Bumped(ssa, params)[i] == VersionedName(params[i], Version(ssa, params[i]) + multiset(params[..i + 1])[params[i]])
  {
    var last := |params| - 1;
    if i < last {
      BumpedAt(ssa, params[..last], i);
      assert params[..last][..i + 1] == params[..i + 1];
    } else {
      assert params[..i + 1] == params;
    }
  }

  /** With distinct names, each parameter is rendered one version past the
      one it had. */
  lemma DistinctBumpedOnce(ssa: Versions, params: seq<string>, i: nat)
    requires i < |params|
    requires Distinct(params)
    ensures Bumped(ssa, params)[i] == VersionedName(params[i], Version(ssa, params[i]) + 1)
  {
    BumpedAt(ssa, params, i);
    assert params[i] !in params[..i];
    assert params[i] !in multiset(params[..i]);
    assert params[..i + 1] == params[..i] + [params[i]];
    assert multiset(params[..i + 1]) == multiset(params[..i]) + multiset{params[i]};
  }

  /** The k-th rendered parameter is one past the version the loop has
      reached for it after k - 1 turns. */
  lemma BumpedFromLoop(ssa: Versions, params: seq<string>, k: nat)
    requires 0 < k <= |params|
    ensures Bumped(ssa, params)[k - 1] == VersionedName(params[k - 1], Version(BumpParams(ssa, params, k - 1).0, params[k - 1]) + 1)
  {
    var p := params[k - 1];
    BumpParamsVersions(ssa, params, k - 1);
    assert Version(BumpParams(ssa, params, k - 1).0, p) == Version(ssa, p) + multiset(params[..k - 1])[p];
    assert params[..k] == params[..k - 1] + [p];
    assert multiset(params[..k])[p] == multiset(params[..k - 1])[p] + 1;
    BumpedAt(ssa, params, k - 1);
  }

  /** One turn of the parameter loop appends the next rendered parameter. */
  lemma BumpParamsStep(ssa: Versions, params: seq<string>, k: nat)
    requires 0 < k <= |params|
    ensures BumpParams(ssa, params, k).1 == BumpParams(ssa, params, k - 1).1 + Separated(Bumped(ssa, params)[k - 1], k - 1 == |params| - 1)
  {
    var prev := BumpParams(ssa, params, k - 1);
    var p := params[k - 1];
    var name := VersionedName(p, Version(prev.0, p) + 1);
    assert BumpParams(ssa, params, k).1 == prev.1 + Separated(name, k - 1 == |params| - 1);
    BumpedFromLoop(ssa, params, k);
  }

  /** The loop's text after k turns is the first k rendered parameters,
      each followed by a separator unless it is the last parameter. */
  lemma {:induction false} BumpParamsPrefix(ssa: Versions, params: seq<string>, k: nat)
    requires k <= |params|
    ensures BumpParams(ssa, params, k).1 == Partial(Bumped(ssa, params), k, |params|)
  {
    if k > 0 {
      BumpParamsPrefix(ssa, params, k - 1);
      BumpParamsPrefixStep(ssa, params, k);
    }
  }

  lemma BumpParamsPrefixStep(ssa: Versions, params: seq<string>, k: nat)
    requires 0 < k <= |params|
    requires BumpParams(ssa, params, k - 1).1 == Partial(Bumped(ssa, params), k - 1, |params|)
    ensures BumpParams(ssa, params, k).1 == Partial(Bumped(ssa, params), k, |params|)
  {
    BumpParamsStep(ssa, params, k);
    PartialStep(Bumped(ssa, params), k, |params|);
  }

  /** `visit_FunctionDef`: the definition is labelled `def f(a.n, b.m, ...)`,
      the parameters rendered as `Bumped` says and joined by ", ". */
  lemma DefinitionLabel(ssa: Versions, params: seq<string>)
    ensures BumpParams(ssa, params, |params|).1 == Join(Bumped(ssa, params))
  {
    BumpParamsPrefix(ssa, params, |params|);
    assert Bumped(ssa, params)[..|params|] == Bumped(ssa, params);
  }
}
