// The version table changes only at the names a visit assigns: every other
// name keeps the version it had, so a name the program never assigns reads
// version 0 at the end of the build.
module VersionFacts {
  import opened Wrappers
  import opened Ast
  import opened Labels
  import opened Traversal
  import opened VisitFacts

  /** The names a subtree assigns: assignment and augmented-assignment
      targets, `for` targets (the loop's start and increment) and the
      parameters of definitions. */
  function Assigned(n: Node): set<string>
    decreases NodeSize(n), 1
  {
    match n
    case Assign(t, _) => {t}
    case AugAssign(t, _, _) => {t}
    case If(_, body, orelse) => AssignedList(body) + AssignedList(orelse)
    case While(_, body, orelse) => AssignedList(body) + AssignedList(orelse)
    case For(t, _, body, orelse) => {t} + AssignedList(body) + AssignedList(orelse)
    case FunctionDef(_, params, body) => (set p | p in params) + AssignedList(body)
    case Generic(children) => AssignedList(children)
    case _ => {}
  }

  function AssignedList(ns: seq<Node>): set<string>
    decreases ListSize(ns), 0
  {
    if ns == [] then {} else Assigned(ns[0]) + AssignedList(ns[1..])
  }

  lemma {:induction false} AssignedListAppend(a: seq<Node>, b: seq<Node>)
    ensures AssignedList(a + b) == AssignedList(a) + AssignedList(b)
  {
    if a == [] {
      assert a + b == b;
    } else {
      assert (a + b)[0] == a[0];
      assert (a + b)[1..] == a[1..] + b;
      AssignedListAppend(a[1..], b);
    }
  }

  /** `__visit_Assign` re-versions its target only. */
  lemma AssignKeepsVersion(st: State, t: string, v: Expr, x: string)
    requires x != t
    ensures VisitAssign(st, t, v).Ok? ==> Version(VisitAssign(st, t, v).value.ssa, x) == Version(st.ssa, x)
  {
  }

  /** The parameter loop re-versions the parameters only. */
  lemma {:induction false} BumpKeepsVersion(ssa: Versions, params: seq<string>, k: nat, x: string)
    requires k <= |params| && x !in params
    ensures Version(BumpParams(ssa, params, k).0, x) == Version(ssa, x)
  {
    if k > 0 {
      BumpKeepsVersion(ssa, params, k - 1, x);
      assert params[k - 1] != x;
    }
  }

  /** A visit keeps the version of every name the node does not assign. */
  lemma {:induction false} NodeKeepsVersion(st: State, n: Node, x: string)
    requires x !in Assigned(n)
    ensures VisitNode(st, n).Ok? ==> Version(VisitNode(st, n).value.ssa, x) == Version(st.ssa, x)
    decreases NodeSize(n), 3
  {
    var st1 := st.(counter := st.counter + 1);
    if VisitNode(st, n).Ok? {
      match n
      case Assign(t, v) => AssignKeepsVersion(st1, t, v, x);
      case AugAssign(t, op, v) => AssignKeepsVersion(st1, t, BinOp(Name(t), op, v), x);
      case If(test, body, orelse) => ConditionKeepsVersion(st1, test, body, orelse, IfKind, None, x);
      case While(test, body, orelse) => ConditionKeepsVersion(st1, test, body, orelse, WhileKind, None, x);
      case For(t, args, body, orelse) => ForKeepsVersion(st1, t, args, body, orelse, x);
      case FunctionDef(name, params, body) => FunctionDefKeepsVersion(st1, name, params, body, x);
      case Generic(children) => ListKeepsVersion(st1, children, x);
      case _ =>
    }
  }

  lemma {:induction false} ListKeepsVersion(st: State, ns: seq<Node>, x: string)
    requires x !in AssignedList(ns)
    ensures VisitList(st, ns).Ok? ==> Version(VisitList(st, ns).value.ssa, x) == Version(st.ssa, x)
    decreases ListSize(ns), 0
  {
    if ns != [] {
      NodeKeepsVersion(st, ns[0], x);
      var r1 := VisitNode(st, ns[0]);
      if r1.Ok? {
        ListKeepsVersion(r1.value, ns[1..], x);
      }
    }
  }

  lemma {:induction false} ConditionKeepsVersion(st: State, test: Compare, body: seq<Node>, orelse: seq<Node>,
                                                 kind: ConditionKind, forData: Option<ForAsWhileData>, x: string)
    requires x !in AssignedList(body) + AssignedList(orelse)
    requires forData.Some? ==> forData.value.variable != x
    ensures VisitCondition(st, test, body, orelse, kind, forData).Ok? ==>
              Version(VisitCondition(st, test, body, orelse, kind, forData).value.ssa, x) == Version(st.ssa, x)
    decreases ListSize(body) + ListSize(orelse) + (if forData.Some? then 2 else 0), 1
  {
    if VisitCondition(st, test, body, orelse, kind, forData).Ok? {
      var node, r3, r4 := ConditionSteps(st, test, body, orelse, kind, forData);
      var st2 := OpenCondition(st, node, kind, body);
      var loopBody := LoopBody(body, forData);
      LoopBodySize(body, forData);
      if forData.Some? {
        AssignedListAppend(body, [IncrementNode(forData.value)]);
        assert AssignedList([IncrementNode(forData.value)]) == {forData.value.variable} by {
          assert [IncrementNode(forData.value)][1..] == [];
        }
      }
      ListKeepsVersion(st2.(statements := []), loopBody, x);
      ListKeepsVersion(r3.(statements := []), orelse, x);
    }
  }

  lemma {:induction false} ForKeepsVersion(st: State, t: string, args: seq<Expr>, body: seq<Node>, orelse: seq<Node>, x: string)
    requires x != t && x !in AssignedList(body) + AssignedList(orelse)
    ensures VisitFor(st, t, args, body, orelse).Ok? ==> Version(VisitFor(st, t, args, body, orelse).value.ssa, x) == Version(st.ssa, x)
    decreases 3 + ListSize(body) + ListSize(orelse), 2
  {
    if VisitFor(st, t, args, body, orelse).Ok? {
      var bounds := RangeArguments(st.ssa, args).value;
      AssignKeepsVersion(st, t, Constant(bounds.start), x);
      var st1 := VisitAssign(st, t, Constant(bounds.start)).value;
      var st2 := st1.(counter := st1.counter + 1);
      ConditionKeepsVersion(st2, Compare(Name(t), Lt, Constant(bounds.stop)), body, orelse,
                            WhileKind, Some(ForAsWhileData(t, bounds.step)), x);
    }
  }

  lemma {:induction false} FunctionDefKeepsVersion(st: State, name: string, params: seq<string>, body: seq<Node>, x: string)
    requires x !in params && x !in AssignedList(body)
    ensures VisitFunctionDef(st, name, params, body).Ok? ==>
              Version(VisitFunctionDef(st, name, params, body).value.ssa, x) == Version(st.ssa, x)
    decreases 1 + ListSize(body), 2
  {
    if VisitFunctionDef(st, name, params, body).Ok? {
      var ssa1 := BumpParams(st.ssa, params, |params|).0;
      BumpKeepsVersion(st.ssa, params, |params|, x);
      ListKeepsVersion(st.(ssa := ssa1, statements := []), body, x);
    }
  }

  /** A name the program never assigns reads version 0 when the build
      ends: the table starts empty and only assignments, `for` loops and
      parameters write it. */
  lemma UnassignedReadsZero(tree: Node, x: string)
    requires x !in Assigned(tree)
    ensures Build(tree).Ok? ==> Version(Build(tree).value.ssa, x) == 0
  {
    NodeKeepsVersion(Initial(), tree, x);
  }
}
