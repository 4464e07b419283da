// The builder as the source writes it (ssa/builder.py, class CFGBuilder):
// an object whose visit methods update its fields in place. Every method is
// proved to leave the object in the state the matching function of
// Traversal computes from the state it found, and to raise exactly when
// that function fails, with the same error.
module Builder {
  import opened Wrappers
  import opened Ast
  import opened Statements
  import opened Labels
  import opened Traversal

  /** A method's report `out` and the object's new state `now` are what
      the pure step computed: the new state when it succeeds, the same
      error when it fails. */
  predicate Follows(r: Result<State, BuildError>, out: Outcome<BuildError>, now: State)
  {
    match r
    case Ok(s) => out == Pass && now == s
    case Err(e) => out == Fail(e)
  }

  /** The argument loop of the call branch of `__visit_Assign`. */
  method AssignArgs(args: seq<Expr>) returns (text: string)
    ensures text == AssignArgsText(args, |args|)
  {
    text := "";
    for i := 0 to |args|
      invariant text == AssignArgsText(args, i)
    {
      var isLast := i == |args| - 1;
      match args[i]
      case Constant(value) => text := text + Separated(value, isLast);
      case Name(id) => text := text + Separated(id, isLast);
      case _ =>
    }
  }

  /** The inner argument loop of `visit_Call`, for a call passed as an
      argument. */
  method NestedArgs(ssa: Versions, args: seq<Expr>) returns (text: string)
    ensures text == NestedArgsText(ssa, args, |args|)
  {
    text := "";
    for i := 0 to |args|
      invariant text == NestedArgsText(ssa, args, i)
    {
      var isLast := i == |args| - 1;
      match args[i]
      case Constant(value) => text := text + Separated(value, isLast);
      case Name(id) => text := text + Separated(VersionedName(id, Version(ssa, id)), isLast);
      case _ =>
    }
  }

  /** The outer argument loop of `visit_Call`. */
  method CallArgs(ssa: Versions, args: seq<Expr>) returns (text: string)
    ensures text == CallArgsText(ssa, args, |args|)
  {
    text := "";
    for i := 0 to |args|
      invariant text == CallArgsText(ssa, args, i)
    {
      var isLast := i == |args| - 1;
      match args[i]
      case Constant(value) => text := text + Separated(value, isLast);
      case Name(id) => text := text + Separated(VersionedName(id, Version(ssa, id)), isLast);
      case CallExpr(g, inner) =>
        var innerText := NestedArgs(ssa, inner);
        text := text + (g + "(" + innerText + ")");
      case _ =>
    }
  }

  /** `r` with `patched` in front of its statements. */
  function Prefixed(patched: seq<Statement>, r: Result<seq<Statement>, BuildError>): Result<seq<Statement>, BuildError>
  {
    if r.Ok? then Ok(patched + r.value) else r
  }

  /** The loop `for statement in self.statements: self.set_end_to_return(...)`
      of `visit_FunctionDef`, on values: every statement of a function body
      with its returns pointed at `end`. */
  method PatchReturns(ss: seq<Statement>, end: int) returns (r: Result<seq<Statement>, BuildError>)
    ensures r == SetEndToReturnAll(ss, end)
  {
    var patched: seq<Statement> := [];
    assert ss[0..] == ss;
    assert SetEndToReturnAll(ss, end).Ok? ==> [] + SetEndToReturnAll(ss, end).value == SetEndToReturnAll(ss, end).value;
    for j := 0 to |ss|
      invariant SetEndToReturnAll(ss, end) == Prefixed(patched, SetEndToReturnAll(ss[j..], end))
    {
      var s := SetEndToReturn(ss[j], end);
      assert ss[j..][0] == ss[j] && ss[j..][1..] == ss[j + 1..];
      if s.Err? {
        return Err(s.error);
      }
      assert forall rest :: patched + ([s.value] + rest) == (patched + [s.value]) + rest;
      patched := patched + [s.value];
    }
    assert ss[|ss|..] == [];
    assert patched + [] == patched;
    r := Ok(patched);
  }

  class CFGBuilder {
    var counter: int
    var statements: seq<Statement>
    var whileNodes: seq<int>
    var lastNodeWhile: seq<Node>
    var nodeAfterWhile: map<int, int>
    var id2statement: map<int, NodeData>
    var ssa: Versions

    /** The fields as a value of the pure model. */
    function Snapshot(): State
      reads this
    {
      State(counter, statements, whileNodes, lastNodeWhile, nodeAfterWhile, id2statement, ssa)
    }

    /** The attribute set-up of `__init__`: the Start node with id 0 is the
        only statement and the only registered node; no loop is open. */
    constructor ()
      ensures Snapshot() == Initial()
    {
      var start := NodeData(0, StartNode, "Start");
      counter := 0;
      statements := [Simple(start)];
      whileNodes := [];
      nodeAfterWhile := map[];
      id2statement := map[0 := start];
      lastNodeWhile := [];
      ssa := map[];
    }

    /** `self.statements.append(s)` and `self.id2statement[id] = s`. */
    method Append(s: Statement)
      modifies this
      ensures Snapshot() == Emit(old(Snapshot()), s)
    {
      statements := statements + [s];
      id2statement := id2statement[s.node.id := s.node];
    }

    /** `__visit`: take the next id, then run the visitor for the node's
        kind; kinds without one visit their children. */
    method VisitNode(n: Node) returns (out: Outcome<BuildError>)
      modifies this
      decreases NodeSize(n), 3
      ensures Follows(Traversal.VisitNode(old(Snapshot()), n), out, Snapshot())
    {
      counter := counter + 1;
      match n
      case Assign(t, v) => out := VisitAssign(t, v);
      case AugAssign(t, op, v) => out := VisitAugAssign(t, op, v);
      case If(test, body, orelse) => out := VisitCondition(test, body, orelse, IfKind, None);
      case While(test, body, orelse) => out := VisitCondition(test, body, orelse, WhileKind, None);
      case For(t, args, body, orelse) => out := VisitFor(t, args, body, orelse);
      case Break => out := VisitBreak();
      case Continue => out := VisitContinue();
      case FunctionDef(name, params, body) => out := VisitFunctionDef(name, params, body);
      case Return(v) => VisitReturn(v); out := Pass;
      case Call(f, args) => VisitCall(f, args); out := Pass;
      case Generic(children) => out := Visit(children);
    }

    /** `visit` on a list: each node in turn; an exception stops the walk. */
    method Visit(ns: seq<Node>) returns (out: Outcome<BuildError>)
      modifies this
      decreases ListSize(ns), 0
      ensures Follows(VisitList(old(Snapshot()), ns), out, Snapshot())
    {
      out := Pass;
      var i := 0;
      while i < |ns|
        invariant 0 <= i <= |ns|
        invariant out == Pass
        invariant VisitList(old(Snapshot()), ns) == VisitList(Snapshot(), ns[i..])
      {
        ListSizeElement(ns, i);
        assert ns[i..][0] == ns[i] && ns[i..][1..] == ns[i + 1..];
        out := VisitNode(ns[i]);
        if out.Fail? {
          return;
        }
        i := i + 1;
      }
      assert ns[i..] == [];
    }

    /** `__visit_Assign`: the label is rendered with the current versions,
        then the target's version is bumped; a value of a kind with no
        branch leaves the label's value unbound. */
    method VisitAssign(target: string, value: Expr) returns (out: Outcome<BuildError>)
      modifies this
      ensures Follows(Traversal.VisitAssign(old(Snapshot()), target, value), out, Snapshot())
    {
      var version := Version(ssa, target) + 1;
      var text: string;
      match value {
      case BinOp(l, op, r) =>
        text := ArgumentValue(ssa, l) + " " + OperatorSymbol(op) + " " + ArgumentValue(ssa, r);
      case Constant(c) => text := c;
      case Name(id) => text := id;
      case CallExpr(f, args) =>
        var argsText := AssignArgs(args);
        text := f + "(" + argsText + ")";
      case OtherExpr => return Fail(UnboundValue);
      }
      var assignLabel := VersionedName(target, version) + " = " + text;
      ssa := ssa[target := version];
      Append(Simple(NodeData(counter, AssignNode, assignLabel)));
      out := Pass;
    }

    /** `visit_AugAssign`: `v op= e` is visited as `v = v op e`. */
    method VisitAugAssign(target: string, op: Operator, value: Expr) returns (out: Outcome<BuildError>)
      modifies this
      ensures Follows(Traversal.VisitAugAssign(old(Snapshot()), target, op, value), out, Snapshot())
    {
      out := VisitAssign(target, BinOp(Name(target), op, value));
    }

    /** `__visit_Condition`: register the condition node, open a loop,
        visit body and else branch into their own lists, append the
        condition, and close a loop with its exit entry. */
    method VisitCondition(test: Compare, body: seq<Node>, orelse: seq<Node>,
                          kind: ConditionKind, forData: Option<ForAsWhileData>) returns (out: Outcome<BuildError>)
      modifies this
      decreases ListSize(body) + ListSize(orelse) + (if forData.Some? then 2 else 0), 1
      ensures Follows(Traversal.VisitCondition(old(Snapshot()), test, body, orelse, kind, forData), out, Snapshot())
    {
      ghost var st := Snapshot();
      var node := NodeData(counter, IfNode, CompareLabel(ssa, test));
      if kind == WhileKind && body == [] {
        return Fail(EmptyLoopBody);
      }
      Open(node, kind, body);
      var loopBody := body;
      if forData.Some? {
        loopBody := body + [IncrementNode(forData.value)];
      }
      LoopBodySize(body, forData);
      var saved := statements;
      statements := [];
      assert loopBody == LoopBody(body, forData);
      assert Snapshot() == OpenCondition(st, node, kind, body).(statements := []);
      out := Visit(loopBody);
      if out.Fail? {
        return;
      }
      ghost var st3 := Snapshot();
      var bodyStatements := statements;
      statements := [];
      out := Visit(orelse);
      if out.Fail? {
        return;
      }
      ghost var st4 := Snapshot();
      var condition := if kind == WhileKind
                       then WhileStatement(node, bodyStatements, statements)
                       else IfStatement(node, bodyStatements, statements);
      statements := saved + [condition];
      assert Snapshot() == st4.(statements := st.statements + [condition]);
      if kind == WhileKind {
        CloseLoop(node.id);
      }
      assert Snapshot() == FinishCondition(st, node, kind, st3, st4);
    }

    /** The start of `__visit_Condition`: the condition node is registered;
        a loop is pushed on `while_nodes`, and the last statement of its
        body as written on `last_node_while`. */
    method Open(node: NodeData, kind: ConditionKind, body: seq<Node>)
      requires kind == WhileKind ==> body != []
      modifies this
      ensures Snapshot() == OpenCondition(old(Snapshot()), node, kind, body)
    {
      id2statement := id2statement[node.id := node];
      if kind == WhileKind {
        whileNodes := whileNodes + [node.id];
        lastNodeWhile := lastNodeWhile + [body[|body| - 1]];
      }
    }

    /** The end of `__visit_Condition` for a loop: the exit entry goes to
        the enclosing loop's header when that loop's last statement is a
        `while`, else to the next id; then both loop stacks are popped. */
    method CloseLoop(id: int)
      modifies this
      ensures Snapshot() == Traversal.CloseLoop(old(Snapshot()), id)
    {
      if |whileNodes| >= 2 && |lastNodeWhile| >= 2 && lastNodeWhile[|lastNodeWhile| - 2].While? {
        nodeAfterWhile := nodeAfterWhile[id := whileNodes[|whileNodes| - 2]];
      } else {
        nodeAfterWhile := nodeAfterWhile[id := counter + 1];
      }
      lastNodeWhile := DropLast(lastNodeWhile);
      whileNodes := DropLast(whileNodes);
    }

    /** `visit_Break`: a leaf naming the innermost open loop; with none
        open, `self.while_nodes[-1]` raises. */
    method VisitBreak() returns (out: Outcome<BuildError>)
      modifies this
      ensures Follows(Traversal.VisitBreak(old(Snapshot())), out, Snapshot())
    {
      if whileNodes == [] {
        return Fail(NoOpenLoop);
      }
      Append(BreakStatement(NodeData(counter, BreakNode, "break"), whileNodes[|whileNodes| - 1]));
      out := Pass;
    }

    /** `visit_Continue`: as `visit_Break`, for `continue`. */
    method VisitContinue() returns (out: Outcome<BuildError>)
      modifies this
      ensures Follows(Traversal.VisitContinue(old(Snapshot())), out, Snapshot())
    {
      if whileNodes == [] {
        return Fail(NoOpenLoop);
      }
      Append(ContinueStatement(NodeData(counter, ContinueNode, "continue"), whileNodes[|whileNodes| - 1]));
      out := Pass;
    }

    /** `visit_For`: read the bounds off `range(...)`, assign the start
        under the `for` node's id, take the next id and visit the loop
        `while v < stop` whose body ends in `v = v + step`. */
    method VisitFor(target: string, args: seq<Expr>, body: seq<Node>, orelse: seq<Node>) returns (out: Outcome<BuildError>)
      modifies this
      decreases 3 + ListSize(body) + ListSize(orelse), 2
      ensures Follows(Traversal.VisitFor(old(Snapshot()), target, args, body, orelse), out, Snapshot())
    {
      var start, stop, step;
      if |args| == 3 {
        stop := ArgumentValue(ssa, args[1]);
        start := ArgumentValue(ssa, args[0]);
        step := ArgumentValue(ssa, args[2]);
      } else if |args| == 2 {
        stop := ArgumentValue(ssa, args[1]);
        start := ArgumentValue(ssa, args[0]);
        step := "1";
      } else if |args| == 1 {
        stop := ArgumentValue(ssa, args[0]);
        start := "0";
        step := "1";
      } else {
        return Fail(MalformedRange(|args|));
      }
      out := VisitAssign(target, Constant(start));
      if out.Fail? {
        return;
      }
      counter := counter + 1;
      out := VisitCondition(Compare(Name(target), Lt, Constant(stop)), body, orelse,
                            WhileKind, Some(ForAsWhileData(target, step)));
    }

    /** `visit_FunctionDef`: bump and render the parameters, visit the body
        into the definition's own list, close it with an end node under a
        fresh id, point every return of the body at that node, and append
        the definition to the list that was current. */
    method VisitFunctionDef(name: string, params: seq<string>, body: seq<Node>) returns (out: Outcome<BuildError>)
      modifies this
      decreases 1 + ListSize(body), 2
      ensures Follows(Traversal.VisitFunctionDef(old(Snapshot()), name, params, body), out, Snapshot())
    {
      ghost var st := Snapshot();
      var args := "";
      for i := 0 to |params|
        invariant (ssa, args) == BumpParams(st.ssa, params, i)
        invariant Snapshot() == st.(ssa := ssa)
      {
        var p := params[i];
        ssa := ssa[p := Version(ssa, p) + 1];
        args := args + Separated(VersionedName(p, Version(ssa, p)), i == |params| - 1);
      }
      var functionName := name + "(" + args + ")";
      var def := NodeData(counter, FunctionDefNode, "def " + functionName);
      var saved := statements;
      statements := [];
      out := Visit(body);
      if out.Fail? {
        return;
      }
      counter := counter + 1;
      var end := NodeData(counter, FunctionEndNode, "End of " + functionName);
      statements := statements + [Simple(end)];
      var patched := PatchReturns(statements, counter);
      if patched.Err? {
        return Fail(patched.error);
      }
      id2statement := id2statement[counter := end];
      statements := saved + [FunctionStatement(def, patched.value)];
    }

    /** `visit_Return`: `return <value>`; no value renders as `None`. */
    method VisitReturn(value: Option<Expr>)
      modifies this
      ensures Snapshot() == Traversal.VisitReturn(old(Snapshot()), value)
    {
      var text := if value.Some? then ArgumentValue(ssa, value.value) else "None";
      Append(ReturnStatement(NodeData(counter, ReturnNode, "return " + text), None));
    }

    /** `visit_Call`: a call statement `f(args)`. */
    method VisitCall(func: string, args: seq<Expr>)
      modifies this
      ensures Snapshot() == Traversal.VisitCall(old(Snapshot()), func, args)
    {
      var argsText := CallArgs(ssa, args);
      Append(Simple(NodeData(counter, CallNode, func + "(" + argsText + ")")));
    }

    /** `__append_end`: the End node takes the next id. */
    method AppendEnd()
      modifies this
      ensures Snapshot() == Traversal.AppendEnd(old(Snapshot()))
    {
      counter := counter + 1;
      Append(Simple(NodeData(counter, EndNode, "End")));
    }
  }

  /** `CFGBuilder(code)` for a parsed program: set up the fields, visit the
      tree, append the End node. The object exists exactly when the build
      succeeds; otherwise the error that escapes is the model's. */
  method NewBuilder(tree: Node) returns (r: Result<CFGBuilder, BuildError>)
    ensures r.Ok? <==> Build(tree).Ok?
    ensures r.Ok? ==> fresh(r.value) && r.value.Snapshot() == Build(tree).value
    ensures r.Err? ==> r.error == Build(tree).error
  {
    var b := new CFGBuilder();
    var out := b.VisitNode(tree);
    if out.Fail? {
      return Err(out.error);
    }
    b.AppendEnd();
    r := Ok(b);
  }
}
