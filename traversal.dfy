// The CFG builder (ssa/builder.py, class CFGBuilder) as a pure function of
// its state: one step per visit method. Builder.CFGBuilder performs the
// same steps in place and is proved to agree with these functions; the
// properties of the traversal are proved about them in TraversalFacts.
module Traversal {
  import opened Wrappers
  import opened Ast
  import opened Statements
  import opened Labels

  /** The exceptions that escape the builder on inputs it cannot handle. */
  datatype BuildError =
    | UnboundValue          // an assigned value of a kind with no rendering branch
    | NoOpenLoop            // `break` or `continue` while no loop is open
    | EmptyLoopBody         // a loop body with no last statement
    | MalformedRange(arity: nat)  // `range` called with other than 1 to 3 arguments
    | NestedFunction        // a function definition inside a function body

  /** Which statement class a condition creates. */
  datatype ConditionKind = IfKind | WhileKind

  /** What turns a `for` loop into a `while` loop: its variable and step. */
  datatype ForAsWhileData = ForAsWhileData(variable: string, step: string)

  /** The arguments of `range(...)` as rendered texts. */
  datatype RangeBounds = RangeBounds(start: string, stop: string, step: string)

  /** The builder's fields. `statements` is the list currently appended
      to; `ssa` is the single version table (`ssa_list[-1]`). */
  datatype State = State(
    counter: int,
    statements: seq<Statement>,
    whileNodes: seq<int>,
    lastNodeWhile: seq<Node>,
    nodeAfterWhile: map<int, int>,
    id2statement: map<int, NodeData>,
    ssa: Versions)

  function Top(s: seq<int>): Option<int>
  {
    if s == [] then None else Some(s[|s| - 1])
  }

  function DropLast<T>(s: seq<T>): seq<T>
  {
    if s == [] then [] else s[..|s| - 1]
  }

  /** Appends a statement to the current list and registers its node. */
  function Emit(st: State, s: Statement): State
  {
    st.(statements := st.statements + [s], id2statement := st.id2statement[s.node.id := s.node])
  }

  /** The state `__init__` sets up before visiting: the Start node, id 0. */
  function Initial(): State
  {
    var start := NodeData(0, StartNode, "Start");
    State(0, [Simple(start)], [], [], map[], map[0 := start], map[])
  }

  /** `__visit`: take the next id, then dispatch on the node kind. */
  function VisitNode(st0: State, n: Node): Result<State, BuildError>
    decreases NodeSize(n), 3
  {
    var st := st0.(counter := st0.counter + 1);
    match n
    case Assign(t, v) => VisitAssign(st, t, v)
    case AugAssign(t, op, v) => VisitAugAssign(st, t, op, v)
    case If(test, body, orelse) => VisitCondition(st, test, body, orelse, IfKind, None)
    case While(test, body, orelse) => VisitCondition(st, test, body, orelse, WhileKind, None)
    case For(t, args, body, orelse) => VisitFor(st, t, args, body, orelse)
    case Break => VisitBreak(st)
    case Continue => VisitContinue(st)
    case FunctionDef(name, params, body) => VisitFunctionDef(st, name, params, body)
    case Return(v) => Ok(VisitReturn(st, v))
    case Call(f, args) => Ok(VisitCall(st, f, args))
    case Generic(children) => VisitList(st, children)
  }

  /** `visit` on a list: the nodes in order, stopping at the first error. */
  function VisitList(st: State, ns: seq<Node>): Result<State, BuildError>
    decreases ListSize(ns), 0
  {
    if ns == [] then Ok(st)
    else
      var st1 :- VisitNode(st, ns[0]);
      VisitList(st1, ns[1..])
  }

  /** `__visit_Assign`: render the label with the old versions, then bump
      the target's version; the node takes the current id. */
  function VisitAssign(st: State, target: string, value: Expr): Result<State, BuildError>
  {
    match AssignValueText(st.ssa, value)
    case None => Err(UnboundValue)
    case Some(text) =>
      var version := Version(st.ssa, target) + 1;
      var node := NodeData(st.counter, AssignNode, VersionedName(target, version) + " = " + text);
      Ok(Emit(st.(ssa := st.ssa[target := version]), Simple(node)))
  }

  /** `visit_AugAssign`: `v op= e` is the assignment `v = v op e`. */
  function VisitAugAssign(st: State, target: string, op: Operator, value: Expr): Result<State, BuildError>
  {
    VisitAssign(st, target, BinOp(Name(target), op, value))
  }

  /** The assignment appended to a desugared `for` body: `v = v + step`. */
  function IncrementNode(fd: ForAsWhileData): Node
  {
    Assign(fd.variable, BinOp(Name(fd.variable), Add, Constant(fd.step)))
  }

  /** The body a condition visits: a `for` body gets its increment last. */
  function LoopBody(body: seq<Node>, forData: Option<ForAsWhileData>): seq<Node>
  {
    if forData.Some? then body + [IncrementNode(forData.value)] else body
  }

  lemma LoopBodySize(body: seq<Node>, forData: Option<ForAsWhileData>)
    ensures ListSize(LoopBody(body, forData)) == ListSize(body) + (if forData.Some? then 2 else 0)
  {
    if forData.Some? {
      var inc := IncrementNode(forData.value);
      ListSizeAppend(body, [inc]);
      assert ListSize([inc]) == 1 + NodeSize(inc) + ListSize([inc][1..]);
    }
  }

  /** The node pushed on `last_node_while`: the last statement of the
      body as written, recorded before a `for` loop's increment is
      appended (builder.py:190, 201). */
  function LoopTail(body: seq<Node>): Node
    requires body != []
  {
    body[|body| - 1]
  }

  /** Where control goes when a loop ends: the header of the enclosing loop
      when one is open and its last body statement (as written) is a loop,
      else the id after the last one handed out. The test on the length of
      `lastNodeWhile` only keeps the function total: both stacks always
      have the same length (StackFacts), so it never decides. */
  function ExitTarget(whileNodes: seq<int>, lastNodeWhile: seq<Node>, counter: int): int
  {
    if |whileNodes| >= 2 && |lastNodeWhile| >= 2 && lastNodeWhile[|lastNodeWhile| - 2].While?
    then whileNodes[|whileNodes| - 2]
    else counter + 1
  }

  /** `__visit_Condition`: the condition node takes the current id and is
      registered; a loop is pushed on both loop stacks; body and else
      branch are visited into fresh lists; the finished condition is
      appended to the enclosing list; a loop then gets its exit entry and
      is popped. */
  function VisitCondition(st: State, test: Compare, body: seq<Node>, orelse: seq<Node>,
                          kind: ConditionKind, forData: Option<ForAsWhileData>): Result<State, BuildError>
    decreases ListSize(body) + ListSize(orelse) + (if forData.Some? then 2 else 0), 1
  {
    var node := NodeData(st.counter, IfNode, CompareLabel(st.ssa, test));
    if kind == WhileKind && body == [] then Err(EmptyLoopBody)
    else
      var st2 := OpenCondition(st, node, kind, body);
      var loopBody := LoopBody(body, forData);
      LoopBodySize(body, forData);
      var st3 :- VisitList(st2.(statements := []), loopBody);
      var st4 :- VisitList(st3.(statements := []), orelse);
      Ok(FinishCondition(st, node, kind, st3, st4))
  }

  /** The start of `__visit_Condition`, before the children: the node is
      registered and a loop is pushed on both loop stacks. */
  function OpenCondition(st: State, node: NodeData, kind: ConditionKind, body: seq<Node>): State
    requires kind == WhileKind ==> body != []
  {
    var st1 := st.(id2statement := st.id2statement[node.id := node]);
    if kind == WhileKind
    then st1.(whileNodes := st1.whileNodes + [node.id], lastNodeWhile := st1.lastNodeWhile + [LoopTail(body)])
    else st1
  }

  /** The rest of `__visit_Condition` once the children are visited: the
      finished condition (children from `st3` and `st4`) is appended to the
      list current at the start (`st`), then a loop is closed. */
  function FinishCondition(st: State, node: NodeData, kind: ConditionKind, st3: State, st4: State): State
  {
    var condition := if kind == WhileKind
                     then WhileStatement(node, st3.statements, st4.statements)
                     else IfStatement(node, st3.statements, st4.statements);
    var st5 := st4.(statements := st.statements + [condition]);
    if kind == WhileKind then CloseLoop(st5, node.id) else st5
  }

  /** The end of a loop's visit: its exit entry is written, then both loop
      stacks are popped. */
  function CloseLoop(st: State, id: int): State
  {
    st.(nodeAfterWhile := st.nodeAfterWhile[id := ExitTarget(st.whileNodes, st.lastNodeWhile, st.counter)],
        whileNodes := DropLast(st.whileNodes),
        lastNodeWhile := DropLast(st.lastNodeWhile))
  }

  /** `visit_Break`: a leaf naming the innermost open loop. */
  function VisitBreak(st: State): Result<State, BuildError>
  {
    if st.whileNodes == [] then Err(NoOpenLoop)
    else Ok(Emit(st, BreakStatement(NodeData(st.counter, BreakNode, "break"), st.whileNodes[|st.whileNodes| - 1])))
  }

  /** `visit_Continue`: a leaf naming the innermost open loop. */
  function VisitContinue(st: State): Result<State, BuildError>
  {
    if st.whileNodes == [] then Err(NoOpenLoop)
    else Ok(Emit(st, ContinueStatement(NodeData(st.counter, ContinueNode, "continue"), st.whileNodes[|st.whileNodes| - 1])))
  }

  /** The `match len(node.iter.args)` of `visit_For`. */
  function RangeArguments(ssa: Versions, args: seq<Expr>): Result<RangeBounds, BuildError>
  {
    if |args| == 3 then Ok(RangeBounds(ArgumentValue(ssa, args[0]), ArgumentValue(ssa, args[1]), ArgumentValue(ssa, args[2])))
    else if |args| == 2 then Ok(RangeBounds(ArgumentValue(ssa, args[0]), ArgumentValue(ssa, args[1]), "1"))
    else if |args| == 1 then Ok(RangeBounds("0", ArgumentValue(ssa, args[0]), "1"))
    else Err(MalformedRange(|args|))
  }

  /** `visit_For`: `v = start` under the `for` node's id, then a loop
      `while v < stop` with the next id whose body ends in `v = v + step`. */
  function VisitFor(st: State, target: string, args: seq<Expr>, body: seq<Node>, orelse: seq<Node>): Result<State, BuildError>
    decreases 3 + ListSize(body) + ListSize(orelse), 2
  {
    var bounds :- RangeArguments(st.ssa, args);
    var st1 :- VisitAssign(st, target, Constant(bounds.start));
    var st2 := st1.(counter := st1.counter + 1);
    VisitCondition(st2, Compare(Name(target), Lt, Constant(bounds.stop)), body, orelse,
                   WhileKind, Some(ForAsWhileData(target, bounds.step)))
  }

  /** `set_end_to_return` on one statement: every `return` in it is pointed
      at `end`; a function definition has no else branch to walk. */
  function SetEndToReturn(s: Statement, end: int): Result<Statement, BuildError>
  {
    match s
    case ReturnStatement(n, _) => Ok(ReturnStatement(n, Some(end)))
    case IfStatement(n, body, orelse) =>
      var body' :- SetEndToReturnAll(body, end);
      var orelse' :- SetEndToReturnAll(orelse, end);
      Ok(IfStatement(n, body', orelse'))
    case WhileStatement(n, body, orelse) =>
      var body' :- SetEndToReturnAll(body, end);
      var orelse' :- SetEndToReturnAll(orelse, end);
      Ok(WhileStatement(n, body', orelse'))
    case FunctionStatement(_, _) => Err(NestedFunction)
    case _ => Ok(s)
  }

  function SetEndToReturnAll(ss: seq<Statement>, end: int): Result<seq<Statement>, BuildError>
  {
    if ss == [] then Ok([])
    else
      var s :- SetEndToReturn(ss[0], end);
      var rest :- SetEndToReturnAll(ss[1..], end);
      Ok([s] + rest)
  }

  /** The parameter loop of `visit_FunctionDef` over the first k
      parameters: each parameter's version is bumped and rendered. */
  function BumpParams(ssa: Versions, params: seq<string>, k: nat): (Versions, string)
    requires k <= |params|
  {
    if k == 0 then (ssa, "")
    else
      var (m, text) := BumpParams(ssa, params, k - 1);
      var p := params[k - 1];
      var v := Version(m, p) + 1;
      (m[p := v], text + Separated(VersionedName(p, v), k - 1 == |params| - 1))
  }

  /** `visit_FunctionDef`: parameters get new versions, the definition
      node takes the current id (it is not registered), the body is
      visited into the definition's own list, an end node with a fresh id
      closes it, and every `return` in the body is pointed at that node. */
  function VisitFunctionDef(st: State, name: string, params: seq<string>, body: seq<Node>): Result<State, BuildError>
    decreases 1 + ListSize(body), 2
  {
    var (ssa1, argsText) := BumpParams(st.ssa, params, |params|);
    var functionName := name + "(" + argsText + ")";
    var def := NodeData(st.counter, FunctionDefNode, "def " + functionName);
    var st1 :- VisitList(st.(ssa := ssa1, statements := []), body);
    var c := st1.counter + 1;
    var end := NodeData(c, FunctionEndNode, "End of " + functionName);
    var patched :- SetEndToReturnAll(st1.statements + [Simple(end)], c);
    Ok(st1.(counter := c,
            statements := st.statements + [FunctionStatement(def, patched)],
            id2statement := st1.id2statement[c := end]))
  }

  /** `visit_Return`: `return <value>`, a bare `return` renders `None`. */
  function VisitReturn(st: State, value: Option<Expr>): State
  {
    var text := if value.Some? then ArgumentValue(st.ssa, value.value) else "None";
    Emit(st, ReturnStatement(NodeData(st.counter, ReturnNode, "return " + text), None))
  }

  /** `visit_Call`: a call statement `f(args)`. */
  function VisitCall(st: State, func: string, args: seq<Expr>): State
  {
    Emit(st, Simple(NodeData(st.counter, CallNode, func + "(" + CallArgsText(st.ssa, args, |args|) + ")")))
  }

  /** `__append_end`: the End node takes the next id. */
  function AppendEnd(st: State): State
  {
    var c := st.counter + 1;
    Emit(st.(counter := c), Simple(NodeData(c, EndNode, "End")))
  }

  /** What `CFGBuilder(code)` computes for a parsed program. */
  function Build(tree: Node): Result<State, BuildError>
  {
    var st :- VisitNode(Initial(), tree);
    Ok(AppendEnd(st))
  }
}
