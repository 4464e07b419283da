// Every visit step of the traversal keeps the invariants of
// TraversalFacts.Grows; proved by one induction over the input tree that
// follows the recursion of the visit functions.
module VisitFacts {
  import opened Wrappers
  import opened Ast
  import opened Statements
  import opened Labels
  import opened Traversal
  import opened TraversalFacts
  import opened ReturnFacts

  /** `__visit_Assign` appends one statement with the current id and only
      raises versions. */
  lemma VisitAssignGrows(st: State, target: string, value: Expr)
    ensures VisitAssign(st, target, value).Ok? ==> Grows(st, VisitAssign(st, target, value).value, st.counter - 1)
  {
    if VisitAssign(st, target, value).Ok? {
      var version := Version(st.ssa, target) + 1;
      var st1 := st.(ssa := st.ssa[target := version]);
      var node := NodeData(st.counter, AssignNode, VersionedName(target, version) + " = " + AssignValueText(st.ssa, value).value);
      var fin := VisitAssign(st, target, value).value;
      assert fin == Emit(st1, Simple(node));
      EmitGrows(st1, Simple(node));
      assert VersionsGrow(st.ssa, st1.ssa) by {
        forall v ensures Version(st.ssa, v) <= Version(st1.ssa, v) {
        }
      }
      RaisedGrows(st, st1, fin, st.counter - 1);
    }
  }

  /** A step taken after raising some versions is a step from before. */
  lemma RaisedGrows(st: State, st1: State, st': State, lo: int)
    requires st1 == st.(ssa := st1.ssa) && VersionsGrow(st.ssa, st1.ssa)
    requires Grows(st1, st', lo)
    ensures Grows(st, st', lo)
  {
    assert Added(st, st') == Added(st1, st');
  }

  lemma VisitBreakGrows(st: State)
    ensures VisitBreak(st).Ok? ==> Grows(st, VisitBreak(st).value, st.counter - 1)
  {
    if st.whileNodes != [] {
      EmitGrows(st, BreakStatement(NodeData(st.counter, BreakNode, "break"), st.whileNodes[|st.whileNodes| - 1]));
    }
  }

  lemma VisitContinueGrows(st: State)
    ensures VisitContinue(st).Ok? ==> Grows(st, VisitContinue(st).value, st.counter - 1)
  {
    if st.whileNodes != [] {
      EmitGrows(st, ContinueStatement(NodeData(st.counter, ContinueNode, "continue"), st.whileNodes[|st.whileNodes| - 1]));
    }
  }

  lemma VisitReturnGrows(st: State, value: Option<Expr>)
    ensures Grows(st, VisitReturn(st, value), st.counter - 1)
  {
    var text := if value.Some? then ArgumentValue(st.ssa, value.value) else "None";
    EmitGrows(st, ReturnStatement(NodeData(st.counter, ReturnNode, "return " + text), None));
  }

  lemma VisitCallGrows(st: State, func: string, args: seq<Expr>)
    ensures Grows(st, VisitCall(st, func, args), st.counter - 1)
  {
    EmitGrows(st, Simple(NodeData(st.counter, CallNode, func + "(" + CallArgsText(st.ssa, args, |args|) + ")")));
  }

  /** A visit of one node: statements appended above the old counter. */
  lemma {:induction false} VisitNodeExtends(st: State, n: Node)
    ensures VisitNode(st, n).Ok? ==> Extends(st, VisitNode(st, n).value)
    decreases NodeSize(n), 4
  {
    var st1 := st.(counter := st.counter + 1);
    VisitNodeGrows(st, n);
    if VisitNode(st, n).Ok? {
      DispatchGrows(st, st1, VisitNode(st, n).value);
    }
  }

  /** The visit a node dispatches to, from the id it drew. */
  lemma {:induction false} VisitNodeGrows(st: State, n: Node)
    ensures VisitNode(st, n).Ok? ==> Grows(st.(counter := st.counter + 1), VisitNode(st, n).value, st.counter)
    decreases NodeSize(n), 3
  {
    var st1 := st.(counter := st.counter + 1);
    var r := VisitNode(st, n);
    if r.Ok? {
      match n
      case Assign(t, v) => VisitAssignGrows(st1, t, v);
      case AugAssign(t, op, v) => VisitAssignGrows(st1, t, BinOp(Name(t), op, v));
      case If(test, body, orelse) => VisitConditionGrows(st1, test, body, orelse, IfKind, None);
      case While(test, body, orelse) => VisitConditionGrows(st1, test, body, orelse, WhileKind, None);
      case For(t, args, body, orelse) => VisitForGrows(st1, t, args, body, orelse);
      case Break => VisitBreakGrows(st1);
      case Continue => VisitContinueGrows(st1);
      case FunctionDef(name, params, body) => VisitFunctionDefGrows(st1, name, params, body);
      case Return(v) => VisitReturnGrows(st1, v);
      case Call(f, args) => VisitCallGrows(st1, f, args);
      case Generic(children) =>
        VisitListExtends(st1, children);
        WeakenGrows(st1, r.value, st1.counter, st.counter);
    }
  }

  /** A visit of a list: the composition of its nodes' visits. */
  lemma {:induction false} VisitListExtends(st: State, ns: seq<Node>)
    ensures VisitList(st, ns).Ok? ==> Extends(st, VisitList(st, ns).value)
    decreases ListSize(ns), 0
  {
    if ns == [] {
      assert Added(st, st) == [];
    } else {
      var r1 := VisitNode(st, ns[0]);
      VisitNodeExtends(st, ns[0]);
      if r1.Ok? {
        VisitListExtends(r1.value, ns[1..]);
        if VisitList(st, ns).Ok? {
          GrowsTrans(st, r1.value, VisitList(st, ns).value, st.counter);
        }
      }
    }
  }

  lemma {:induction false} VisitConditionGrows(st: State, test: Compare, body: seq<Node>, orelse: seq<Node>,
                                               kind: ConditionKind, forData: Option<ForAsWhileData>)
    ensures VisitCondition(st, test, body, orelse, kind, forData).Ok? ==>
              Grows(st, VisitCondition(st, test, body, orelse, kind, forData).value, st.counter - 1)
    decreases ListSize(body) + ListSize(orelse) + (if forData.Some? then 2 else 0), 1
  {
    var node := NodeData(st.counter, IfNode, CompareLabel(st.ssa, test));
    if !(kind == WhileKind && body == []) {
      var st2 := OpenCondition(st, node, kind, body);
      var loopBody := LoopBody(body, forData);
      LoopBodySize(body, forData);
      var in3 := st2.(statements := []);
      VisitListExtends(in3, loopBody);
      var r3 := VisitList(in3, loopBody);
      if r3.Ok? {
        var in4 := r3.value.(statements := []);
        VisitListExtends(in4, orelse);
        var r4 := VisitList(in4, orelse);
        if r4.Ok? {
          FinishConditionGrows(st, node, kind, st2, r3.value, r4.value);
        }
      }
    }
  }

  /** The `for` loop: the init assignment, then the loop with the next id. */
  lemma {:induction false} VisitForGrows(st: State, target: string, args: seq<Expr>, body: seq<Node>, orelse: seq<Node>)
    ensures VisitFor(st, target, args, body, orelse).Ok? ==> Grows(st, VisitFor(st, target, args, body, orelse).value, st.counter - 1)
    decreases 3 + ListSize(body) + ListSize(orelse), 2
  {
    var r := VisitFor(st, target, args, body, orelse);
    if r.Ok? {
      var bounds := RangeArguments(st.ssa, args).value;
      VisitAssignGrows(st, target, Constant(bounds.start));
      var st1 := VisitAssign(st, target, Constant(bounds.start)).value;
      var st2 := st1.(counter := st1.counter + 1);
      VisitConditionGrows(st2, Compare(Name(target), Lt, Constant(bounds.stop)), body, orelse,
                          WhileKind, Some(ForAsWhileData(target, bounds.step)));
      DispatchGrows(st1, st2, r.value);
      GrowsTrans(st, st1, r.value, st.counter - 1);
    }
  }

  lemma {:induction false} VisitFunctionDefGrows(st: State, name: string, params: seq<string>, body: seq<Node>)
    ensures VisitFunctionDef(st, name, params, body).Ok? ==> Grows(st, VisitFunctionDef(st, name, params, body).value, st.counter - 1)
    decreases 1 + ListSize(body), 2
  {
    var r := VisitFunctionDef(st, name, params, body);
    if r.Ok? {
      var (ssa1, argsText) := BumpParams(st.ssa, params, |params|);
      BumpParamsGrow(st.ssa, params, |params|);
      var in1 := st.(ssa := ssa1, statements := []);
      VisitListExtends(in1, body);
      var st1 := VisitList(in1, body).value;
      FinishFunctionGrows(st, name + "(" + argsText + ")", ssa1, st1);
    }
  }

  /** The parameter loop only raises versions. */
  lemma {:induction false} BumpParamsGrow(ssa: Versions, params: seq<string>, k: nat)
    requires k <= |params|
    ensures VersionsGrow(ssa, BumpParams(ssa, params, k).0)
  {
    if k > 0 {
      BumpParamsGrow(ssa, params, k - 1);
    }
  }

  /** Closing a condition keeps the invariants: its ids, table entries
      and scopes are those of its children plus its own node. */
  lemma FinishConditionGrows(st: State, node: NodeData, kind: ConditionKind, st2: State, st3: State, st4: State)
    requires node.id == st.counter
    requires st2.counter == st.counter && st2.ssa == st.ssa
    requires st2.nodeAfterWhile == st.nodeAfterWhile
    requires st2.id2statement == st.id2statement[node.id := node]
    requires kind == WhileKind ==> st2.whileNodes == st.whileNodes + [node.id] && |st2.lastNodeWhile| == |st.lastNodeWhile| + 1
                                   && st2.lastNodeWhile[..|st.lastNodeWhile|] == st.lastNodeWhile
    requires kind == IfKind ==> st2.whileNodes == st.whileNodes && st2.lastNodeWhile == st.lastNodeWhile
    requires Extends(st2.(statements := []), st3)
    requires Extends(st3.(statements := []), st4)
    ensures Grows(st, FinishCondition(st, node, kind, st3, st4), st.counter - 1)
  {
    var b, o := st3.statements, st4.statements;
    assert Added(st2.(statements := []), st3) == b;
    assert Added(st3.(statements := []), st4) == o;
    var inner := Top(st2.whileNodes);
    ChildrenFacts(st2, st3, st4);
    if kind == WhileKind {
      LoopClosed(st, node, b, o, st3, st4);
    } else {
      IfClosed(st, node, b, o, st3, st4);
    }
  }

  /** What the visits of a condition's two branches tell about their lists. */
  lemma ChildrenFacts(st2: State, st3: State, st4: State)
    requires Extends(st2.(statements := []), st3)
    requires Extends(st3.(statements := []), st4)
    ensures Increasing(Ids(st3.statements)) && InRange(Ids(st3.statements), st2.counter, st3.counter)
    ensures Increasing(Ids(st4.statements)) && InRange(Ids(st4.statements), st3.counter, st4.counter)
    ensures st2.counter <= st3.counter <= st4.counter
    ensures st4.id2statement == st2.id2statement + (Registry(st3.statements) + Registry(st4.statements))
    ensures st4.nodeAfterWhile.Keys == st2.nodeAfterWhile.Keys + WhileIds(st3.statements) + WhileIds(st4.statements)
    ensures forall k :: k in st2.nodeAfterWhile && k !in WhileIds(st3.statements) + WhileIds(st4.statements) ==>
              st4.nodeAfterWhile[k] == st2.nodeAfterWhile[k]
    ensures forall k :: k in WhileIds(st3.statements) ==> k !in WhileIds(st4.statements)
    ensures AllExitsOk(st3.statements, Top(st2.whileNodes), st4.nodeAfterWhile)
    ensures AllExitsOk(st4.statements, Top(st2.whileNodes), st4.nodeAfterWhile)
    ensures AllJumpsTarget(st3.statements, Top(st2.whileNodes)) && AllJumpsTarget(st4.statements, Top(st2.whileNodes))
    ensures AllReturnsTo(st3.statements, None) && AllReturnsTo(st4.statements, None)
    ensures st4.whileNodes == st2.whileNodes && st4.lastNodeWhile == st2.lastNodeWhile
    ensures VersionsGrow(st2.ssa, st4.ssa)
  {
    var b, o := st3.statements, st4.statements;
    assert Added(st2.(statements := []), st3) == b;
    assert Added(st3.(statements := []), st4) == o;
    DisjointWhileIds(b, o, st3.counter);
    AllExitsOkFrame(b, Top(st2.whileNodes), st3.nodeAfterWhile, st4.nodeAfterWhile);
    MapUnionAssoc(st2.id2statement, Registry(b), Registry(o));
  }

  /** The ids of a condition statement: its own node, then its branches'. */
  lemma ConditionIds(id: int, x: seq<int>, y: seq<int>, mid: int, hi: int)
    requires Increasing(x) && InRange(x, id, mid)
    requires Increasing(y) && InRange(y, mid, hi)
    requires id <= mid <= hi
    ensures Increasing([id] + x + y) && InRange([id] + x + y, id - 1, hi)
  {
    IncreasingAppend(x, y, mid);
    InRangeAppend(x, y, id, mid, hi);
    IncreasingAppend([id], x + y, id);
  }

  /** One appended condition statement, in the terms of AddedOk. */
  lemma ConditionSingle(c: Statement)
    requires c.IsCondition()
    ensures Ids([c]) == [c.node.id] + Ids(c.body) + Ids(c.orelse)
    ensures Registry([c]) == map[c.node.id := c.node] + Registry(c.body) + Registry(c.orelse)
    ensures WhileIds([c]) == StmtWhileIds(c)
  {
    assert [c][1..] == [];
  }

  /** Grows, conjunct by conjunct. */
  lemma GrowsIntro(st: State, st': State, added: seq<Statement>, lo: int)
    requires st.counter <= st'.counter
    requires st'.statements == st.statements + added
    requires Increasing(Ids(added)) && InRange(Ids(added), lo, st'.counter)
    requires st'.id2statement == st.id2statement + Registry(added)
    requires st'.nodeAfterWhile.Keys == st.nodeAfterWhile.Keys + WhileIds(added)
    requires forall k :: k in st.nodeAfterWhile && k !in WhileIds(added) ==> st'.nodeAfterWhile[k] == st.nodeAfterWhile[k]
    requires AllExitsOk(added, Top(st.whileNodes), st'.nodeAfterWhile)
    requires AllJumpsTarget(added, Top(st.whileNodes))
    requires AllReturnsTo(added, None)
    requires st'.whileNodes == st.whileNodes && st'.lastNodeWhile == st.lastNodeWhile
    requires VersionsGrow(st.ssa, st'.ssa)
    ensures Grows(st, st', lo)
  {
    assert Added(st, st') == added;
  }

  /** The scope predicates of a one-statement list. */
  lemma SingleScopes(c: Statement, top: Option<int>, jt: map<int, int>)
    requires ExitsOk(c, top, jt) && JumpsTarget(c, top) && ReturnsTo(c, None)
    ensures AllExitsOk([c], top, jt) && AllJumpsTarget([c], top) && AllReturnsTo([c], None)
  {
  }

  /** An `if` statement closed over its two visited branches. */
  lemma IfClosed(st: State, node: NodeData, b: seq<Statement>, o: seq<Statement>, st3: State, st4: State)
    requires node.id == st.counter
    requires b == st3.statements && o == st4.statements
    requires Increasing(Ids(b)) && InRange(Ids(b), st.counter, st3.counter)
    requires Increasing(Ids(o)) && InRange(Ids(o), st3.counter, st4.counter)
    requires st.counter <= st3.counter <= st4.counter
    requires st4.id2statement == st.id2statement[node.id := node] + (Registry(b) + Registry(o))
    requires st4.nodeAfterWhile.Keys == st.nodeAfterWhile.Keys + WhileIds(b) + WhileIds(o)
    requires forall k :: k in st.nodeAfterWhile && k !in WhileIds(b) + WhileIds(o) ==>
               st4.nodeAfterWhile[k] == st.nodeAfterWhile[k]
    requires AllExitsOk(b, Top(st.whileNodes), st4.nodeAfterWhile) && AllExitsOk(o, Top(st.whileNodes), st4.nodeAfterWhile)
    requires AllJumpsTarget(b, Top(st.whileNodes)) && AllJumpsTarget(o, Top(st.whileNodes))
    requires AllReturnsTo(b, None) && AllReturnsTo(o, None)
    requires st4.whileNodes == st.whileNodes && st4.lastNodeWhile == st.lastNodeWhile
    requires VersionsGrow(st.ssa, st4.ssa)
    ensures Grows(st, FinishCondition(st, node, IfKind, st3, st4), st.counter - 1)
  {
    var c := IfStatement(node, b, o);
    var fin := FinishCondition(st, node, IfKind, st3, st4);
    assert fin == st4.(statements := st.statements + [c]);
    ConditionSingle(c);
    ConditionIds(node.id, Ids(b), Ids(o), st3.counter, st4.counter);
    ConditionRegistry(st.id2statement, node, Registry(b), Registry(o));
    SingleScopes(c, Top(st.whileNodes), fin.nodeAfterWhile);
    GrowsIntro(st, fin, [c], st.counter - 1);
  }

  lemma ConditionRegistry(m: map<int, NodeData>, node: NodeData, rb: map<int, NodeData>, ro: map<int, NodeData>)
    ensures m[node.id := node] + (rb + ro) == m + (map[node.id := node] + rb + ro)
  {
  }

  /** A loop statement closed over its two visited branches: its exit
      entry is written and both stacks are popped. */
  lemma LoopClosed(st: State, node: NodeData, b: seq<Statement>, o: seq<Statement>, st3: State, st4: State)
    requires node.id == st.counter
    requires b == st3.statements && o == st4.statements
    requires Increasing(Ids(b)) && InRange(Ids(b), st.counter, st3.counter)
    requires Increasing(Ids(o)) && InRange(Ids(o), st3.counter, st4.counter)
    requires st.counter <= st3.counter <= st4.counter
    requires st4.id2statement == st.id2statement[node.id := node] + (Registry(b) + Registry(o))
    requires st4.nodeAfterWhile.Keys == st.nodeAfterWhile.Keys + WhileIds(b) + WhileIds(o)
    requires forall k :: k in st.nodeAfterWhile && k !in WhileIds(b) + WhileIds(o) ==>
               st4.nodeAfterWhile[k] == st.nodeAfterWhile[k]
    requires AllExitsOk(b, Some(node.id), st4.nodeAfterWhile) && AllExitsOk(o, Some(node.id), st4.nodeAfterWhile)
    requires AllJumpsTarget(b, Some(node.id)) && AllJumpsTarget(o, Some(node.id))
    requires AllReturnsTo(b, None) && AllReturnsTo(o, None)
    requires st4.whileNodes == st.whileNodes + [node.id]
    requires |st4.lastNodeWhile| == |st.lastNodeWhile| + 1 && st4.lastNodeWhile[..|st.lastNodeWhile|] == st.lastNodeWhile
    requires VersionsGrow(st.ssa, st4.ssa)
    ensures Grows(st, FinishCondition(st, node, WhileKind, st3, st4), st.counter - 1)
  {
    var c := WhileStatement(node, b, o);
    var fin := FinishCondition(st, node, WhileKind, st3, st4);
    var e := ExitTarget(st4.whileNodes, st4.lastNodeWhile, st4.counter);
    var jt := st4.nodeAfterWhile[node.id := e];
    assert fin == st4.(statements := st.statements + [c], nodeAfterWhile := jt,
                       whileNodes := st.whileNodes, lastNodeWhile := st.lastNodeWhile);
    ConditionSingle(c);
    ConditionIds(node.id, Ids(b), Ids(o), st3.counter, st4.counter);
    ConditionRegistry(st.id2statement, node, Registry(b), Registry(o));
    LoopTable(st.nodeAfterWhile, st4.nodeAfterWhile, node, e, b, o);
    ExitTargetOk(st, node.id, Ids([c]), st4);
    assert ExitsOk(c, Top(st.whileNodes), jt);
    SingleScopes(c, Top(st.whileNodes), jt);
    GrowsIntro(st, fin, [c], st.counter - 1);
  }

  /** The loop's entry is added to the table its branches left; their
      entries and the older ones are kept. */
  lemma LoopTable(jt0: map<int, int>, jt4: map<int, int>, node: NodeData, e: int, b: seq<Statement>, o: seq<Statement>)
    requires forall i :: 0 <= i < |Ids(b)| ==> node.id < Ids(b)[i]
    requires forall i :: 0 <= i < |Ids(o)| ==> node.id < Ids(o)[i]
    requires jt4.Keys == jt0.Keys + WhileIds(b) + WhileIds(o)
    requires forall k :: k in jt0 && k !in WhileIds(b) + WhileIds(o) ==> jt4[k] == jt0[k]
    requires AllExitsOk(b, Some(node.id), jt4) && AllExitsOk(o, Some(node.id), jt4)
    ensures jt4[node.id := e].Keys == jt0.Keys + StmtWhileIds(WhileStatement(node, b, o))
    ensures forall k :: k in jt0 && k !in StmtWhileIds(WhileStatement(node, b, o)) ==> jt4[node.id := e][k] == jt0[k]
    ensures AllExitsOk(b, Some(node.id), jt4[node.id := e]) && AllExitsOk(o, Some(node.id), jt4[node.id := e])
  {
    var id := node.id;
    WhileIdsAreIds(b);
    WhileIdsAreIds(o);
    assert forall k :: k in WhileIds(b) + WhileIds(o) ==> id < k;
    AllExitsOkFrame(b, Some(id), jt4, jt4[id := e]);
    AllExitsOkFrame(o, Some(id), jt4, jt4[id := e]);
  }

  /** The exit entry is the enclosing loop's header or lies beyond every
      id of the loop. */
  lemma ExitTargetOk(st: State, id: int, ids: seq<int>, st4: State)
    requires st4.whileNodes == st.whileNodes + [id]
    requires |st4.lastNodeWhile| == |st.lastNodeWhile| + 1
    requires forall i :: 0 <= i < |ids| ==> ids[i] <= st4.counter
    ensures Top(st.whileNodes) == Some(ExitTarget(st4.whileNodes, st4.lastNodeWhile, st4.counter))
            || forall k :: k in ids ==> k < ExitTarget(st4.whileNodes, st4.lastNodeWhile, st4.counter)
  {
  }

  /** Closing a function definition keeps the invariants: its body's
      statements plus the end node, with every `return` pointed there. */
  lemma FinishFunctionGrows(st: State, functionName: string, ssa1: Versions, st1: State)
    requires VersionsGrow(st.ssa, ssa1)
    requires Extends(st.(ssa := ssa1, statements := []), st1)
    ensures
      var c := st1.counter + 1;
      var end := NodeData(c, FunctionEndNode, "End of " + functionName);
      var def := NodeData(st.counter, FunctionDefNode, "def " + functionName);
      var patched := SetEndToReturnAll(st1.statements + [Simple(end)], c);
      patched.Ok? ==>
        Grows(st, st1.(counter := c,
                       statements := st.statements + [FunctionStatement(def, patched.value)],
                       id2statement := st1.id2statement[c := end]), st.counter - 1)
  {
    var c := st1.counter + 1;
    var end := NodeData(c, FunctionEndNode, "End of " + functionName);
    var def := NodeData(st.counter, FunctionDefNode, "def " + functionName);
    var b := st1.statements;
    var patched := SetEndToReturnAll(b + [Simple(end)], c);
    if patched.Ok? {
      var in1 := st.(ssa := ssa1, statements := []);
      assert Added(in1, st1) == b;
      PatchFacts(b, end, patched.value, Top(st.whileNodes), st1.nodeAfterWhile);
      FunctionClosed(st, def, end, b, patched.value, st1);
    }
  }

  /** What back-patching the returns of a function body followed by its
      end node yields. */
  lemma PatchFacts(b: seq<Statement>, end: NodeData, p: seq<Statement>, top: Option<int>, jt: map<int, int>)
    requires end.nodeType == FunctionEndNode
    requires SetEndToReturnAll(b + [Simple(end)], end.id) == Ok(p)
    requires AllExitsOk(b, top, jt) && AllJumpsTarget(b, top)
    ensures Ids(p) == Ids(b) + [end.id]
    ensures Registry(p) == Registry(b) + map[end.id := end]
    ensures WhileIds(p) == WhileIds(b)
    ensures AllExitsOk(p, top, jt) && AllJumpsTarget(p, top)
    ensures |p| > 0 && p[|p| - 1] == Simple(end) && AllReturnsTo(p, Some(end.id))
  {
    var full := b + [Simple(end)];
    SetEndToReturnAllSpec(full, end.id);
    EraseAllKeeps(p);
    EraseAllKeeps(full);
    IdsAppend(b, [Simple(end)]);
    IdsSingle(Simple(end));
    RegistryAppend(b, [Simple(end)]);
    RegistrySingle(Simple(end));
    WhileIdsAppend(b, [Simple(end)]);
    assert WhileIds([Simple(end)]) == {} by { assert [Simple(end)][1..] == []; }
    assert AllExitsOk(full, top, jt) && AllJumpsTarget(full, top);
    LastAfterErase(p, full);
  }

  /** One appended function statement, in the terms of AddedOk. */
  lemma FunctionSingle(f: Statement)
    requires f.FunctionStatement?
    ensures Ids([f]) == [f.node.id] + Ids(f.body)
    ensures Registry([f]) == Registry(f.body)
    ensures WhileIds([f]) == WhileIds(f.body)
  {
    assert [f][1..] == [];
  }

  lemma FunctionClosed(st: State, def: NodeData, end: NodeData, b: seq<Statement>, p: seq<Statement>, st1: State)
    requires def.id == st.counter && end.id == st1.counter + 1 && end.nodeType == FunctionEndNode
    requires b == st1.statements
    requires Increasing(Ids(b)) && InRange(Ids(b), st.counter, st1.counter) && st.counter <= st1.counter
    requires st1.id2statement == st.id2statement + Registry(b)
    requires st1.nodeAfterWhile.Keys == st.nodeAfterWhile.Keys + WhileIds(b)
    requires forall k :: k in st.nodeAfterWhile && k !in WhileIds(b) ==> st1.nodeAfterWhile[k] == st.nodeAfterWhile[k]
    requires st1.whileNodes == st.whileNodes && st1.lastNodeWhile == st.lastNodeWhile
    requires VersionsGrow(st.ssa, st1.ssa)
    requires Ids(p) == Ids(b) + [end.id]
    requires Registry(p) == Registry(b) + map[end.id := end]
    requires WhileIds(p) == WhileIds(b)
    requires AllExitsOk(p, Top(st.whileNodes), st1.nodeAfterWhile) && AllJumpsTarget(p, Top(st.whileNodes))
    requires |p| > 0 && p[|p| - 1] == Simple(end) && AllReturnsTo(p, Some(end.id))
    ensures Grows(st, st1.(counter := end.id,
                           statements := st.statements + [FunctionStatement(def, p)],
                           id2statement := st1.id2statement[end.id := end]), st.counter - 1)
  {
    var f := FunctionStatement(def, p);
    var fin := st1.(counter := end.id, statements := st.statements + [f], id2statement := st1.id2statement[end.id := end]);
    FunctionSingle(f);
    assert Ids([f]) == [def.id] + Ids(b) + [end.id];
    ConditionIds(def.id, Ids(b), [end.id], st1.counter, end.id);
    assert Increasing(Ids([f])) && InRange(Ids([f]), st.counter - 1, fin.counter);
    MapUpdateUnion(st.id2statement, Registry(b), end.id, end);
    assert fin.id2statement == st.id2statement + Registry([f]);
    assert ReturnsTo(f, None);
    assert ExitsOk(f, Top(st.whileNodes), fin.nodeAfterWhile);
    assert JumpsTarget(f, Top(st.whileNodes));
    SingleScopes(f, Top(st.whileNodes), fin.nodeAfterWhile);
    assert fin.nodeAfterWhile.Keys == st.nodeAfterWhile.Keys + WhileIds([f]);
    GrowsIntro(st, fin, [f], st.counter - 1);
  }

  lemma MapUpdateUnion<K, V>(m: map<K, V>, r: map<K, V>, k: K, v: V)
    ensures (m + r)[k := v] == m + (r + map[k := v])
  {
  }

  /** Erasing return targets keeps the last statement when it is a plain
      statement. */
  lemma LastAfterErase(p: seq<Statement>, full: seq<Statement>)
    requires EraseAll(p) == EraseAll(full)
    requires |full| > 0 && full[|full| - 1].Simple?
    ensures |p| == |full| && p[|p| - 1] == full[|full| - 1]
  {
    assert Erase(p[|p| - 1]) == Erase(full[|full| - 1]);
  }

  /** The intermediate states of a successful condition visit. */
  lemma ConditionSteps(st: State, test: Compare, body: seq<Node>, orelse: seq<Node>,
                       kind: ConditionKind, forData: Option<ForAsWhileData>) returns (node: NodeData, r3: State, r4: State)
    requires VisitCondition(st, test, body, orelse, kind, forData).Ok?
    ensures node == NodeData(st.counter, IfNode, CompareLabel(st.ssa, test))
    ensures kind == WhileKind ==> body != []
    ensures VisitList(OpenCondition(st, node, kind, body).(statements := []), LoopBody(body, forData)) == Ok(r3)
    ensures VisitList(r3.(statements := []), orelse) == Ok(r4)
    ensures VisitCondition(st, test, body, orelse, kind, forData) == Ok(FinishCondition(st, node, kind, r3, r4))
  {
    node := NodeData(st.counter, IfNode, CompareLabel(st.ssa, test));
    var st2 := OpenCondition(st, node, kind, body);
    r3 := VisitList(st2.(statements := []), LoopBody(body, forData)).value;
    r4 := VisitList(r3.(statements := []), orelse).value;
  }

  /** A visit of a list leaves both loop stacks as it found them. */
  lemma ListKeepsStacks(st: State, ns: seq<Node>)
    requires VisitList(st, ns).Ok?
    ensures VisitList(st, ns).value.whileNodes == st.whileNodes
    ensures VisitList(st, ns).value.lastNodeWhile == st.lastNodeWhile
  {
    VisitListExtends(st, ns);
  }
}
