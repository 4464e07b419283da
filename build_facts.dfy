// What a whole run of the builder and each kind of visit produce, proved
// for every input from the step invariants of VisitFacts.
module BuildFacts {
  import opened Wrappers
  import opened Ast
  import opened Statements
  import opened Labels
  import opened Traversal
  import opened TraversalFacts
  import opened VisitFacts
  import opened ReturnFacts

  /** A successful build yields a well-formed statement tree:
      - Start (id 0) comes first and End, with the final counter, last;
      - the ids of all statements, in pre-order, are strictly increasing,
        hence distinct, and lie in [0, final counter];
      - `id2statement` holds exactly the registered nodes of the tree;
      - `node_after_while` has one entry per loop header: the enclosing
        loop's header, or an id past every node of the loop (LoopExitEntry
        gives the exact rule);
      - every `break`/`continue` names its innermost enclosing loop;
      - every `return` inside a function points at that function's end
        node, and every other `return` at none;
      - both loop stacks are empty again. */
  lemma BuildWellFormed(tree: Node)
    ensures Build(tree).Ok? ==>
      var st := Build(tree).value;
      && |st.statements| >= 2
      && st.statements[0] == Simple(NodeData(0, StartNode, "Start"))
      && st.statements[|st.statements| - 1] == Simple(NodeData(st.counter, EndNode, "End"))
      && Increasing(Ids(st.statements))
      && InRange(Ids(st.statements), -1, st.counter)
      && st.id2statement == Registry(st.statements)
      && st.nodeAfterWhile.Keys == WhileIds(st.statements)
      && AllExitsOk(st.statements, None, st.nodeAfterWhile)
      && AllJumpsTarget(st.statements, None)
      && AllReturnsTo(st.statements, None)
      && st.whileNodes == [] && st.lastNodeWhile == []
  {
    var r := VisitNode(Initial(), tree);
    VisitNodeExtends(Initial(), tree);
    if r.Ok? {
      var fin := AppendEnd(r.value);
      assert Build(tree) == Ok(fin);
      EndGrows(r.value);
      BuildAssembly(fin);
    }
  }

  /** The End node closes a program the visits extended. */
  lemma EndGrows(st0: State)
    requires Extends(Initial(), st0)
    ensures Grows(Initial(), AppendEnd(st0), 0)
    ensures |AppendEnd(st0).statements| >= 2
    ensures AppendEnd(st0).statements[|AppendEnd(st0).statements| - 1] == Simple(NodeData(AppendEnd(st0).counter, EndNode, "End"))
  {
    EndExtends(st0);
    GrowsTrans(Initial(), st0, AppendEnd(st0), 0);
  }

  /** Appending the End node is a step like any visit. */
  lemma EndExtends(st0: State)
    ensures Extends(st0, AppendEnd(st0))
  {
    var c := st0.counter + 1;
    var bumped := st0.(counter := c);
    var end := Simple(NodeData(c, EndNode, "End"));
    var fin := AppendEnd(st0);
    assert fin == Emit(bumped, end);
    EmitGrows(bumped, end);
    assert Grows(bumped, fin, st0.counter);
    DispatchGrows(st0, bumped, fin);
  }

  /** The start node followed by what the visits appended above id 0. */
  lemma BuildAssembly(fin: State)
    requires Grows(Initial(), fin, 0)
    requires fin.statements[|fin.statements| - 1] == Simple(NodeData(fin.counter, EndNode, "End"))
    requires |fin.statements| >= 2
    ensures Increasing(Ids(fin.statements)) && InRange(Ids(fin.statements), -1, fin.counter)
    ensures fin.id2statement == Registry(fin.statements)
    ensures fin.nodeAfterWhile.Keys == WhileIds(fin.statements)
    ensures AllExitsOk(fin.statements, None, fin.nodeAfterWhile)
    ensures AllJumpsTarget(fin.statements, None) && AllReturnsTo(fin.statements, None)
    ensures fin.statements[0] == Simple(NodeData(0, StartNode, "Start"))
    ensures fin.whileNodes == [] && fin.lastNodeWhile == []
  {
    var start := Simple(NodeData(0, StartNode, "Start"));
    var added := Added(Initial(), fin);
    assert fin.statements == [start] + added;
    IdsAppend([start], added);
    IdsSingle(start);
    RegistryAppend([start], added);
    RegistrySingle(start);
    WhileIdsAppend([start], added);
    assert WhileIds([start]) == {} by { assert [start][1..] == []; }
    IncreasingAppend([0], Ids(added), 0);
    InRangeAppend([0], Ids(added), -1, 0, fin.counter);
    assert forall s :: s in [start] + added <==> s == start || s in added;
  }

  /** `__visit_Assign`: the assignment fails only for a value kind without
      a rendering branch; otherwise its label carries the target's old
      version plus one, the table then holds that version for the target
      and the same for every other name, and the node takes the id the
      visit drew. */
  lemma AssignVersioning(st: State, t: string, v: Expr)
    ensures VisitNode(st, Assign(t, v)).Ok? <==> !v.OtherExpr?
    ensures VisitNode(st, Assign(t, v)).Ok? ==>
      var r := VisitNode(st, Assign(t, v)).value;
      && Version(r.ssa, t) == Version(st.ssa, t) + 1
      && (forall x :: x != t ==> Version(r.ssa, x) == Version(st.ssa, x))
      && r.counter == st.counter + 1
      && r.statements == st.statements + [Simple(NodeData(r.counter, AssignNode,
                                             VersionedName(t, Version(r.ssa, t)) + " = " + AssignValueText(st.ssa, v).value))]
      && r.id2statement == st.id2statement[r.counter := r.statements[|st.statements|].node]
  {
  }

  /** `x = x + k`: the name on the right keeps the version it had before
      the assignment, the one on the left gets the next. */
  lemma SelfIncrementLabel(st: State, x: string, k: string)
    ensures VisitNode(st, Assign(x, BinOp(Name(x), Add, Constant(k)))).Ok?
    ensures VisitNode(st, Assign(x, BinOp(Name(x), Add, Constant(k)))).value.statements[|st.statements|].node.text
            == VersionedName(x, Version(st.ssa, x) + 1) + " = " + VersionedName(x, Version(st.ssa, x)) + " + " + k
  {
    SelfIncrementNode(st, Assign(x, BinOp(Name(x), Add, Constant(k))), x, k);
  }

  /** The same, for the node held in a variable. */
  lemma SelfIncrementNode(st: State, n: Node, x: string, k: string)
    requires n == Assign(x, BinOp(Name(x), Add, Constant(k)))
    ensures VisitNode(st, n).Ok?
    ensures VisitNode(st, n).value.statements[|st.statements|].node.text
            == VersionedName(x, Version(st.ssa, x) + 1) + " = " + VersionedName(x, Version(st.ssa, x)) + " + " + k
  {
    var st1 := st.(counter := st.counter + 1);
    var rhs := VersionedName(x, Version(st.ssa, x));
    AssignDispatch(st, n);
    IncrementText(st1.ssa, x, k);
    AssignText(st1, x, n.value, rhs + " + " + k);
    Regroup(VersionedName(x, Version(st.ssa, x) + 1), rhs, k);
  }

  /** An assignment node is visited by `__visit_Assign` under the id drawn. */
  lemma AssignDispatch(st: State, n: Node)
    requires n.Assign?
    ensures VisitNode(st, n) == VisitAssign(st.(counter := st.counter + 1), n.target, n.value)
  {
  }

  /** The value `x + k` renders with the current version of `x`. */
  lemma IncrementText(ssa: Versions, x: string, k: string)
    ensures AssignValueText(ssa, BinOp(Name(x), Add, Constant(k))) == Some(VersionedName(x, Version(ssa, x)) + " + " + k)
  {
    SpacedOperator(VersionedName(x, Version(ssa, x)), k);
  }

  /** The label of an assignment whose value renders as `text`. */
  lemma AssignText(st: State, x: string, v: Expr, text: string)
    requires AssignValueText(st.ssa, v) == Some(text)
    ensures VisitAssign(st, x, v).Ok?
    ensures VisitAssign(st, x, v).value.statements[|st.statements|].node.text
            == VersionedName(x, Version(st.ssa, x) + 1) + " = " + text
  {
  }

  /** `lhs + " " + "+" + " " + rhs` is `lhs + " + " + rhs`. */
  lemma SpacedOperator(l: string, r: string)
    ensures l + " " + "+" + " " + r == l + " + " + r
  {
    assert l + " " + "+" + " " == l + " + ";
  }

  lemma Regroup(lhs: string, rhs: string, k: string)
    ensures lhs + " = " + (rhs + " + " + k) == lhs + " = " + rhs + " + " + k
  {
    ConcatAssoc(lhs + " = ", rhs + " + ", k);
    ConcatAssoc(lhs + " = ", rhs, " + ");
  }

  lemma ConcatAssoc<T>(a: seq<T>, b: seq<T>, c: seq<T>)
    ensures a + (b + c) == a + b + c
  {
  }

  /** `visit_AugAssign` is the assignment `v = v op value`, under the
      AugAssign node's own id. */
  lemma AugAssignIsAssign(st: State, t: string, op: Operator, v: Expr)
    ensures VisitNode(st, AugAssign(t, op, v)) == VisitNode(st, Assign(t, BinOp(Name(t), op, v)))
    ensures VisitNode(st, AugAssign(t, op, v)).Ok?
  {
  }

  /** No visit lowers a version, and the table the build starts from reads
      version 0 for every name (VersionFacts says which names keep it). */
  lemma VersionsNeverDecrease(st: State, n: Node)
    ensures VisitNode(st, n).Ok? ==> forall x :: Version(st.ssa, x) <= Version(VisitNode(st, n).value.ssa, x)
    ensures forall x :: Version(Initial().ssa, x) == 0
  {
    VisitNodeExtends(st, n);
  }

  /** `break` and `continue` fail when no loop is open and otherwise name
      the innermost open loop, the top of `while_nodes`. */
  lemma JumpTargets(st: State, n: Node)
    requires n.Break? || n.Continue?
    ensures VisitNode(st, n).Err? <==> st.whileNodes == []
    ensures VisitNode(st, n).Err? ==> VisitNode(st, n).error == NoOpenLoop
    ensures VisitNode(st, n).Ok? ==>
      var r := VisitNode(st, n).value;
      && |r.statements| == |st.statements| + 1
      && var s := r.statements[|st.statements|];
         && (if n.Break? then s.BreakStatement? && s.node.nodeType == BreakNode
             else s.ContinueStatement? && s.node.nodeType == ContinueNode)
         && s.node.id == st.counter + 1
         && s.whileStatement == st.whileNodes[|st.whileNodes| - 1]
  {
  }

  /** The exit entry of a loop whose header has id `st.counter`: the
      enclosing loop's header when a loop is open and the last statement of
      its body, as written, is a `while`; otherwise the id after the last
      one handed out inside the loop. Nothing visited inside the loop
      overwrites it. */
  lemma LoopExitEntry(st: State, test: Compare, body: seq<Node>, orelse: seq<Node>,
                      forData: Option<ForAsWhileData>)
    ensures VisitCondition(st, test, body, orelse, WhileKind, forData).Ok? ==>
      var r := VisitCondition(st, test, body, orelse, WhileKind, forData).value;
      && st.counter in r.nodeAfterWhile
      && r.nodeAfterWhile[st.counter]
           == if |st.whileNodes| >= 1 && |st.lastNodeWhile| >= 1 && st.lastNodeWhile[|st.lastNodeWhile| - 1].While?
              then st.whileNodes[|st.whileNodes| - 1]
              else r.counter + 1
  {
    if VisitCondition(st, test, body, orelse, WhileKind, forData).Ok? {
      var node, r3, r4 := ConditionSteps(st, test, body, orelse, WhileKind, forData);
      var st2 := OpenCondition(st, node, WhileKind, body);
      ListKeepsStacks(st2.(statements := []), LoopBody(body, forData));
      ListKeepsStacks(r3.(statements := []), orelse);
    }
  }

  /** A `while` statement's entry; its header has the id its visit drew. */
  lemma WhileExitEntry(st: State, test: Compare, body: seq<Node>, orelse: seq<Node>)
    ensures VisitNode(st, While(test, body, orelse)).Ok? ==>
      var r := VisitNode(st, While(test, body, orelse)).value;
      && st.counter + 1 in r.nodeAfterWhile
      && r.nodeAfterWhile[st.counter + 1]
           == if |st.whileNodes| >= 1 && |st.lastNodeWhile| >= 1 && st.lastNodeWhile[|st.lastNodeWhile| - 1].While?
              then st.whileNodes[|st.whileNodes| - 1]
              else r.counter + 1
  {
    var st1 := st.(counter := st.counter + 1);
    assert VisitNode(st, While(test, body, orelse)) == VisitCondition(st1, test, body, orelse, WhileKind, None);
    LoopExitEntry(st1, test, body, orelse, None);
  }

  /** `__visit_Condition`: one statement is appended to the enclosing
      list, which is otherwise unchanged; it is an IfStatement for `if` and
      a WhileStatement for `while`, its node has type IF, the test's label
      and the id the visit drew, and is registered; every statement in its
      body and else lists has a larger id, drawn during the visit. */
  lemma ConditionNesting(st: State, n: Node)
    requires n.If? || n.While?
    ensures VisitNode(st, n).Ok? ==>
      var r := VisitNode(st, n).value;
      && |r.statements| == |st.statements| + 1
      && r.statements[..|st.statements|] == st.statements
      && var c := r.statements[|st.statements|];
         && c.IsCondition()
         && (c.WhileStatement? <==> n.While?)
         && c.node == NodeData(st.counter + 1, IfNode, CompareLabel(st.ssa, n.test))
         && c.node.id in r.id2statement && r.id2statement[c.node.id] == c.node
         && (forall k :: k in Ids(c.body) + Ids(c.orelse) ==> c.node.id < k <= r.counter)
  {
    var st1 := st.(counter := st.counter + 1);
    var kind := if n.While? then WhileKind else IfKind;
    if VisitNode(st, n).Ok? {
      assert VisitNode(st, n) == VisitCondition(st1, n.test, n.body, n.orelse, kind, None);
      var node, r3, r4 := ConditionSteps(st1, n.test, n.body, n.orelse, kind, None);
      VisitConditionGrows(st1, n.test, n.body, n.orelse, kind, None);
      var r := FinishCondition(st1, node, kind, r3, r4);
      var c := r.statements[|st.statements|];
      NestingFacts(st1, r, c);
    }
  }

  /** The one appended condition, from the step invariant. */
  lemma NestingFacts(st: State, r: State, c: Statement)
    requires Grows(st, r, st.counter - 1)
    requires c.IsCondition() && r.statements == st.statements + [c] && c.node.id == st.counter
    ensures c.node.id in r.id2statement && r.id2statement[c.node.id] == c.node
    ensures forall k :: k in Ids(c.body) + Ids(c.orelse) ==> c.node.id < k <= r.counter
  {
    assert Added(st, r) == [c];
    ConditionSingle(c);
    ChildrenAbove(c, r.counter);
    ConditionRegistered(c, st.id2statement, r.id2statement);
  }

  lemma ChildrenAbove(c: Statement, hi: int)
    requires c.IsCondition()
    requires Ids([c]) == [c.node.id] + Ids(c.body) + Ids(c.orelse)
    requires Increasing(Ids([c])) && InRange(Ids([c]), c.node.id - 1, hi)
    ensures forall k :: k in Ids(c.body) + Ids(c.orelse) ==> c.node.id < k <= hi
  {
    var rest := Ids(c.body) + Ids(c.orelse);
    var ids := Ids([c]);
    assert ids == [c.node.id] + rest;
    forall k | k in rest ensures c.node.id < k <= hi {
      var i :| 0 <= i < |rest| && rest[i] == k;
      assert ids[i + 1] == k && ids[0] == c.node.id;
    }
  }

  lemma ConditionRegistered(c: Statement, before: map<int, NodeData>, after: map<int, NodeData>)
    requires c.IsCondition()
    requires after == before + Registry([c])
    requires Registry([c]) == map[c.node.id := c.node] + Registry(c.body) + Registry(c.orelse)
    requires forall k :: k in Ids(c.body) + Ids(c.orelse) ==> c.node.id < k
    ensures c.node.id in after && after[c.node.id] == c.node
  {
    var rest := Ids(c.body) + Ids(c.orelse);
    RegistryKeysAreIds(c.body);
    RegistryKeysAreIds(c.orelse);
    forall k | k in Registry(c.body) ensures c.node.id < k {
      assert k in rest;
    }
    forall k | k in Registry(c.orelse) ensures c.node.id < k {
      assert k in rest;
    }
  }

  /** The parameter loop of `visit_FunctionDef`: each parameter's version
      goes up by one per occurrence among the first k parameters, every
      other version is unchanged. */
  lemma {:induction false} BumpParamsVersions(ssa: Versions, params: seq<string>, k: nat)
    requires k <= |params|
    ensures forall x :: Version(BumpParams(ssa, params, k).0, x) == Version(ssa, x) + multiset(params[..k])[x]
  {
    if k > 0 {
      BumpParamsVersions(ssa, params, k - 1);
      assert params[..k] == params[..k - 1] + [params[k - 1]];
    }
  }

  /** The intermediate results of a successful function definition. */
  lemma FunctionSteps(st: State, name: string, params: seq<string>, body: seq<Node>) returns (b: State, p: seq<Statement>)
    requires VisitFunctionDef(st, name, params, body).Ok?
    ensures
      var (ssa1, argsText) := BumpParams(st.ssa, params, |params|);
      var fname := name + "(" + argsText + ")";
      var end := NodeData(b.counter + 1, FunctionEndNode, "End of " + fname);
      && VisitList(st.(ssa := ssa1, statements := []), body) == Ok(b)
      && SetEndToReturnAll(b.statements + [Simple(end)], b.counter + 1) == Ok(p)
      && VisitFunctionDef(st, name, params, body)
         == Ok(b.(counter := b.counter + 1,
                  statements := st.statements + [FunctionStatement(NodeData(st.counter, FunctionDefNode, "def " + fname), p)],
                  id2statement := b.id2statement[b.counter + 1 := end]))
  {
    var (ssa1, argsText) := BumpParams(st.ssa, params, |params|);
    var fname := name + "(" + argsText + ")";
    b := VisitList(st.(ssa := ssa1, statements := []), body).value;
    var end := NodeData(b.counter + 1, FunctionEndNode, "End of " + fname);
    p := SetEndToReturnAll(b.statements + [Simple(end)], b.counter + 1).value;
  }

  /** `visit_FunctionDef`: one FunctionStatement is appended to the
      enclosing list; its node has the id the visit drew and the label
      `def name(p.k, ...)`, and is not registered; its body ends in the
      end node `End of name(...)`, whose id is the last one drawn and which
      is registered; every `return` anywhere in the body points at the end
      node; the body's ids lie between the two. */
  lemma FunctionBoundaries(st: State, name: string, params: seq<string>, body: seq<Node>)
    ensures VisitNode(st, FunctionDef(name, params, body)).Ok? ==>
      var r := VisitNode(st, FunctionDef(name, params, body)).value;
      var fname := name + "(" + BumpParams(st.ssa, params, |params|).1 + ")";
      && |r.statements| == |st.statements| + 1
      && r.statements[..|st.statements|] == st.statements
      && var f := r.statements[|st.statements|];
         && f.FunctionStatement?
         && f.node == NodeData(st.counter + 1, FunctionDefNode, "def " + fname)
         && |f.body| > 0
         && f.body[|f.body| - 1] == Simple(NodeData(r.counter, FunctionEndNode, "End of " + fname))
         && AllReturnsTo(f.body, Some(r.counter))
         && r.id2statement == st.id2statement + Registry(f.body)
         && f.node.id !in Registry(f.body)
         && r.counter in r.id2statement
         && (forall k :: k in Ids(f.body) ==> f.node.id < k <= r.counter)
  {
    var st1 := st.(counter := st.counter + 1);
    if VisitNode(st, FunctionDef(name, params, body)).Ok? {
      var b, p := FunctionSteps(st1, name, params, body);
      var (ssa1, argsText) := BumpParams(st1.ssa, params, |params|);
      var fname := name + "(" + argsText + ")";
      var end := NodeData(b.counter + 1, FunctionEndNode, "End of " + fname);
      VisitListExtends(st1.(ssa := ssa1, statements := []), body);
      assert Added(st1.(ssa := ssa1, statements := []), b) == b.statements;
      PatchFacts(b.statements, end, p, Top(st1.whileNodes), b.nodeAfterWhile);
      VisitFunctionDefGrows(st1, name, params, body);
      var f := FunctionStatement(NodeData(st1.counter, FunctionDefNode, "def " + fname), p);
      var r := VisitNode(st, FunctionDef(name, params, body)).value;
      assert r.statements == st.statements + [f];
      FunctionFacts(st1, r, f);
    }
  }

  /** The one appended function statement, from the step invariant. */
  lemma FunctionFacts(st: State, r: State, f: Statement)
    requires Grows(st, r, st.counter - 1)
    requires f.FunctionStatement? && r.statements == st.statements + [f] && f.node.id == st.counter
    ensures r.id2statement == st.id2statement + Registry(f.body)
    ensures f.node.id !in Registry(f.body)
    ensures forall k :: k in Ids(f.body) ==> f.node.id < k <= r.counter
  {
    assert Added(st, r) == [f];
    FunctionSingle(f);
    var ids := Ids([f]);
    forall k | k in Ids(f.body) ensures f.node.id < k <= r.counter {
      var i :| 0 <= i < |Ids(f.body)| && Ids(f.body)[i] == k;
      assert ids[i + 1] == k && ids[0] == f.node.id;
    }
    RegistryKeysAreIds(f.body);
  }

  /** A visit of a concatenation is the visit of its first part followed by
      the visit of its second. */
  lemma {:induction false} VisitListSplit(st: State, a: seq<Node>, c: seq<Node>)
    ensures VisitList(st, a + c) == match VisitList(st, a) case Ok(s) => VisitList(s, c) case Err(e) => Err(e)
    decreases |a|
  {
    if a == [] {
      assert a + c == c;
    } else {
      assert (a + c)[0] == a[0];
      assert (a + c)[1..] == a[1..] + c;
      var r1 := VisitNode(st, a[0]);
      if r1.Ok? {
        VisitListSplit(r1.value, a[1..], c);
      }
    }
  }

  /** A function definition directly in a function body makes the outer
      definition fail: the outer return walk meets a function statement
      (it has no else branch to walk). */
  lemma NestedDefinitionFails(st: State, name: string, params: seq<string>, body: seq<Node>, i: nat)
    requires i < |body| && body[i].FunctionDef?
    ensures VisitNode(st, FunctionDef(name, params, body)).Err?
  {
    var st1 := st.(counter := st.counter + 1);
    var (ssa1, argsText) := BumpParams(st1.ssa, params, |params|);
    var in1 := st1.(ssa := ssa1, statements := []);
    var rb := VisitList(in1, body);
    if rb.Ok? {
      var fs := ContainsDefinition(in1, body, i);
      var fname := name + "(" + argsText + ")";
      var end := NodeData(rb.value.counter + 1, FunctionEndNode, "End of " + fname);
      var full := rb.value.statements + [Simple(end)];
      assert fs in full;
      SetEndToReturnAllSpec(full, rb.value.counter + 1);
    }
  }

  /** A list whose element i is a function definition, visited from an
      empty list, yields a function statement. */
  lemma ContainsDefinition(st: State, ns: seq<Node>, i: nat) returns (f: Statement)
    requires i < |ns| && ns[i].FunctionDef? && VisitList(st, ns).Ok?
    ensures f.FunctionStatement? && f in VisitList(st, ns).value.statements
  {
    assert ns == ns[..i] + ([ns[i]] + ns[i + 1..]);
    VisitListSplit(st, ns[..i], [ns[i]] + ns[i + 1..]);
    var s1 := VisitList(st, ns[..i]).value;
    VisitListSplit(s1, [ns[i]], ns[i + 1..]);
    assert VisitList(s1, [ns[i]]) == VisitNode(s1, ns[i]) by {
      var r := VisitNode(s1, ns[i]);
      if r.Ok? {
        assert VisitList(r.value, []) == Ok(r.value);
      }
      assert [ns[i]][0] == ns[i] && [ns[i]][1..] == [];
    }
    var s2 := VisitNode(s1, ns[i]).value;
    FunctionBoundaries(s1, ns[i].name, ns[i].params, ns[i].body);
    f := s2.statements[|s1.statements|];
    VisitListExtends(s2, ns[i + 1..]);
    var s3 := VisitList(s2, ns[i + 1..]).value;
    assert s3.statements[..|s2.statements|] == s2.statements;
    assert s3.statements[|s1.statements|] == f;
  }
}
