// What visit_For leaves behind for every body: the range arity error,
// the init assignment under the `for` node's id, the loop header under the
// next id and the increment last in the loop body. And the one place where
// it parts from its `while` rewriting: a `while` that ends the body exits
// to the `for` loop's header, where in the rewriting it does not.
module ForLayout {
  import opened Wrappers
  import opened Ast
  import opened Statements
  import opened Labels
  import opened Traversal
  import opened TraversalFacts
  import opened VisitFacts
  import opened BuildFacts
  import opened ForFacts

  /** The label of `x = x + k` when `x` had version `m`. */
  function IncrementLabel(x: string, m: nat, k: string): string
  {
    VersionedName(x, m + 1) + " = " + VersionedName(x, m) + " + " + k
  }

  /** A loop body that ends in `t = t + step`, reading version `lo` of `t`
      or a later one. */
  ghost predicate EndsInIncrement(ss: seq<Statement>, t: string, lo: nat, step: string)
  {
    && |ss| > 0
    && ss[|ss| - 1].Simple?
    && ss[|ss| - 1].node.nodeType == AssignNode
    && exists m: nat :: m >= lo && ss[|ss| - 1].node.text == IncrementLabel(t, m, step)
  }

  /** What a `for` loop over `range` leaves after `st`: exactly two more
      statements, `t = start` under the id after `st.counter`, then the loop
      `t < stop` under the next id, testing the version the init assignment
      made, whose body ends in the increment. */
  ghost predicate LaidOutAsFor(st: State, r: State, t: string, bounds: RangeBounds)
  {
    var v := Version(st.ssa, t) + 1;
    && |r.statements| == |st.statements| + 2
    && r.statements[..|st.statements|] == st.statements
    && r.statements[|st.statements|] == Simple(NodeData(st.counter + 1, AssignNode, VersionedName(t, v) + " = " + bounds.start))
    && var loop := r.statements[|st.statements| + 1];
       && loop.WhileStatement?
       && loop.node == NodeData(st.counter + 2, IfNode, CompareLabel(st.ssa[t := v], Compare(Name(t), Lt, Constant(bounds.stop))))
       && EndsInIncrement(loop.body, t, v, bounds.step)
  }

  /** `visit_For` on any body: a `range` call with other than one to three
      arguments fails, an empty body fails, and a successful visit is laid
      out as above. */
  lemma ForLayoutAll(st: State, n: Node)
    requires n.For?
    ensures RangeArguments(st.ssa, n.rangeArgs).Err? ==> VisitNode(st, n) == Err(MalformedRange(|n.rangeArgs|))
    ensures RangeArguments(st.ssa, n.rangeArgs).Ok? && n.body == [] ==> VisitNode(st, n) == Err(EmptyLoopBody)
    ensures VisitNode(st, n).Ok? ==>
      && RangeArguments(st.ssa, n.rangeArgs).Ok?
      && LaidOutAsFor(st, VisitNode(st, n).value, n.target, RangeArguments(st.ssa, n.rangeArgs).value)
  {
    var st1 := st.(counter := st.counter + 1);
    ForDispatch(st, n);
    ForSteps(st1, n.target, n.rangeArgs, n.body, n.orelse);
    var bounds := RangeArguments(st.ssa, n.rangeArgs);
    if bounds.Ok? && VisitNode(st, n).Ok? {
      var fd := ForAsWhileData(n.target, bounds.value.step);
      var test := Compare(Name(n.target), Lt, Constant(bounds.value.stop));
      var s2 := InitStep(st1, n.target, bounds.value);
      var r := VisitNode(st, n).value;
      ForLoopLayout(s2, test, n.body, n.orelse, fd, r);
      ForFromLoop(st, s2, r, n.target, bounds.value);
    }
  }

  /** A `for` node is visited by `visit_For` under the id drawn. */
  lemma ForDispatch(st: State, n: Node)
    requires n.For?
    ensures VisitNode(st, n) == VisitFor(st.(counter := st.counter + 1), n.target, n.rangeArgs, n.body, n.orelse)
  {
  }

  /** The state after `t = start` under the id `st.counter`, once the loop
      header has drawn the next id. */
  function InitStep(st: State, t: string, bounds: RangeBounds): State
  {
    var v := Version(st.ssa, t) + 1;
    var init := Simple(NodeData(st.counter, AssignNode, VersionedName(t, v) + " = " + bounds.start));
    Emit(st.(ssa := st.ssa[t := v]), init).(counter := st.counter + 1)
  }

  /** `visit_For`'s steps before the loop: the bounds, then the init
      assignment; a malformed `range` call fails. */
  lemma ForSteps(st: State, t: string, args: seq<Expr>, body: seq<Node>, orelse: seq<Node>)
    ensures RangeArguments(st.ssa, args).Err? ==> VisitFor(st, t, args, body, orelse) == Err(MalformedRange(|args|))
    ensures RangeArguments(st.ssa, args).Ok? ==>
      var bounds := RangeArguments(st.ssa, args).value;
      VisitFor(st, t, args, body, orelse)
        == VisitCondition(InitStep(st, t, bounds), Compare(Name(t), Lt, Constant(bounds.stop)), body, orelse,
                          WhileKind, Some(ForAsWhileData(t, bounds.step)))
  {
  }

  /** The loop part of `visit_For`: one loop statement appended under the
      id drawn, testing the versions current then, with the increment last
      in its body. */
  lemma ForLoopLayout(s2: State, test: Compare, body: seq<Node>, orelse: seq<Node>, fd: ForAsWhileData, r: State)
    requires VisitCondition(s2, test, body, orelse, WhileKind, Some(fd)) == Ok(r)
    ensures |r.statements| == |s2.statements| + 1
    ensures r.statements[..|s2.statements|] == s2.statements
    ensures var loop := r.statements[|s2.statements|];
      && loop.WhileStatement?
      && loop.node == NodeData(s2.counter, IfNode, CompareLabel(s2.ssa, test))
      && EndsInIncrement(loop.body, fd.variable, Version(s2.ssa, fd.variable), fd.step)
  {
    var node, r3, r4 := ConditionSteps(s2, test, body, orelse, WhileKind, Some(fd));
    var open := OpenCondition(s2, node, WhileKind, body);
    var m := IncrementLast(open.(statements := []), body, fd);
    assert r.statements == s2.statements + [WhileStatement(node, r3.statements, r4.statements)];
  }

  /** The loop's facts, read back from the state before the `for` node. */
  lemma ForFromLoop(st: State, s2: State, r: State, t: string, bounds: RangeBounds)
    requires s2 == InitStep(st.(counter := st.counter + 1), t, bounds)
    requires |r.statements| == |s2.statements| + 1
    requires r.statements[..|s2.statements|] == s2.statements
    requires var loop := r.statements[|s2.statements|];
      && loop.WhileStatement?
      && loop.node == NodeData(s2.counter, IfNode, CompareLabel(s2.ssa, Compare(Name(t), Lt, Constant(bounds.stop))))
      && EndsInIncrement(loop.body, t, Version(s2.ssa, t), bounds.step)
    ensures LaidOutAsFor(st, r, t, bounds)
  {
    assert r.statements[..|st.statements|] == s2.statements[..|st.statements|];
  }

  /** The last statement of a `for` body's visit is its increment, under
      the last id drawn, reading a version `m` of the loop variable no older
      than the one it had when the body began. */
  lemma IncrementLast(s: State, body: seq<Node>, fd: ForAsWhileData) returns (m: nat)
    requires VisitList(s, body + [IncrementNode(fd)]).Ok?
    ensures var r := VisitList(s, body + [IncrementNode(fd)]).value;
      && |r.statements| > |s.statements|
      && r.statements[|r.statements| - 1] == Simple(NodeData(r.counter, AssignNode, IncrementLabel(fd.variable, m, fd.step)))
      && m >= Version(s.ssa, fd.variable)
  {
    var inc := IncrementNode(fd);
    VisitListSplit(s, body, [inc]);
    var s1 := VisitList(s, body).value;
    VisitListExtends(s, body);
    m := Version(s1.ssa, fd.variable);
    SelfIncrementNode(s1, inc, fd.variable, fd.step);
    AssignDispatch(s1, inc);
    var s2 := VisitNode(s1, inc).value;
    assert [inc][1..] == [];
    assert VisitList(s1, [inc]) == Ok(s2);
    assert s2.statements == s1.statements + [s2.statements[|s1.statements|]];
  }

  /** The `i`-th statement of `r` is a loop whose body has a `while` W
      second to last, and W has an exit entry. */
  predicate InnerLoopAt(r: State, i: int)
  {
    && 0 <= i < |r.statements|
    && r.statements[i].WhileStatement?
    && |r.statements[i].body| >= 2
    && r.statements[i].body[|r.statements[i].body| - 2].WhileStatement?
    && r.statements[i].body[|r.statements[i].body| - 2].node.id in r.nodeAfterWhile
  }

  /** W's header id. */
  function InnerLoopId(r: State, i: int): int
    requires InnerLoopAt(r, i)
  {
    r.statements[i].body[|r.statements[i].body| - 2].node.id
  }

  /** W's exit entry. */
  function InnerExit(r: State, i: int): int
    requires InnerLoopAt(r, i)
  {
    r.nodeAfterWhile[InnerLoopId(r, i)]
  }

  /** `visit_For` with a body that ends in a `while` W, and its rewriting:
      both append two statements and put W second to last in the loop's
      body, but the `for` loop records W itself as its last body statement,
      so W's exit entry is the `for` loop's header, while the rewriting
      records the increment and W's entry lies beyond W. */
  lemma ForBodyEndingInWhile(st: State, n: Node)
    requires n.For? && n.body != [] && n.body[|n.body| - 1].While?
    ensures VisitNode(st, n).Ok? ==>
      var r := VisitNode(st, n).value;
      && |r.statements| == |st.statements| + 2
      && InnerLoopAt(r, |st.statements| + 1)
      && InnerExit(r, |st.statements| + 1) == r.statements[|st.statements| + 1].node.id
    ensures RangeArguments(st.ssa, n.rangeArgs).Ok? && VisitList(st, ForAsWhile(n.target, RangeArguments(st.ssa, n.rangeArgs).value, n.body, n.orelse)).Ok? ==>
      var r := VisitList(st, ForAsWhile(n.target, RangeArguments(st.ssa, n.rangeArgs).value, n.body, n.orelse)).value;
      && |r.statements| == |st.statements| + 2
      && InnerLoopAt(r, |st.statements| + 1)
      && InnerExit(r, |st.statements| + 1) != r.statements[|st.statements| + 1].node.id
  {
    ForExitsToHeader(st, n);
    RewriteExitsBeyond(st, n);
  }

  /** The `for` half: W records the loop's header. */
  lemma ForExitsToHeader(st: State, n: Node)
    requires n.For? && n.body != [] && n.body[|n.body| - 1].While?
    ensures VisitNode(st, n).Ok? ==>
      var r := VisitNode(st, n).value;
      && |r.statements| == |st.statements| + 2
      && InnerLoopAt(r, |st.statements| + 1)
      && InnerExit(r, |st.statements| + 1) == r.statements[|st.statements| + 1].node.id
  {
    var st1 := st.(counter := st.counter + 1);
    ForDispatch(st, n);
    ForSteps(st1, n.target, n.rangeArgs, n.body, n.orelse);
    var bounds := RangeArguments(st.ssa, n.rangeArgs);
    if bounds.Ok? {
      var fd := ForAsWhileData(n.target, bounds.value.step);
      var test := Compare(Name(n.target), Lt, Constant(bounds.value.stop));
      var s2 := InitStep(st1, n.target, bounds.value);
      assert |s2.statements| == |st.statements| + 1;
      var r := VisitCondition(s2, test, n.body, n.orelse, WhileKind, Some(fd));
      if r.Ok? {
        LoopEndsInWhile(s2, test, n.body, n.orelse, Some(fd), r.value);
      }
    }
  }

  /** The rewriting half: W's entry lies beyond W, past the loop's header. */
  lemma RewriteExitsBeyond(st: State, n: Node)
    requires n.For? && n.body != [] && n.body[|n.body| - 1].While?
    ensures RangeArguments(st.ssa, n.rangeArgs).Ok? && VisitList(st, ForAsWhile(n.target, RangeArguments(st.ssa, n.rangeArgs).value, n.body, n.orelse)).Ok? ==>
      var r := VisitList(st, ForAsWhile(n.target, RangeArguments(st.ssa, n.rangeArgs).value, n.body, n.orelse)).value;
      && |r.statements| == |st.statements| + 2
      && InnerLoopAt(r, |st.statements| + 1)
      && InnerExit(r, |st.statements| + 1) != r.statements[|st.statements| + 1].node.id
  {
    var bounds := RangeArguments(st.ssa, n.rangeArgs);
    if bounds.Ok? {
      var fd := ForAsWhileData(n.target, bounds.value.step);
      var test := Compare(Name(n.target), Lt, Constant(bounds.value.stop));
      var s2 := InitStep(st.(counter := st.counter + 1), n.target, bounds.value);
      assert |s2.statements| == |st.statements| + 1;
      RewriteSteps(st, n.target, bounds.value, n.body, n.orelse);
      var r := VisitCondition(s2, test, n.body + [IncrementNode(fd)], n.orelse, WhileKind, None);
      if r.Ok? {
        LoopEndsInWhile(s2, test, n.body + [IncrementNode(fd)], n.orelse, None, r.value);
      }
    }
  }

  /** The rewriting's two steps reach the same state before its `while`. */
  lemma RewriteSteps(st: State, t: string, bounds: RangeBounds, body: seq<Node>, orelse: seq<Node>)
    ensures VisitList(st, ForAsWhile(t, bounds, body, orelse))
            == VisitCondition(InitStep(st.(counter := st.counter + 1), t, bounds), Compare(Name(t), Lt, Constant(bounds.stop)),
                              body + [IncrementNode(ForAsWhileData(t, bounds.step))], orelse, WhileKind, None)
  {
    var ns := ForAsWhile(t, bounds, body, orelse);
    assert ns == [ns[0], ns[1]];
    PairVisit(st, ns[0], ns[1]);
    AssignDispatch(st, ns[0]);
    var a := VisitNode(st, ns[0]);
    assert a.Ok?;
    assert a.value.(counter := a.value.counter + 1) == InitStep(st.(counter := st.counter + 1), t, bounds);
    WhileDispatch(a.value, ns[1]);
  }

  /** A `while` node is visited by `__visit_Condition` under the id drawn. */
  lemma WhileDispatch(st: State, n: Node)
    requires n.While?
    ensures VisitNode(st, n) == VisitCondition(st.(counter := st.counter + 1), n.test, n.body, n.orelse, WhileKind, None)
  {
  }

  /** A loop whose visited body ends in a `while` W and then an assignment:
      W sits second to last in the loop's body; its exit entry is the loop's
      own header when the last statement of the body as written is a
      `while`, and lies beyond W otherwise. */
  lemma LoopEndsInWhile(st: State, test: Compare, body: seq<Node>, orelse: seq<Node>, forData: Option<ForAsWhileData>, r: State)
    requires body != []
    requires |LoopBody(body, forData)| >= 2
    requires LoopBody(body, forData)[|LoopBody(body, forData)| - 2].While?
    requires LoopBody(body, forData)[|LoopBody(body, forData)| - 1].Assign?
    requires VisitCondition(st, test, body, orelse, WhileKind, forData) == Ok(r)
    ensures |r.statements| == |st.statements| + 1
    ensures InnerLoopAt(r, |st.statements|)
    ensures r.statements[|st.statements|].node.id == st.counter < InnerLoopId(r, |st.statements|)
    ensures body[|body| - 1].While? ==> InnerExit(r, |st.statements|) == st.counter
    ensures !body[|body| - 1].While? ==> InnerExit(r, |st.statements|) > InnerLoopId(r, |st.statements|)
  {
    var node, r3, r4 := ConditionSteps(st, test, body, orelse, WhileKind, forData);
    var s0 := OpenCondition(st, node, WhileKind, body).(statements := []);
    var lb := LoopBody(body, forData);
    var k := |lb|;
    assert lb == lb[..k - 2] + [lb[k - 2], lb[k - 1]];
    TailLoopEntry(s0, lb[..k - 2], lb[k - 2], lb[k - 1], r3);
    var w := r3.statements[|r3.statements| - 2];
    ElseKeepsEntry(r3, orelse, r4, w.node.id);
    CloseKeepsInnerEntry(st, node, r3, r4, body[|body| - 1].While?);
  }

  /** Visiting the else branch leaves the exit entry of a loop already
      visited (its id no larger than the counter) alone. */
  lemma ElseKeepsEntry(r3: State, orelse: seq<Node>, r4: State, id: int)
    requires VisitList(r3.(statements := []), orelse) == Ok(r4)
    requires id <= r3.counter && id in r3.nodeAfterWhile
    ensures id in r4.nodeAfterWhile && r4.nodeAfterWhile[id] == r3.nodeAfterWhile[id]
  {
    var r3' := r3.(statements := []);
    VisitListExtends(r3', orelse);
    assert Added(r3', r4) == r4.statements;
    WhileIdsAreIds(r4.statements);
    forall j | j in WhileIds(r4.statements)
      ensures j > r3.counter
    {
      var i :| 0 <= i < |Ids(r4.statements)| && Ids(r4.statements)[i] == j;
    }
  }

  /** Closing the loop writes its own header's entry only. */
  lemma CloseKeepsInnerEntry(st: State, node: NodeData, r3: State, r4: State, tailWhile: bool)
    requires node.id == st.counter
    requires |r3.statements| >= 2
    requires var w := r3.statements[|r3.statements| - 2];
      && w.WhileStatement? && st.counter < w.node.id && w.node.id in r4.nodeAfterWhile
      && (tailWhile ==> r4.nodeAfterWhile[w.node.id] == st.counter)
      && (!tailWhile ==> r4.nodeAfterWhile[w.node.id] > w.node.id)
    ensures var r := FinishCondition(st, node, WhileKind, r3, r4);
      && |r.statements| == |st.statements| + 1
      && InnerLoopAt(r, |st.statements|)
      && r.statements[|st.statements|].node.id == st.counter < InnerLoopId(r, |st.statements|)
      && (tailWhile ==> InnerExit(r, |st.statements|) == st.counter)
      && (!tailWhile ==> InnerExit(r, |st.statements|) > InnerLoopId(r, |st.statements|))
  {
  }

  /** A list ending in a `while` W and then an assignment, visited inside
      an open loop: W is the second to last statement, its id lies above the
      counter the list started from, and its exit entry is the open loop's
      header when that loop's last body statement is a `while`, and lies
      beyond W otherwise. */
  lemma TailLoopEntry(s: State, pre: seq<Node>, wn: Node, inc: Node, r: State)
    requires wn.While? && inc.Assign?
    requires |s.whileNodes| >= 1 && |s.lastNodeWhile| >= 1
    requires VisitList(s, pre + [wn, inc]) == Ok(r)
    ensures |r.statements| >= |s.statements| + 2
    ensures var w := r.statements[|r.statements| - 2];
      && w.WhileStatement? && s.counter < w.node.id <= r.counter && w.node.id in r.nodeAfterWhile
      && (s.lastNodeWhile[|s.lastNodeWhile| - 1].While? ==> r.nodeAfterWhile[w.node.id] == s.whileNodes[|s.whileNodes| - 1])
      && (!s.lastNodeWhile[|s.lastNodeWhile| - 1].While? ==> r.nodeAfterWhile[w.node.id] > w.node.id)
  {
    VisitListSplit(s, pre, [wn, inc]);
    var s1 := VisitList(s, pre).value;
    ListBasics(s, pre);
    PairVisit(s1, wn, inc);
    var s2 := VisitNode(s1, wn).value;
    LastLoopEntry(s1, wn);
    AssignKeepsExits(s2, inc);
    TailStates(s, s1, s2, r);
  }

  /** The same, on the states the three steps pass through. */
  lemma TailStates(s: State, s1: State, s2: State, r: State)
    requires s.counter <= s1.counter && |s.statements| <= |s1.statements|
    requires s1.whileNodes == s.whileNodes && s1.lastNodeWhile == s.lastNodeWhile
    requires |s1.whileNodes| >= 1 && |s1.lastNodeWhile| >= 1
    requires |s2.statements| == |s1.statements| + 1
    requires var w := s2.statements[|s1.statements|];
      && w.WhileStatement? && w.node.id == s1.counter + 1 <= s2.counter && w.node.id in s2.nodeAfterWhile
      && s2.nodeAfterWhile[w.node.id]
           == if s1.lastNodeWhile[|s1.lastNodeWhile| - 1].While? then s1.whileNodes[|s1.whileNodes| - 1] else s2.counter + 1
    requires |r.statements| == |s2.statements| + 1 && r.statements[..|s2.statements|] == s2.statements
    requires r.nodeAfterWhile == s2.nodeAfterWhile && r.counter == s2.counter + 1
    ensures |r.statements| >= |s.statements| + 2
    ensures var w := r.statements[|r.statements| - 2];
      && w.WhileStatement? && s.counter < w.node.id <= r.counter && w.node.id in r.nodeAfterWhile
      && (s.lastNodeWhile[|s.lastNodeWhile| - 1].While? ==> r.nodeAfterWhile[w.node.id] == s.whileNodes[|s.whileNodes| - 1])
      && (!s.lastNodeWhile[|s.lastNodeWhile| - 1].While? ==> r.nodeAfterWhile[w.node.id] > w.node.id)
  {
    assert r.statements[|r.statements| - 2] == s2.statements[|s1.statements|];
  }

  /** A list of two nodes is visited one node after the other. */
  lemma PairVisit(s: State, a: Node, b: Node)
    ensures VisitList(s, [a, b]) == if VisitNode(s, a).Ok? then VisitNode(VisitNode(s, a).value, b) else Err(VisitNode(s, a).error)
  {
    assert [a, b][0] == a && [a, b][1..] == [b];
    assert [b][0] == b && [b][1..] == [];
    if VisitNode(s, a).Ok? {
      var s2 := VisitNode(s, a).value;
      assert VisitList(s, [a, b]) == VisitList(s2, [b]);
      if VisitNode(s2, b).Ok? {
        assert VisitList(s2, [b]) == VisitList(VisitNode(s2, b).value, []);
      }
    }
  }

  /** A list's visit: the counter does not go back, statements are only
      appended and both loop stacks are as they were. */
  lemma ListBasics(s: State, ns: seq<Node>)
    requires VisitList(s, ns).Ok?
    ensures var r := VisitList(s, ns).value;
      && s.counter <= r.counter && |s.statements| <= |r.statements|
      && r.whileNodes == s.whileNodes && r.lastNodeWhile == s.lastNodeWhile
  {
    VisitListExtends(s, ns);
  }

  /** A `while` statement's visit: one loop statement appended, under the
      id drawn, with its exit entry. */
  lemma LastLoopEntry(s: State, wn: Node)
    requires wn.While?
    requires VisitNode(s, wn).Ok?
    ensures var r := VisitNode(s, wn).value;
      && |r.statements| == |s.statements| + 1
      && var w := r.statements[|s.statements|];
         && w.WhileStatement? && w.node.id == s.counter + 1 <= r.counter && w.node.id in r.nodeAfterWhile
         && r.nodeAfterWhile[w.node.id]
              == if |s.whileNodes| >= 1 && |s.lastNodeWhile| >= 1 && s.lastNodeWhile[|s.lastNodeWhile| - 1].While?
                 then s.whileNodes[|s.whileNodes| - 1]
                 else r.counter + 1
  {
    WhileExitEntry(s, wn.test, wn.body, wn.orelse);
    ConditionNesting(s, wn);
    VisitNodeGrows(s, wn);
  }

  /** An assignment's visit appends one statement and leaves the exit
      table alone. */
  lemma AssignKeepsExits(s: State, n: Node)
    requires n.Assign?
    requires VisitNode(s, n).Ok?
    ensures var r := VisitNode(s, n).value;
      && |r.statements| == |s.statements| + 1 && r.statements[..|s.statements|] == s.statements
      && r.nodeAfterWhile == s.nodeAfterWhile && r.counter == s.counter + 1
  {
    AssignDispatch(s, n);
  }
}
