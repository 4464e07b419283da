// The `for` loop of visit_For is the `while` loop it is rewritten to.
// The one difference between the two visits is the node a loop records as
// its last body statement; only whether that node is a `while` is ever
// read, which the first half of this module proves.
module ForFacts {
  import opened Wrappers
  import opened Ast
  import opened Statements
  import opened Labels
  import opened Traversal
  import opened VisitFacts

  /** Two `last_node_while` stacks that no exit decision can tell apart. */
  predicate SameShape(a: seq<Node>, b: seq<Node>)
  {
    |a| == |b| && forall i :: 0 <= i < |a| ==> a[i].While? == b[i].While?
  }

  /** A visit's result with the given `last_node_while` stack. */
  function WithTails(r: Result<State, BuildError>, tails: seq<Node>): Result<State, BuildError>
  {
    if r.Ok? then Ok(r.value.(lastNodeWhile := tails)) else r
  }

  /** Visiting with a stack of the same shape gives the same result, up
      to the stack itself, which every visit leaves as it found it. */
  lemma {:induction false} NodeShape(st: State, tails: seq<Node>, n: Node)
    requires SameShape(st.lastNodeWhile, tails)
    ensures VisitNode(st.(lastNodeWhile := tails), n) == WithTails(VisitNode(st, n), tails)
    decreases NodeSize(n), 3
  {
    var st1 := st.(counter := st.counter + 1);
    var st1' := st1.(lastNodeWhile := tails);
    assert st.(lastNodeWhile := tails).(counter := st.counter + 1) == st1';
    match n
    case If(test, body, orelse) => ConditionShape(st1, tails, test, body, orelse, IfKind, None);
    case While(test, body, orelse) => ConditionShape(st1, tails, test, body, orelse, WhileKind, None);
    case For(t, args, body, orelse) => ForShape(st1, tails, t, args, body, orelse);
    case FunctionDef(name, params, body) => FunctionDefShape(st1, tails, name, params, body);
    case Generic(children) => ListShape(st1, tails, children);
    case _ =>
  }

  lemma {:induction false} ListShape(st: State, tails: seq<Node>, ns: seq<Node>)
    requires SameShape(st.lastNodeWhile, tails)
    ensures VisitList(st.(lastNodeWhile := tails), ns) == WithTails(VisitList(st, ns), tails)
    decreases ListSize(ns), 0
  {
    if ns != [] {
      NodeShape(st, tails, ns[0]);
      var r1 := VisitNode(st, ns[0]);
      if r1.Ok? {
        VisitNodeExtends(st, ns[0]);
        assert r1.value.lastNodeWhile == st.lastNodeWhile;
        ListShape(r1.value, tails, ns[1..]);
      }
    }
  }

  lemma {:induction false} ConditionShape(st: State, tails: seq<Node>, test: Compare, body: seq<Node>, orelse: seq<Node>,
                                          kind: ConditionKind, forData: Option<ForAsWhileData>)
    requires SameShape(st.lastNodeWhile, tails)
    ensures VisitCondition(st.(lastNodeWhile := tails), test, body, orelse, kind, forData)
            == WithTails(VisitCondition(st, test, body, orelse, kind, forData), tails)
    decreases ListSize(body) + ListSize(orelse) + (if forData.Some? then 2 else 0), 1
  {
    var st' := st.(lastNodeWhile := tails);
    var node := NodeData(st.counter, IfNode, CompareLabel(st.ssa, test));
    if !(kind == WhileKind && body == []) {
      var st2 := OpenCondition(st, node, kind, body);
      var tails2 := if kind == WhileKind then tails + [LoopTail(body)] else tails;
      assert OpenCondition(st', node, kind, body) == st2.(lastNodeWhile := tails2);
      assert SameShape(st2.lastNodeWhile, tails2);
      var loopBody := LoopBody(body, forData);
      LoopBodySize(body, forData);
      ListShape(st2.(statements := []), tails2, loopBody);
      assert st2.(lastNodeWhile := tails2).(statements := []) == st2.(statements := []).(lastNodeWhile := tails2);
      var r3 := VisitList(st2.(statements := []), loopBody);
      if r3.Ok? {
        ListKeepsStacks(st2.(statements := []), loopBody);
        ListShape(r3.value.(statements := []), tails2, orelse);
        assert r3.value.(lastNodeWhile := tails2).(statements := []) == r3.value.(statements := []).(lastNodeWhile := tails2);
        var r4 := VisitList(r3.value.(statements := []), orelse);
        if r4.Ok? {
          ListKeepsStacks(r3.value.(statements := []), orelse);
          FinishShape(st, tails, node, kind, r3.value, r4.value, tails2);
        }
      }
    }
  }

  /** Closing a condition: the exit entry reads only the shape. */
  lemma FinishShape(st: State, tails: seq<Node>, node: NodeData, kind: ConditionKind, r3: State, r4: State, tails2: seq<Node>)
    requires SameShape(st.lastNodeWhile, tails)
    requires SameShape(r4.lastNodeWhile, tails2)
    requires kind == WhileKind ==> |tails2| == |tails| + 1 && tails2[..|tails|] == tails
                                   && |r4.lastNodeWhile| == |st.lastNodeWhile| + 1
                                   && r4.lastNodeWhile[..|st.lastNodeWhile|] == st.lastNodeWhile
    requires kind == IfKind ==> tails2 == tails && r4.lastNodeWhile == st.lastNodeWhile
    ensures FinishCondition(st.(lastNodeWhile := tails), node, kind, r3.(lastNodeWhile := tails2), r4.(lastNodeWhile := tails2))
            == FinishCondition(st, node, kind, r3, r4).(lastNodeWhile := tails)
  {
    if kind == WhileKind {
      var n := |r4.lastNodeWhile|;
      if n >= 2 {
        assert r4.lastNodeWhile[n - 2].While? == tails2[n - 2].While?;
      }
      assert DropLast(tails2) == tails;
    }
  }

  lemma {:induction false} ForShape(st: State, tails: seq<Node>, t: string, args: seq<Expr>, body: seq<Node>, orelse: seq<Node>)
    requires SameShape(st.lastNodeWhile, tails)
    ensures VisitFor(st.(lastNodeWhile := tails), t, args, body, orelse) == WithTails(VisitFor(st, t, args, body, orelse), tails)
    decreases 3 + ListSize(body) + ListSize(orelse), 2
  {
    var bounds := RangeArguments(st.ssa, args);
    if bounds.Ok? {
      var a := VisitAssign(st, t, Constant(bounds.value.start));
      assert VisitAssign(st.(lastNodeWhile := tails), t, Constant(bounds.value.start)) == WithTails(a, tails);
      if a.Ok? {
        var st2 := a.value.(counter := a.value.counter + 1);
        assert a.value.lastNodeWhile == st.lastNodeWhile;
        ConditionShape(st2, tails, Compare(Name(t), Lt, Constant(bounds.value.stop)), body, orelse,
                       WhileKind, Some(ForAsWhileData(t, bounds.value.step)));
        assert a.value.(lastNodeWhile := tails).(counter := a.value.counter + 1) == st2.(lastNodeWhile := tails);
      }
    }
  }

  lemma {:induction false} FunctionDefShape(st: State, tails: seq<Node>, name: string, params: seq<string>, body: seq<Node>)
    requires SameShape(st.lastNodeWhile, tails)
    ensures VisitFunctionDef(st.(lastNodeWhile := tails), name, params, body) == WithTails(VisitFunctionDef(st, name, params, body), tails)
    decreases 1 + ListSize(body), 2
  {
    var ssa1 := BumpParams(st.ssa, params, |params|).0;
    var in1 := st.(ssa := ssa1, statements := []);
    ListShape(in1, tails, body);
    assert st.(lastNodeWhile := tails).(ssa := ssa1, statements := []) == in1.(lastNodeWhile := tails);
  }

  /** The loop a `for` loop is rewritten to: `v = start`, then
      `while v < stop` over the body followed by `v = v + step`. */
  function ForAsWhile(t: string, bounds: RangeBounds, body: seq<Node>, orelse: seq<Node>): seq<Node>
  {
    [Assign(t, Constant(bounds.start)),
     While(Compare(Name(t), Lt, Constant(bounds.stop)), body + [IncrementNode(ForAsWhileData(t, bounds.step))], orelse)]
  }

  /** `visit_For`: with a well-formed `range` call and a body whose last
      statement is not itself a `while`, visiting the `for` loop is
      visiting its rewriting: the init assignment takes the `for` node's
      own id, the loop header the next, and the increment ends the body.
      A `range` call with other than one to three arguments fails. */
  lemma ForIsWhile(st: State, t: string, args: seq<Expr>, body: seq<Node>, orelse: seq<Node>)
    requires body != [] && !body[|body| - 1].While?
    ensures RangeArguments(st.ssa, args).Err? ==> VisitNode(st, For(t, args, body, orelse)) == Err(MalformedRange(|args|))
    ensures RangeArguments(st.ssa, args).Ok? ==>
      VisitNode(st, For(t, args, body, orelse)) == VisitList(st, ForAsWhile(t, RangeArguments(st.ssa, args).value, body, orelse))
  {
    var bounds := RangeArguments(st.ssa, args);
    if bounds.Ok? {
      var st1 := st.(counter := st.counter + 1);
      var ns := ForAsWhile(t, bounds.value, body, orelse);
      var a := VisitAssign(st1, t, Constant(bounds.value.start));
      assert VisitNode(st, ns[0]) == a;
      assert a.Ok?;
      var s1 := a.value;
      var s2 := s1.(counter := s1.counter + 1);
      var fd := ForAsWhileData(t, bounds.value.step);
      var test := Compare(Name(t), Lt, Constant(bounds.value.stop));
      var inc := IncrementNode(fd);
      assert ns[1..] == [ns[1]];
      var w := VisitCondition(s2, test, body + [inc], orelse, WhileKind, None);
      assert VisitNode(s1, ns[1]) == w;
      if w.Ok? {
        assert VisitList(w.value, []) == w;
      }
      assert VisitList(s1, ns[1..]) == w;
      assert VisitList(st, ns) == w;
      ForLoopIsWhileLoop(s2, test, body, orelse, fd);
    }
  }

  /** The loop part: a loop with data for the increment, against the same
      loop over the body with the increment already appended. */
  lemma ForLoopIsWhileLoop(st: State, test: Compare, body: seq<Node>, orelse: seq<Node>, fd: ForAsWhileData)
    requires body != [] && !body[|body| - 1].While?
    ensures VisitCondition(st, test, body, orelse, WhileKind, Some(fd))
            == VisitCondition(st, test, body + [IncrementNode(fd)], orelse, WhileKind, None)
  {
    var inc := IncrementNode(fd);
    var node := NodeData(st.counter, IfNode, CompareLabel(st.ssa, test));
    var tails := st.lastNodeWhile + [inc];
    var open := OpenCondition(st, node, WhileKind, body);
    assert OpenCondition(st, node, WhileKind, body + [inc]) == open.(lastNodeWhile := tails);
    assert SameShape(open.lastNodeWhile, tails);
    assert LoopBody(body, Some(fd)) == LoopBody(body + [inc], None);
    var loopBody := body + [inc];
    ListShape(open.(statements := []), tails, loopBody);
    assert open.(lastNodeWhile := tails).(statements := []) == open.(statements := []).(lastNodeWhile := tails);
    var r3 := VisitList(open.(statements := []), loopBody);
    if r3.Ok? {
      ListKeepsStacks(open.(statements := []), loopBody);
      ListShape(r3.value.(statements := []), tails, orelse);
      assert r3.value.(lastNodeWhile := tails).(statements := []) == r3.value.(statements := []).(lastNodeWhile := tails);
      var r4 := VisitList(r3.value.(statements := []), orelse);
      if r4.Ok? {
        ListKeepsStacks(r3.value.(statements := []), orelse);
        assert DropLast(tails) == DropLast(r4.value.lastNodeWhile);
        WhileFinishShape(st, node, r3.value, r4.value, tails);
      }
    }
  }

  /** Closing a loop reads the last two entries of `last_node_while` only
      through whether they are `while` nodes. */
  lemma WhileFinishShape(st: State, node: NodeData, r3: State, r4: State, tails: seq<Node>)
    requires SameShape(r4.lastNodeWhile, tails)
    requires DropLast(tails) == DropLast(r4.lastNodeWhile)
    ensures FinishCondition(st, node, WhileKind, r3.(lastNodeWhile := tails), r4.(lastNodeWhile := tails))
            == FinishCondition(st, node, WhileKind, r3, r4)
  {
    var n := |r4.lastNodeWhile|;
    if n >= 2 {
      assert r4.lastNodeWhile[n - 2].While? == tails[n - 2].While?;
    }
  }
}
