// The two loop stacks, `while_nodes` and `last_node_while`, always have the
// same length: a loop pushes one entry on each when it opens and pops one
// from each when it closes. So the exit rule's test reads the stacks as the
// code does, without the extra length test that keeps ExitTarget total.
module StackFacts {
  import opened Wrappers
  import opened Ast
  import opened Statements
  import opened Labels
  import opened Traversal
  import opened TraversalFacts
  import opened VisitFacts

  /** Both loop stacks have one entry per open loop. */
  predicate Aligned(st: State)
  {
    |st.whileNodes| == |st.lastNodeWhile|
  }

  /** The exit rule of `__visit_Condition` as written (builder.py:213-223),
      on aligned stacks: the enclosing header when at least two loops are
      open and the second-to-last recorded statement is a `while`. */
  function ExitAsWritten(whileNodes: seq<int>, lastNodeWhile: seq<Node>, counter: int): int
    requires |whileNodes| == |lastNodeWhile|
  {
    if |whileNodes| >= 2 && lastNodeWhile[|lastNodeWhile| - 2].While?
    then whileNodes[|whileNodes| - 2]
    else counter + 1
  }

  /** On aligned stacks the model's exit rule is the code's. */
  lemma ExitTargetAsWritten(whileNodes: seq<int>, lastNodeWhile: seq<Node>, counter: int)
    requires |whileNodes| == |lastNodeWhile|
    ensures ExitTarget(whileNodes, lastNodeWhile, counter) == ExitAsWritten(whileNodes, lastNodeWhile, counter)
  {
  }

  lemma InitialAligned()
    ensures Aligned(Initial()) && Initial().whileNodes == []
  {
  }

  /** Opening a loop pushes on both stacks; opening an `if` pushes on none. */
  lemma OpenKeepsAligned(st: State, node: NodeData, kind: ConditionKind, body: seq<Node>)
    requires kind == WhileKind ==> body != []
    requires Aligned(st)
    ensures Aligned(OpenCondition(st, node, kind, body))
    ensures |OpenCondition(st, node, kind, body).whileNodes| == |st.whileNodes| + (if kind == WhileKind then 1 else 0)
  {
  }

  /** Closing a loop pops from both stacks. */
  lemma CloseKeepsAligned(st: State, id: int)
    requires Aligned(st) && |st.whileNodes| >= 1
    ensures Aligned(CloseLoop(st, id))
    ensures |CloseLoop(st, id).whileNodes| == |st.whileNodes| - 1
    ensures CloseLoop(st, id).nodeAfterWhile[id] == ExitAsWritten(st.whileNodes, st.lastNodeWhile, st.counter)
  {
  }

  /** Every visit from aligned stacks ends on aligned stacks. */
  lemma NodeKeepsAligned(st: State, n: Node)
    requires Aligned(st)
    ensures VisitNode(st, n).Ok? ==> Aligned(VisitNode(st, n).value)
  {
    VisitNodeExtends(st, n);
  }

  lemma ListKeepsAligned(st: State, ns: seq<Node>)
    requires Aligned(st)
    ensures VisitList(st, ns).Ok? ==> Aligned(VisitList(st, ns).value)
  {
    VisitListExtends(st, ns);
  }

  /** Inside a condition's visit, every intermediate state is aligned:
      after opening (`st2`), after the body (`r3`), after the else branch
      (`r4`) and at the end. For a loop, the exit entry is the code's rule
      read on the stacks as they stand at the close, two or more deep. */
  lemma ConditionKeepsAligned(st: State, test: Compare, body: seq<Node>, orelse: seq<Node>,
                              kind: ConditionKind, forData: Option<ForAsWhileData>) returns (st2: State, r3: State, r4: State)
    requires Aligned(st)
    requires VisitCondition(st, test, body, orelse, kind, forData).Ok?
    ensures st2 == OpenCondition(st, NodeData(st.counter, IfNode, CompareLabel(st.ssa, test)), kind, body)
    ensures VisitList(st2.(statements := []), LoopBody(body, forData)) == Ok(r3)
    ensures VisitList(r3.(statements := []), orelse) == Ok(r4)
    ensures Aligned(st2) && Aligned(r3) && Aligned(r4)
    ensures Aligned(VisitCondition(st, test, body, orelse, kind, forData).value)
    ensures kind == WhileKind ==>
      && |r4.whileNodes| == |st.whileNodes| + 1
      && VisitCondition(st, test, body, orelse, kind, forData).value.nodeAfterWhile[st.counter]
           == ExitAsWritten(r4.whileNodes, r4.lastNodeWhile, r4.counter)
  {
    var node;
    node, r3, r4 := ConditionSteps(st, test, body, orelse, kind, forData);
    st2 := OpenCondition(st, node, kind, body);
    OpenKeepsAligned(st, node, kind, body);
    ListKeepsStacks(st2.(statements := []), LoopBody(body, forData));
    ListKeepsStacks(r3.(statements := []), orelse);
    if kind == WhileKind {
      var st5 := r4.(statements := st.statements + [WhileStatement(node, r3.statements, r4.statements)]);
      CloseKeepsAligned(st5, node.id);
    }
  }

  /** The stacks are empty again after a whole build. */
  lemma BuildAligned(tree: Node)
    ensures Build(tree).Ok? ==> Aligned(Build(tree).value) && Build(tree).value.whileNodes == []
  {
    InitialAligned();
    VisitNodeExtends(Initial(), tree);
  }
}
