// The statement tree the CFG builder produces (ssa/statements.py, together
// with the NodeData record and the kinds of node the builder creates).
// Cross references (the loop a `break` leaves, the end node a `return`
// reaches) are node ids, not references, so the tree stays a plain value.
module Statements {
  import opened Wrappers

  /** The kind of a graph node. */
  datatype NodeType =
    | StartNode | EndNode | AssignNode | IfNode | BreakNode | ContinueNode
    | FunctionDefNode | FunctionEndNode | ReturnNode | CallNode

  /** One graph node: a unique id, its kind and its rendered label (`text`). */
  datatype NodeData = NodeData(id: int, nodeType: NodeType, text: string)

  /** Every statement carries exactly one node. An `if` and a loop header
      share their shape (a `WhileStatement` is an `IfStatement` under
      another name); `break` and `continue` name the header of the loop
      they leave; a `return` learns the end node of its function once the
      function body is complete. */
  datatype Statement =
    | Simple(node: NodeData)
    | IfStatement(node: NodeData, body: seq<Statement>, orelse: seq<Statement>)
    | WhileStatement(node: NodeData, body: seq<Statement>, orelse: seq<Statement>)
    | BreakStatement(node: NodeData, whileStatement: int)
    | ContinueStatement(node: NodeData, whileStatement: int)
    | FunctionStatement(node: NodeData, body: seq<Statement>)
    | ReturnStatement(node: NodeData, endOfFunction: Option<int>)
  {
    /** The statements that own child lists (the `hasattr(_, "body")` test). */
    predicate HasBody() { IfStatement? || WhileStatement? || FunctionStatement? }

    /** The two condition kinds. */
    predicate IsCondition() { IfStatement? || WhileStatement? }
  }

  /** Node ids of a statement in pre-order: the node, then its body, then
      its else branch. */
  function StmtIds(s: Statement): seq<int>
  {
    match s
    case IfStatement(n, body, orelse) => [n.id] + Ids(body) + Ids(orelse)
    case WhileStatement(n, body, orelse) => [n.id] + Ids(body) + Ids(orelse)
    case FunctionStatement(n, body) => [n.id] + Ids(body)
    case _ => [s.node.id]
  }

  function Ids(ss: seq<Statement>): seq<int>
  {
    if ss == [] then [] else StmtIds(ss[0]) + Ids(ss[1..])
  }

  lemma {:induction false} IdsAppend(a: seq<Statement>, b: seq<Statement>)
    ensures Ids(a + b) == Ids(a) + Ids(b)
  {
    if a != [] {
      assert (a + b)[1..] == a[1..] + b;
      IdsAppend(a[1..], b);
    } else {
      assert a + b == b;
    }
  }

  lemma IdsSingle(s: Statement)
    ensures Ids([s]) == StmtIds(s)
  {
    assert [s][1..] == [];
  }

  /** The id-to-node table a statement contributes, in the order the
      builder writes it: a condition before its children; a function
      definition not at all (only its body, which ends in its end node). */
  function StmtRegistry(s: Statement): map<int, NodeData>
  {
    match s
    case IfStatement(n, body, orelse) => map[n.id := n] + Registry(body) + Registry(orelse)
    case WhileStatement(n, body, orelse) => map[n.id := n] + Registry(body) + Registry(orelse)
    case FunctionStatement(_, body) => Registry(body)
    case _ => map[s.node.id := s.node]
  }

  function Registry(ss: seq<Statement>): map<int, NodeData>
  {
    if ss == [] then map[] else StmtRegistry(ss[0]) + Registry(ss[1..])
  }

  lemma {:induction false} RegistryAppend(a: seq<Statement>, b: seq<Statement>)
    ensures Registry(a + b) == Registry(a) + Registry(b)
  {
    if a != [] {
      assert (a + b)[1..] == a[1..] + b;
      RegistryAppend(a[1..], b);
    } else {
      assert a + b == b;
    }
  }

  lemma RegistrySingle(s: Statement)
    ensures Registry([s]) == StmtRegistry(s)
  {
    assert [s][1..] == [];
  }

  /** Only the statements' own nodes are registered. */
  lemma {:induction false} RegistryKeysAreIds(ss: seq<Statement>)
    ensures forall k :: k in Registry(ss) ==> k in Ids(ss)
  {
    if ss != [] {
      StmtRegistryKeysAreIds(ss[0]);
      RegistryKeysAreIds(ss[1..]);
    }
  }

  lemma {:induction false} StmtRegistryKeysAreIds(s: Statement)
    ensures forall k :: k in StmtRegistry(s) ==> k in StmtIds(s)
  {
    match s
    case IfStatement(_, body, orelse) =>
      RegistryKeysAreIds(body);
      RegistryKeysAreIds(orelse);
    case WhileStatement(_, body, orelse) =>
      RegistryKeysAreIds(body);
      RegistryKeysAreIds(orelse);
    case FunctionStatement(_, body) =>
      RegistryKeysAreIds(body);
    case _ =>
  }

  /** Ids of the loop headers in a statement. */
  function StmtWhileIds(s: Statement): set<int>
  {
    match s
    case IfStatement(_, body, orelse) => WhileIds(body) + WhileIds(orelse)
    case WhileStatement(n, body, orelse) => {n.id} + WhileIds(body) + WhileIds(orelse)
    case FunctionStatement(_, body) => WhileIds(body)
    case _ => {}
  }

  function WhileIds(ss: seq<Statement>): set<int>
  {
    if ss == [] then {} else StmtWhileIds(ss[0]) + WhileIds(ss[1..])
  }

  lemma {:induction false} WhileIdsAppend(a: seq<Statement>, b: seq<Statement>)
    ensures WhileIds(a + b) == WhileIds(a) + WhileIds(b)
  {
    if a != [] {
      assert (a + b)[1..] == a[1..] + b;
      WhileIdsAppend(a[1..], b);
    } else {
      assert a + b == b;
    }
  }

  lemma {:induction false} WhileIdsAreIds(ss: seq<Statement>)
    ensures forall k :: k in WhileIds(ss) ==> k in Ids(ss)
  {
    if ss != [] {
      StmtWhileIdsAreIds(ss[0]);
      WhileIdsAreIds(ss[1..]);
    }
  }

  lemma {:induction false} StmtWhileIdsAreIds(s: Statement)
    ensures forall k :: k in StmtWhileIds(s) ==> k in StmtIds(s)
  {
    match s
    case IfStatement(_, body, orelse) =>
      WhileIdsAreIds(body);
      WhileIdsAreIds(orelse);
    case WhileStatement(_, body, orelse) =>
      WhileIdsAreIds(body);
      WhileIdsAreIds(orelse);
    case FunctionStatement(_, body) =>
      WhileIdsAreIds(body);
    case _ =>
  }

  /** Every `break` and `continue` names the innermost open loop `top`,
      where a loop is open over its body and over its else branch. */
  predicate JumpsTarget(s: Statement, top: Option<int>)
  {
    match s
    case BreakStatement(_, w) => top == Some(w)
    case ContinueStatement(_, w) => top == Some(w)
    case IfStatement(_, body, orelse) => AllJumpsTarget(body, top) && AllJumpsTarget(orelse, top)
    case WhileStatement(n, body, orelse) =>
      AllJumpsTarget(body, Some(n.id)) && AllJumpsTarget(orelse, Some(n.id))
    case FunctionStatement(_, body) => AllJumpsTarget(body, top)
    case _ => true
  }

  predicate AllJumpsTarget(ss: seq<Statement>, top: Option<int>)
  {
    forall s :: s in ss ==> JumpsTarget(s, top)
  }

  /** Every `return` outside a function definition has no end node; every
      function body ends in its own end node and every `return` in it
      points there; function definitions do not nest. */
  predicate ReturnsTo(s: Statement, target: Option<int>)
  {
    match s
    case ReturnStatement(_, e) => e == target
    case IfStatement(_, body, orelse) => AllReturnsTo(body, target) && AllReturnsTo(orelse, target)
    case WhileStatement(_, body, orelse) => AllReturnsTo(body, target) && AllReturnsTo(orelse, target)
    case FunctionStatement(_, body) =>
      && target.None?
      && |body| > 0
      && body[|body| - 1].Simple?
      && body[|body| - 1].node.nodeType == FunctionEndNode
      && AllReturnsTo(body, Some(body[|body| - 1].node.id))
    case _ => true
  }

  predicate AllReturnsTo(ss: seq<Statement>, target: Option<int>)
  {
    forall s :: s in ss ==> ReturnsTo(s, target)
  }

  /** The loop-exit table has one entry per loop header: the header of the
      enclosing open loop, or an id beyond every node of the loop. Which
      of the two the builder writes is stated by the exit rule itself
      (`BuildFacts.LoopExitEntry`), not by this predicate. */
  predicate ExitsOk(s: Statement, enclosing: Option<int>, jt: map<int, int>)
  {
    match s
    case IfStatement(_, body, orelse) =>
      AllExitsOk(body, enclosing, jt) && AllExitsOk(orelse, enclosing, jt)
    case WhileStatement(n, body, orelse) =>
      && n.id in jt
      && (enclosing == Some(jt[n.id]) || forall k :: k in StmtIds(s) ==> k < jt[n.id])
      && AllExitsOk(body, Some(n.id), jt)
      && AllExitsOk(orelse, Some(n.id), jt)
    case FunctionStatement(_, body) => AllExitsOk(body, enclosing, jt)
    case _ => true
  }

  predicate AllExitsOk(ss: seq<Statement>, enclosing: Option<int>, jt: map<int, int>)
  {
    forall s :: s in ss ==> ExitsOk(s, enclosing, jt)
  }

  /** ExitsOk reads the table only at the loop headers of the tree. */
  lemma {:induction false} ExitsOkFrame(s: Statement, enclosing: Option<int>, jt: map<int, int>, jt': map<int, int>)
    requires ExitsOk(s, enclosing, jt)
    requires forall k :: k in StmtWhileIds(s) && k in jt ==> k in jt' && jt'[k] == jt[k]
    ensures ExitsOk(s, enclosing, jt')
  {
    match s
    case IfStatement(_, body, orelse) =>
      AllExitsOkFrame(body, enclosing, jt, jt');
      AllExitsOkFrame(orelse, enclosing, jt, jt');
    case WhileStatement(n, body, orelse) =>
      AllExitsOkFrame(body, Some(n.id), jt, jt');
      AllExitsOkFrame(orelse, Some(n.id), jt, jt');
    case FunctionStatement(_, body) =>
      AllExitsOkFrame(body, enclosing, jt, jt');
    case _ =>
  }

  lemma {:induction false} AllExitsOkFrame(ss: seq<Statement>, enclosing: Option<int>, jt: map<int, int>, jt': map<int, int>)
    requires AllExitsOk(ss, enclosing, jt)
    requires forall k :: k in WhileIds(ss) && k in jt ==> k in jt' && jt'[k] == jt[k]
    ensures AllExitsOk(ss, enclosing, jt')
  {
    forall s | s in ss
      ensures ExitsOk(s, enclosing, jt')
    {
      WhileIdsMember(ss, s);
      ExitsOkFrame(s, enclosing, jt, jt');
    }
  }

  lemma {:induction false} WhileIdsMember(ss: seq<Statement>, s: Statement)
    requires s in ss
    ensures StmtWhileIds(s) <= WhileIds(ss)
  {
    if ss[0] != s {
      WhileIdsMember(ss[1..], s);
    }
  }

  /** The tree with every `return` target cleared: what back-patching the
      returns must leave unchanged. */
  function Erase(s: Statement): Statement
  {
    match s
    case IfStatement(n, body, orelse) => IfStatement(n, EraseAll(body), EraseAll(orelse))
    case WhileStatement(n, body, orelse) => WhileStatement(n, EraseAll(body), EraseAll(orelse))
    case FunctionStatement(n, body) => FunctionStatement(n, EraseAll(body))
    case ReturnStatement(n, _) => ReturnStatement(n, None)
    case _ => s
  }

  function EraseAll(ss: seq<Statement>): (r: seq<Statement>)
    ensures |r| == |ss|
    ensures forall i :: 0 <= i < |ss| ==> r[i] == Erase(ss[i])
  {
    if ss == [] then [] else [Erase(ss[0])] + EraseAll(ss[1..])
  }

  /** Whether a function definition occurs anywhere in the statement. */
  predicate ContainsFunction(s: Statement)
  {
    match s
    case IfStatement(_, body, orelse) => AnyContainsFunction(body) || AnyContainsFunction(orelse)
    case WhileStatement(_, body, orelse) => AnyContainsFunction(body) || AnyContainsFunction(orelse)
    case FunctionStatement(_, _) => true
    case _ => false
  }

  predicate AnyContainsFunction(ss: seq<Statement>)
  {
    exists s :: s in ss && ContainsFunction(s)
  }
}
