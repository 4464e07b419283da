// Properties of the traversal (module Traversal), proved for every input.
module TraversalFacts {
  import opened Wrappers
  import opened Ast
  import opened Statements
  import opened Labels
  import opened Traversal

  predicate Increasing(s: seq<int>)
  {
    forall i, j :: 0 <= i < j < |s| ==> s[i] < s[j]
  }

  predicate InRange(s: seq<int>, lo: int, hi: int)
  {
    forall i :: 0 <= i < |s| ==> lo < s[i] <= hi
  }

  ghost predicate VersionsGrow(a: Versions, b: Versions)
  {
    forall v :: Version(a, v) <= Version(b, v)
  }

  /** The statements a step appended to the current list. */
  function Added(st: State, st': State): seq<Statement>
    requires |st.statements| <= |st'.statements|
  {
    st'.statements[|st.statements|..]
  }

  /** What every visit does to the builder's state, for the statements it
      appends (`added`), whose ids lie above `lo`:
      - the counter never decreases and the current list is only appended to;
      - the appended ids are strictly increasing in pre-order and lie in
        (lo, new counter];
      - `id2statement` gains exactly the appended statements' nodes;
      - `node_after_while` gains exactly one entry per appended loop header
        and keeps its other entries, and every appended header's entry is
        right (ExitsOk);
      - appended `break`/`continue` name the innermost open loop, appended
        `return`s outside a function have no end node, appended functions
        are closed;
      - both loop stacks are as before, and no version decreased. */
  ghost predicate Grows(st: State, st': State, lo: int)
  {
    && st.counter <= st'.counter
    && |st.statements| <= |st'.statements|
    && st'.statements[..|st.statements|] == st.statements
    && AddedOk(st, st', Added(st, st'), lo)
    && st'.whileNodes == st.whileNodes
    && st'.lastNodeWhile == st.lastNodeWhile
    && VersionsGrow(st.ssa, st'.ssa)
  }

  ghost predicate AddedOk(st: State, st': State, added: seq<Statement>, lo: int)
  {
    && Increasing(Ids(added))
    && InRange(Ids(added), lo, st'.counter)
    && st'.id2statement == st.id2statement + Registry(added)
    && st'.nodeAfterWhile.Keys == st.nodeAfterWhile.Keys + WhileIds(added)
    && (forall k :: k in st.nodeAfterWhile && k !in WhileIds(added) ==> st'.nodeAfterWhile[k] == st.nodeAfterWhile[k])
    && AllExitsOk(added, Top(st.whileNodes), st'.nodeAfterWhile)
    && AllJumpsTarget(added, Top(st.whileNodes))
    && AllReturnsTo(added, None)
  }

  /** A visit of a node or a list: its statements' ids lie above the
      counter it started from. */
  ghost predicate Extends(st: State, st': State)
  {
    Grows(st, st', st.counter)
  }

  lemma IncreasingAppend(a: seq<int>, b: seq<int>, mid: int)
    requires Increasing(a) && Increasing(b)
    requires forall i :: 0 <= i < |a| ==> a[i] <= mid
    requires forall i :: 0 <= i < |b| ==> mid < b[i]
    ensures Increasing(a + b)
  {
  }

  lemma {:induction false} GrowsTrans(a: State, b: State, c: State, lo: int)
    requires Grows(a, b, lo) && Extends(b, c)
    requires lo <= b.counter
    ensures Grows(a, c, lo)
  {
    var ab, bc := Added(a, b), Added(b, c);
    assert c.statements == a.statements + ab + bc;
    assert Added(a, c) == ab + bc;
    AddedTrans(a, b, c, ab, bc, lo);
  }

  lemma AddedTrans(a: State, b: State, c: State, ab: seq<Statement>, bc: seq<Statement>, lo: int)
    requires AddedOk(a, b, ab, lo) && AddedOk(b, c, bc, b.counter)
    requires lo <= b.counter <= c.counter && b.whileNodes == a.whileNodes
    ensures AddedOk(a, c, ab + bc, lo)
  {
    IdsTrans(ab, bc, lo, b.counter, c.counter);
    DisjointWhileIds(ab, bc, b.counter);
    RegistryAppend(ab, bc);
    WhileIdsAppend(ab, bc);
    AllExitsOkFrame(ab, Top(a.whileNodes), b.nodeAfterWhile, c.nodeAfterWhile);
    TablesTrans(a, b, c, ab, bc);
    ScopesAppend(ab, bc, Top(a.whileNodes), c.nodeAfterWhile);
  }

  lemma ScopesAppend(x: seq<Statement>, y: seq<Statement>, top: Option<int>, jt: map<int, int>)
    requires AllExitsOk(x, top, jt) && AllExitsOk(y, top, jt)
    requires AllJumpsTarget(x, top) && AllJumpsTarget(y, top)
    requires AllReturnsTo(x, None) && AllReturnsTo(y, None)
    ensures AllExitsOk(x + y, top, jt)
    ensures AllJumpsTarget(x + y, top)
    ensures AllReturnsTo(x + y, None)
  {
  }

  lemma IdsTrans(ab: seq<Statement>, bc: seq<Statement>, lo: int, mid: int, hi: int)
    requires Increasing(Ids(ab)) && InRange(Ids(ab), lo, mid)
    requires Increasing(Ids(bc)) && InRange(Ids(bc), mid, hi)
    requires lo <= mid <= hi
    ensures Increasing(Ids(ab + bc)) && InRange(Ids(ab + bc), lo, hi)
  {
    IdsAppend(ab, bc);
    var x, y := Ids(ab), Ids(bc);
    IncreasingAppend(x, y, mid);
    InRangeAppend(x, y, lo, mid, hi);
  }

  lemma InRangeAppend(x: seq<int>, y: seq<int>, lo: int, mid: int, hi: int)
    requires InRange(x, lo, mid) && InRange(y, mid, hi) && lo <= mid <= hi
    ensures InRange(x + y, lo, hi)
  {
  }

  /** Statements whose ids lie on either side of `mid` have no loop
      header in common. */
  lemma DisjointWhileIds(ab: seq<Statement>, bc: seq<Statement>, mid: int)
    requires forall i :: 0 <= i < |Ids(ab)| ==> Ids(ab)[i] <= mid
    requires forall i :: 0 <= i < |Ids(bc)| ==> mid < Ids(bc)[i]
    ensures forall k :: k in WhileIds(ab) ==> k !in WhileIds(bc)
  {
    WhileIdsAreIds(ab);
    WhileIdsAreIds(bc);
    assert forall k :: k in WhileIds(ab) ==> k <= mid;
    assert forall k :: k in WhileIds(bc) ==> mid < k;
    assert forall k :: k in WhileIds(ab) ==> k !in WhileIds(bc);
  }

  lemma MapUnionAssoc<K, V>(m1: map<K, V>, m2: map<K, V>, m3: map<K, V>)
    ensures (m1 + m2) + m3 == m1 + (m2 + m3)
  {
  }

  lemma TablesTrans(a: State, b: State, c: State, ab: seq<Statement>, bc: seq<Statement>)
    requires b.id2statement == a.id2statement + Registry(ab)
    requires c.id2statement == b.id2statement + Registry(bc)
    requires Registry(ab + bc) == Registry(ab) + Registry(bc)
    requires b.nodeAfterWhile.Keys == a.nodeAfterWhile.Keys + WhileIds(ab)
    requires c.nodeAfterWhile.Keys == b.nodeAfterWhile.Keys + WhileIds(bc)
    requires WhileIds(ab + bc) == WhileIds(ab) + WhileIds(bc)
    requires forall k :: k in a.nodeAfterWhile && k !in WhileIds(ab) ==> b.nodeAfterWhile[k] == a.nodeAfterWhile[k]
    requires forall k :: k in b.nodeAfterWhile && k !in WhileIds(bc) ==> c.nodeAfterWhile[k] == b.nodeAfterWhile[k]
    ensures c.id2statement == a.id2statement + Registry(ab + bc)
    ensures c.nodeAfterWhile.Keys == a.nodeAfterWhile.Keys + WhileIds(ab + bc)
    ensures forall k :: k in a.nodeAfterWhile && k !in WhileIds(ab + bc) ==> c.nodeAfterWhile[k] == a.nodeAfterWhile[k]
  {
    MapUnionAssoc(a.id2statement, Registry(ab), Registry(bc));
  }

  /** A step that starts from a bumped counter satisfies the visit's
      contract for the counter before the bump. */
  lemma DispatchGrows(st0: State, st: State, st': State)
    requires st == st0.(counter := st0.counter + 1)
    requires Grows(st, st', st0.counter)
    ensures Extends(st0, st')
  {
  }

  lemma WeakenGrows(st: State, st': State, lo: int, lo': int)
    requires Grows(st, st', lo) && lo' <= lo
    ensures Grows(st, st', lo')
  {
  }

  /** Appending one childless statement with the current id. */
  lemma {:induction false} EmitGrows(st: State, s: Statement)
    requires !s.HasBody() && s.node.id == st.counter
    requires JumpsTarget(s, Top(st.whileNodes)) && ReturnsTo(s, None)
    ensures Grows(st, Emit(st, s), st.counter - 1)
  {
    var st' := Emit(st, s);
    assert Added(st, st') == [s];
    IdsSingle(s);
    RegistrySingle(s);
    assert WhileIds([s]) == {} by { assert [s][1..] == []; }
    assert st'.id2statement == st.id2statement + Registry([s]);
  }
}
