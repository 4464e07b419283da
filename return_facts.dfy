// Back-patching of `return` statements (set_end_to_return).
module ReturnFacts {
  import opened Wrappers
  import opened Statements
  import opened Traversal

  /** Clearing return targets keeps ids, registrations, loop headers,
      jump targets and exit entries. */
  lemma {:induction false} EraseKeeps(s: Statement)
    ensures StmtIds(Erase(s)) == StmtIds(s)
    ensures StmtRegistry(Erase(s)) == StmtRegistry(s)
    ensures StmtWhileIds(Erase(s)) == StmtWhileIds(s)
    ensures forall t :: JumpsTarget(Erase(s), t) <==> JumpsTarget(s, t)
    ensures forall e, jt :: ExitsOk(Erase(s), e, jt) <==> ExitsOk(s, e, jt)
  {
    match s
    case IfStatement(_, body, orelse) => EraseAllKeeps(body); EraseAllKeeps(orelse);
    case WhileStatement(_, body, orelse) => EraseAllKeeps(body); EraseAllKeeps(orelse);
    case FunctionStatement(_, body) => EraseAllKeeps(body);
    case _ =>
  }

  lemma {:induction false} EraseAllKeeps(ss: seq<Statement>)
    ensures Ids(EraseAll(ss)) == Ids(ss)
    ensures Registry(EraseAll(ss)) == Registry(ss)
    ensures WhileIds(EraseAll(ss)) == WhileIds(ss)
    ensures forall t :: AllJumpsTarget(EraseAll(ss), t) <==> AllJumpsTarget(ss, t)
    ensures forall e, jt :: AllExitsOk(EraseAll(ss), e, jt) <==> AllExitsOk(ss, e, jt)
  {
    if ss != [] {
      EraseKeeps(ss[0]);
      EraseAllKeeps(ss[1..]);
      assert ss == [ss[0]] + ss[1..];
      forall t
        ensures AllJumpsTarget(EraseAll(ss), t) <==> AllJumpsTarget(ss, t)
      {
        JumpsCons(Erase(ss[0]), EraseAll(ss[1..]), t);
        JumpsCons(ss[0], ss[1..], t);
      }
      forall e, jt
        ensures AllExitsOk(EraseAll(ss), e, jt) <==> AllExitsOk(ss, e, jt)
      {
        ExitsCons(Erase(ss[0]), EraseAll(ss[1..]), e, jt);
        ExitsCons(ss[0], ss[1..], e, jt);
      }
    }
  }

  lemma JumpsCons(x: Statement, rest: seq<Statement>, t: Option<int>)
    ensures AllJumpsTarget([x] + rest, t) <==> JumpsTarget(x, t) && AllJumpsTarget(rest, t)
  {
    assert forall y :: y in [x] + rest <==> y == x || y in rest;
  }

  lemma ExitsCons(x: Statement, rest: seq<Statement>, e: Option<int>, jt: map<int, int>)
    ensures AllExitsOk([x] + rest, e, jt) <==> ExitsOk(x, e, jt) && AllExitsOk(rest, e, jt)
  {
    assert forall y :: y in [x] + rest <==> y == x || y in rest;
  }

  /** `set_end_to_return` succeeds exactly when no function definition is
      nested in the statement, and then it points every `return` at `end`
      and changes nothing else. */
  lemma {:induction false} SetEndToReturnSpec(s: Statement, end: int)
    ensures SetEndToReturn(s, end).Ok? <==> !ContainsFunction(s)
    ensures SetEndToReturn(s, end).Ok? ==>
      && Erase(SetEndToReturn(s, end).value) == Erase(s)
      && ReturnsTo(SetEndToReturn(s, end).value, Some(end))
  {
    match s
    case IfStatement(_, body, orelse) =>
      SetEndToReturnAllSpec(body, end);
      SetEndToReturnAllSpec(orelse, end);
    case WhileStatement(_, body, orelse) =>
      SetEndToReturnAllSpec(body, end);
      SetEndToReturnAllSpec(orelse, end);
    case _ =>
  }

  lemma {:induction false} SetEndToReturnAllSpec(ss: seq<Statement>, end: int)
    ensures SetEndToReturnAll(ss, end).Ok? <==> !AnyContainsFunction(ss)
    ensures SetEndToReturnAll(ss, end).Ok? ==>
      && EraseAll(SetEndToReturnAll(ss, end).value) == EraseAll(ss)
      && AllReturnsTo(SetEndToReturnAll(ss, end).value, Some(end))
  {
    if ss != [] {
      SetEndToReturnSpec(ss[0], end);
      SetEndToReturnAllSpec(ss[1..], end);
      assert forall y :: y in ss <==> y == ss[0] || y in ss[1..];
      var r := SetEndToReturnAll(ss, end);
      if r.Ok? {
        var h, t := SetEndToReturn(ss[0], end).value, SetEndToReturnAll(ss[1..], end).value;
        assert r.value == [h] + t;
        assert forall y :: y in r.value <==> y == h || y in t;
        assert EraseAll(r.value) == [Erase(h)] + EraseAll(t);
        assert EraseAll(ss) == [Erase(ss[0])] + EraseAll(ss[1..]);
      }
    }
  }
}
