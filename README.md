# CFG builder of static-single-assignment, in Dafny

This project models `CFGBuilder` (ssa/builder.py). It also models the statement
tree that `CFGBuilder` produces (ssa/statements.py, together with the
`NodeData`/`NodeType` records the builder uses).

The builder is one recursive descent over a parsed Python program. It does
five things:

- It gives every visited node a fresh id from one counter.
- It renders each assignment as an SSA label such as `x.2 = x.1 + 1`. To do
  this it keeps a single version table that only ever increments.
- It nests statements. The current output list is swapped for a condition's
  `body`/`orelse` list, or a function's `body` list, while the children are
  visited.
- It keeps a stack of open loops. When a loop closes, it records in
  `node_after_while` where control goes next.
- It points every `return` of a function at a synthetic end-of-function node.

The model has two layers.

- **Traversal** is the pure layer: one function per visit method, over a `State`
  value that holds the builder's fields. A visit returns `Result<State,
  BuildError>`. The Python exceptions the code lets escape become errors:
  - an assigned value of a kind with no rendering branch (unbound local);
  - `break`/`continue` with no open loop;
  - a loop with an empty body (`node.body[-1]`);
  - `range` with other than one to three arguments (unbound locals);
  - a function definition nested in a function body (`set_end_to_return`
    reaches for an `orelse` that a function statement does not have).
- **Builder** is the source's own form: `class CFGBuilder` has the same fields,
  and its methods update them in place. Each method is proved to leave the
  object in the state the matching Traversal function computes from the state
  it found. It is also proved to raise exactly when that function fails, with
  the same error. The loops that build label text are methods too, and each
  is proved equal to the text function it implements.

The properties are proved about the Traversal functions. The central one is
that every visit preserves an invariant (`TraversalFacts.Grows`). Its
consequence for a whole build is `BuildFacts.BuildWellFormed`:

- ids are strictly increasing in pre-order, so they are unique;
- Start is 0 and End is the last counter value;
- `id2statement` is exactly the registered nodes of the tree;
- every loop header has one exit entry: the enclosing loop's header, or an id past every node of the loop (`BuildFacts.LoopExitEntry` gives the exact rule);
- every `break`/`continue` names its innermost loop;
- every `return` points at its function's end node;
- both loop stacks end empty.

Two behaviours of the code are stated as proved properties rather than
smoothed over.

- **The exit entry.** A loop's exit entry is the enclosing loop's header only
  when one is open and the enclosing loop's last statement, as written, is a
  `while`. Otherwise it is the id after the last one handed out inside the
  loop (`BuildFacts.LoopExitEntry`). Only the kind of that statement is read,
  not whether it is the loop itself (`ForFacts.NodeShape`). So in
  `while A: (while B: ...) (while C: ...)`, A's last statement C is a
  `while`, and both B and C exit to A's header: B's exit skips C.
- **The `for` loop.** A `for` loop records the last statement of its body
  before the increment `v = v + step` is appended. When that last statement
  is not itself a `while`, the `for` loop equals its `while` rewriting
  (`ForFacts.ForIsWhile`). When it is a `while` W and the visit succeeds,
  W's exit entry is the `for` loop's own header, while in the rewriting it
  is an id beyond W (`ForLayout.ForBodyEndingInWhile`). The two may still
  agree when both visits fail. For every body, the arity error, the empty
  body error and the layout (the assignment under the `for` id, the header
  under the next id, the increment last in the loop body) are stated by
  `ForLayout.ForLayoutAll`.

The code inserts no phi assignments and takes no snapshots of the version
table: it keeps one table that only ever increments, and each parameter of a
definition is bumped by one from the version it had.

## Model

| member | source | states |
|---|---|---|
| `Builder.NewBuilder` | ssa/builder.py:82-105 | Constructing the builder succeeds exactly when the pure build succeeds. The new object's fields are then that build's final state; otherwise the error that escapes is the build's error. |
| `Builder.CFGBuilder.constructor` | ssa/builder.py:86-101 | The fields start as the initial state: Start (id 0) is the only statement and the only registered node, no loop is open, and the version table is empty. |
| `Builder.CFGBuilder.Append` | ssa/builder.py:376-377 | Appending a statement adds it at the end of the current list and registers its node under its id. Nothing else changes. |
| `Builder.CFGBuilder.VisitNode` | ssa/builder.py:107-111 | Draws the next id, then dispatches on the node kind. Kinds without a visitor visit their children. The new state and error are those of `Traversal.VisitNode`. |
| `Builder.CFGBuilder.Visit` | ssa/builder.py:113-118 | The loop over a list visits each node in turn and stops at the first exception. The loop invariant is that the rest of the list still yields what the whole list yields from the start. Result: `Traversal.VisitList`. |
| `Builder.CFGBuilder.VisitAssign` | ssa/builder.py:120-155 | Renders the label with the current versions, then bumps the target's version. A value kind with no branch fails with UnboundValue. Result: `Traversal.VisitAssign`. |
| `Builder.AssignArgs` | ssa/builder.py:136-142 | The argument loop of an assigned call. It returns exactly `Labels.AssignArgsText`: constants, and names without a version, each followed by ", " unless last; other kinds are skipped. |
| `Builder.CFGBuilder.VisitAugAssign` | ssa/builder.py:408-414 | An augmented assignment `v op= e` is visited as `v = v op e`. Result: `Traversal.VisitAugAssign`. |
| `Builder.CFGBuilder.VisitCondition` | ssa/builder.py:164-225 | Opens the condition, visits the body (with a `for` loop's increment last) and then the else branch into fresh lists, appends the condition to the saved list, and closes a loop. Result: `Traversal.VisitCondition`. |
| `Builder.CFGBuilder.Open` | ssa/builder.py:177-190 | Registers the IF-typed condition node. A loop also pushes its header id and the last statement of its body as written. Result: `Traversal.OpenCondition`. |
| `StackFacts.ExitTargetAsWritten` | ssa/builder.py:213-223 | On stacks of equal length, the model's exit rule is the code's test: `len(while_nodes) >= 2` and the second-to-last recorded statement is a `while`. |
| `StackFacts.InitialAligned` | ssa/builder.py:86-101 | The build starts with both loop stacks empty, so of equal length. |
| `StackFacts.OpenKeepsAligned` | ssa/builder.py:186-190 | Opening a loop pushes on both stacks; opening an `if` pushes on neither. |
| `StackFacts.CloseKeepsAligned` | ssa/builder.py:213-225 | Closing a loop pops from both stacks, and the entry it writes is the code's exit rule. |
| `StackFacts.ConditionKeepsAligned` | ssa/builder.py:164-225 | At every step of a condition's visit (after opening, after the body, after the else branch, after closing) the stacks have equal length. A loop's entry is the code's exit rule read on those stacks. |
| `StackFacts.NodeKeepsAligned` | ssa/builder.py:107-111 | Every successful visit keeps the two stacks of equal length. |
| `StackFacts.ListKeepsAligned` | ssa/builder.py:113-118 | The same for a list of nodes. |
| `StackFacts.BuildAligned` | ssa/builder.py:82-118 | After a successful build the stacks have equal length and are empty. |
| `Builder.CFGBuilder.CloseLoop` | ssa/builder.py:213-225 | Writes the exit entry: the enclosing header if two loops are open and the enclosing loop's last statement is a `while`, else counter + 1. Then it pops both stacks. Result: `Traversal.CloseLoop`. |
| `Builder.CFGBuilder.VisitBreak` | ssa/builder.py:233-244 | Appends a `break` naming the top of `while_nodes`. With no open loop it fails with NoOpenLoop. Result: `Traversal.VisitBreak`. |
| `Builder.CFGBuilder.VisitContinue` | ssa/builder.py:246-257 | Appends a `continue` naming the top of `while_nodes`. With no open loop it fails with NoOpenLoop. Result: `Traversal.VisitContinue`. |
| `Builder.CFGBuilder.VisitFor` | ssa/builder.py:265-304 | Reads start/stop/step by the arity of `range` (1, 2 or 3; any other arity fails with MalformedRange). Assigns the start under the `for` node's id, draws the next id, and visits `while v < stop` with `for` data. Result: `Traversal.VisitFor`. |
| `Builder.CFGBuilder.VisitFunctionDef` | ssa/builder.py:323-363 | The parameter loop bumps each parameter and renders `def f(p.k, ...)`; its invariant ties the loop to `Traversal.BumpParams`. It then visits the body into its own list, appends the end node under a fresh id, patches the returns, registers the end node and restores the list. Result: `Traversal.VisitFunctionDef`. |
| `Builder.PatchReturns` | ssa/builder.py:360-361 | The loop over the function body's statements returns exactly `Traversal.SetEndToReturnAll` of them: the first nested definition's error, or all statements with their returns patched. |
| `Builder.CFGBuilder.VisitReturn` | ssa/builder.py:365-377 | Appends `return <value>` (a bare return renders `None`) with no end node yet. Result: `Traversal.VisitReturn`. |
| `Builder.CFGBuilder.VisitCall` | ssa/builder.py:379-406 | Appends the call statement `f(args)` under the current id. Result: `Traversal.VisitCall`. |
| `Builder.CallArgs` | ssa/builder.py:380-396 | The outer argument loop of a call statement returns exactly `Labels.CallArgsText`. A nested call adds `g(...)` with no separator after it. |
| `Builder.NestedArgs` | ssa/builder.py:388-395 | The inner argument loop, for a call passed as an argument, returns exactly `Labels.NestedArgsText`. |
| `Builder.CFGBuilder.AppendEnd` | ssa/builder.py:416-426 | Draws the next id and appends and registers the End node. Result: `Traversal.AppendEnd`. |
| `BuildFacts.BuildWellFormed` | ssa/builder.py:82-118 | After a successful build: Start (id 0) is first and End, with the final counter, is last. Pre-order ids are strictly increasing, so distinct, and lie in [0, counter]. `id2statement` equals the tree's registered nodes. `node_after_while` has one entry per loop header: the enclosing loop's header, or an id past every node of the loop (`BuildFacts.LoopExitEntry` gives the exact rule). Jumps name their innermost loop, returns their function's end node, and both stacks are empty. |
| `BuildFacts.AssignVersioning` | ssa/builder.py:120-155 | An assignment succeeds if and only if the value kind has a rendering branch. Then the target's version is the old one + 1 and every other version is unchanged. The counter grows by one, and exactly one statement `x.n = value` is appended and registered under that id. |
| `BuildFacts.SelfIncrementLabel` | ssa/builder.py:122-145 | `x = x + k` is labelled `x.{n+1} = x.{n} + k`: the right side keeps the version from before the bump. |
| `BuildFacts.AugAssignIsAssign` | ssa/builder.py:408-414 | An augmented assignment gives the same result as `v = v op e` visited in its place, and never fails. |
| `BuildFacts.VersionsNeverDecrease` | ssa/builder.py:101-145 | No visit lowers any version, and the table the build starts from reads version 0 for every name. |
| `VersionFacts.NodeKeepsVersion` | ssa/builder.py:120-145 | A successful visit keeps the version of every name the node does not assign (as a target of an assignment, augmented assignment or `for` loop, or as a parameter). |
| `VersionFacts.ListKeepsVersion` | ssa/builder.py:113-118 | The same for a list of nodes. |
| `VersionFacts.ConditionKeepsVersion` | ssa/builder.py:164-225 | The same for a condition or loop, whose `for` increment writes only the loop variable. |
| `VersionFacts.ForKeepsVersion` | ssa/builder.py:265-304 | The same for a `for` loop, which writes its target and whatever its body assigns. |
| `VersionFacts.FunctionDefKeepsVersion` | ssa/builder.py:323-363 | The same for a definition, which writes its parameters and whatever its body assigns. |
| `VersionFacts.BumpKeepsVersion` | ssa/builder.py:328-332 | The parameter loop leaves every name that is not a parameter at its version. |
| `VersionFacts.AssignKeepsVersion` | ssa/builder.py:120-155 | An assignment re-versions its target only. |
| `VersionFacts.UnassignedReadsZero` | ssa/builder.py:101-145 | A name the program never assigns reads version 0 when a successful build ends. |
| `BuildFacts.JumpTargets` | ssa/builder.py:233-257 | `break`/`continue` fail (with NoOpenLoop) if and only if no loop is open. Otherwise exactly one statement of the right kind is appended, with the drawn id, naming the top of `while_nodes`. |
| `BuildFacts.LoopExitEntry` | ssa/builder.py:186-225 | A loop's exit entry is the enclosing header when a loop is open and that loop's last statement, as written, is a `while`; otherwise it is one past the final counter of the loop's visit. No inner visit overwrites it. |
| `BuildFacts.WhileExitEntry` | ssa/builder.py:230-231 | The same for a `while` statement, whose header has the id its visit drew. |
| `BuildFacts.ConditionNesting` | ssa/builder.py:164-211 | An `if`/`while` appends exactly one statement, of the matching class, to the enclosing list and leaves the rest of that list unchanged. Its node has type IF, the test's label and the drawn id, and it is registered. Every child has a larger id drawn during the visit. |
| `BuildFacts.BumpParamsVersions` | ssa/builder.py:328-332 | After the parameter loop, each name's version has risen by the number of times it occurs among the parameters. |
| `BuildFacts.FunctionBoundaries` | ssa/builder.py:323-363 | A definition appends one function statement labelled `def f(...)`; its node is not registered. Its body ends in `End of f(...)`, which has the last id drawn and is registered. Every return in the body points at that end node, and the body's ids lie between the two nodes. |
| `BuildFacts.NestedDefinitionFails` | ssa/builder.py:308-321 | A function body with a definition directly inside it makes the outer definition fail. |
| `BuildFacts.VisitListSplit` | ssa/builder.py:113-118 | Visiting a concatenation is visiting the first part, then the second from where the first ended. The first error stops the visit. |
| `ReturnFacts.SetEndToReturnSpec` | ssa/builder.py:308-321 | Patching one statement succeeds if and only if it contains no function statement. Then every return in it points at the end node, and nothing else changes. |
| `ReturnFacts.SetEndToReturnAllSpec` | ssa/builder.py:360-361 | The same for a list of statements: it succeeds if and only if none of them contains a function statement. |
| `VisitFacts.VisitNodeExtends` | ssa/builder.py:107-111 | Every successful visit keeps the step invariant. The counter does not decrease, and the current list is only appended to. Appended ids are increasing and above the old counter. Registry, exit table, jumps and returns are extended consistently. Stacks are unchanged and versions do not decrease. |
| `VisitFacts.VisitListExtends` | ssa/builder.py:113-118 | A visit of a list keeps the same step invariant. |
| `VisitFacts.VisitAssignGrows` | ssa/builder.py:120-155 | An assignment keeps the step invariant. |
| `VisitFacts.VisitConditionGrows` | ssa/builder.py:164-225 | A condition keeps the step invariant: it is pushed and popped in balance, and its exit entry is correct and its only new one. |
| `VisitFacts.VisitBreakGrows` | ssa/builder.py:233-244 | A `break` keeps the step invariant. |
| `VisitFacts.VisitContinueGrows` | ssa/builder.py:246-257 | A `continue` keeps the step invariant. |
| `VisitFacts.VisitForGrows` | ssa/builder.py:265-304 | A `for` loop keeps the step invariant. |
| `VisitFacts.VisitFunctionDefGrows` | ssa/builder.py:323-363 | A function definition keeps the step invariant. The returns inside it are closed by its end node. |
| `VisitFacts.VisitReturnGrows` | ssa/builder.py:365-377 | A `return` keeps the step invariant. |
| `VisitFacts.VisitCallGrows` | ssa/builder.py:379-406 | A call statement keeps the step invariant. |
| `VisitFacts.ListKeepsStacks` | ssa/builder.py:188-225 | Visiting any list leaves `while_nodes` and `last_node_while` as it found them, so pushes and pops balance. |
| `ForFacts.ForIsWhile` | ssa/builder.py:265-304 | A `range` of the wrong arity fails with MalformedRange(arity). Otherwise, when the body's last statement is not a `while`, visiting the `for` loop equals visiting `v = start; while v < stop: body; v = v + step` (the assignment takes the `for` id, the header the next). |
| `ForLayout.ForLayoutAll` | ssa/builder.py:265-304 | For every body: a `range` of the wrong arity fails with MalformedRange(arity), and an empty body fails with EmptyLoopBody. A successful visit appends exactly two statements: `v.k = start` under the `for` node's id, with k one past v's old version, then the loop testing `v.k < stop` under the next id. The loop's body ends in `v.{m+1} = v.m + step`, with m no older than k. |
| `ForLayout.ForBodyEndingInWhile` | ssa/builder.py:186-201 | When the body ends in a `while` W: after a successful `for` visit, W (second to last in the loop's body) has the `for` loop's header as its exit entry. After a successful visit of the rewriting, W's entry is different from the header. |
| `ForLayout.LoopEndsInWhile` | ssa/builder.py:186-225 | A loop whose visited body ends in a `while` W and then an assignment: W's exit entry is the loop's own header when the last statement of the body as written is a `while`, and an id beyond W otherwise. |
| `ForFacts.ForLoopIsWhileLoop` | ssa/builder.py:192-201 | A loop with `for` data equals the same loop whose body already ends in the increment, provided the body's last statement is not a `while`. |
| `ForFacts.NodeShape` | ssa/builder.py:213-216 | Replacing the recorded last statements by others of the same kind (`while` or not) changes no visit's result except that stack itself. |
| `LabelFacts.CallLabel` | ssa/builder.py:379-396 | A call statement whose arguments are constants and names is labelled `f(` + the arguments joined by ", " + `)`. Names carry their current version. |
| `LabelFacts.NestedCallText` | ssa/builder.py:388-395 | The arguments of a nested call are rendered the same way: joined by ", ". |
| `LabelFacts.AssignCallText` | ssa/builder.py:135-142 | An assigned call whose arguments are constants and names renders as `f(` + the arguments joined by ", " + `)`, with names unversioned. |
| `LabelFacts.DefinitionLabel` | ssa/builder.py:326-334 | The parameter text is the parameters joined by ", ", the i-th one rendered at its old version plus the number of times it occurs among the first i + 1 parameters (`def f(x, x)` gives `x.1, x.2`). |
| `LabelFacts.DistinctBumpedOnce` | ssa/builder.py:328-331 | With distinct parameter names, each parameter is rendered at one past its old version. |
| `Labels.NatToStringRoundTrip` | ssa/builder.py:123 | A version's decimal rendering reads back as the same number. |
| `Labels.VersionedNameRoundTrip` | ssa/builder.py:122-123 | `name.version` splits back at its last dot into the name and the version's digits. |

## Left out

- Parsing (`ast.parse`) and Python's `ast` classes are left out. The program arrives as the `Ast.Node` datatype, restricted to the kinds the builder handles.
- `NodeVisitor.generic_visit` is not modelled as a library. A node kind without a visitor, such as `Module` or `Expr`, is `Ast.Generic(children)`: it draws an id and its children are visited. The id drawn for an expression statement around a call therefore never appears in the tree.
- ssa/graph.py (pydot rendering) and ssa/main.py (an earlier prototype that writes an image) are not part of this model.
- Constants are opaque text, already rendered as `str()` would render them. The `str + int` TypeError that a non-string constant raises as the last argument of a call statement (ssa/builder.py:383) is not modelled.
- A comparison reads only its first operator and comparator, as the code does. Chained comparisons are therefore not represented.
- `ssa_list` is modelled as its single table (`ssa_list[-1]`). The attribute `current` is left out: every read of it (ssa/builder.py:100, 155, 244, 257, 362, 377, 406, 426) follows a write in the same method, so it acts as a local variable.
- `id2statement` holds each statement's `NodeData`, not the statement object.
- Object identity and aliasing are modelled by value:
  - The condition appended at the start of `__visit_Condition` and filled through its `body`/`orelse` lists is appended once its lists are complete. The resulting tree is the same.
  - `set_end_to_return` rebuilds the statements instead of mutating the Return objects.
  - `while_nodes` holds header ids instead of statements.
  - The increment appended to a `for` body is added to a copy of the body, not to the AST.
- On an exception, Python leaves the half-updated builder behind the raised error. The model reports the error and says nothing about the fields.
- `FunctionStatement` and `ReturnStatement` are not defined in the shown source. They are reconstructed from their use: a function statement has a `body` and no `orelse`, and a return has an optional end node.
- `BreakStatement` and `ContinueStatement` are declared in ssa/statements.py:21-26 without a `while_statement` field, so the constructor calls at ssa/builder.py:235-241 and 248-254 would raise a TypeError as written. The model gives both the field the builder passes (the innermost loop's header id), which is evidently what the builder means.
- Input shapes that `Ast.Node` cannot express, on which the code raises an AttributeError, are left out:
  - a test that is not a comparison (`while True:`, `if x:`), ssa/builder.py:172;
  - an assignment target that is not a plain name (`a[i] = 1`), ssa/builder.py:121;
  - a callee that is not a plain name (`obj.f()`), ssa/builder.py:380;
  - a `for` iterator that is not a call (`for x in xs:`), ssa/builder.py:267;
  - a `for` target that is not a plain name (`for a, b in range(3):`), ssa/builder.py:266;
  - an augmented assignment target that is not a plain name (`a[i] += 1`), ssa/builder.py:409;
  - an assigned call whose callee is not a plain name (`x = obj.m()`), ssa/builder.py:136;
  - a nested call whose callee is not a plain name (`f(obj.m())`), ssa/builder.py:388.
- An assignment reads only its first target, as the code does (ssa/builder.py:121): in `a = b = 1` only `a` is versioned, so chained targets are not represented.
- A definition reads only its positional parameters `node.args.args` (ssa/builder.py:326): keyword-only, `*args` and `**kwargs` parameters are not represented.
- There is no phi insertion, snapshot or rollback, because the code has none.
