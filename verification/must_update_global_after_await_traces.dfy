/** Whole functions run through the "must update global after await" rule.
    Each trace lists, in traversal order, the events the rule listens to;
    events that change nothing and report nothing (other identifiers,
    `global` as a target, unrelated declarators) are left out.
    Each lemma computes the rule's state event by event and states which
    reads are reported. */
module MustUpdateGlobalAfterAwaitTraces {
  import opened Syntax
  import opened MustUpdateGlobalAfterAwait
  import opened MustUpdateGlobalAfterAwaitProperties

  /** `async function f() { let global = getGlobal(); if (cond) { await x();`
      — the opening shared by the two branch traces below. */
  function Opening(awaitAt: Position): seq<Event>
  {
    [BlockEnter, DeclareGlobal, BranchEnter(IfStatement), BlockEnter, AwaitExit(Some(awaitAt))]
  }

  /** The state after `Opening`: two blocks deep, inside the `if`, with the
      await recorded at depth 2. */
  function AfterOpening(awaitAt: Position): Record
  {
    Initial.(blocks := 2, globalDeclared := true, branchStack := [false], inBranch := true,
             hasAwait := true, awaitBlockLevel := Some(2), awaitNode := Some(awaitAt))
  }

  lemma OpeningRecordsAwait(awaitAt: Position)
    ensures Run(Initial, Opening(awaitAt)) == Trace(AfterOpening(awaitAt), [])
  {
    var s1 := Initial.(blocks := 1);
    Extend(Initial, [], Trace(Initial, []), BlockEnter, Outcome(s1, None));
    var t1 := [] + [BlockEnter];
    var s2 := s1.(globalDeclared := true);
    Extend(Initial, t1, Trace(s1, []), DeclareGlobal, Outcome(s2, None));
    var t2 := t1 + [DeclareGlobal];
    var s3 := s2.(branchStack := [false], inBranch := true);
    Extend(Initial, t2, Trace(s2, []), BranchEnter(IfStatement), Outcome(s3, None));
    var t3 := t2 + [BranchEnter(IfStatement)];
    var s4 := s3.(blocks := 2);
    Extend(Initial, t3, Trace(s3, []), BlockEnter, Outcome(s4, None));
    var t4 := t3 + [BlockEnter];
    Extend(Initial, t4, Trace(s4, []), AwaitExit(Some(awaitAt)), Outcome(AfterOpening(awaitAt), None));
    assert t4 + [AwaitExit(Some(awaitAt))] == Opening(awaitAt);
  }

  /** `return; } use(global);` — the rest of the function when the branch
      returns after the await. */
  function ReturnThenRead(readAt: Position): seq<Event>
  {
    [ReturnEnter, ReturnExit(InBlock), BlockExit, BranchExit(IfStatement), IdentifierEnter("global", AsArgument, readAt)]
  }

  /** `} use(global);` — the rest of the function when the branch does not
      return. */
  function Read(readAt: Position): seq<Event>
  {
    [BlockExit, BranchExit(IfStatement), IdentifierEnter("global", AsArgument, readAt)]
  }

  /** The state after `ReturnThenRead`: back at depth 1, outside the branch,
      still marked as having returned after the await. */
  function AfterReturnThenRead(awaitAt: Position): Record
  {
    AfterOpening(awaitAt).(returnAfterAwait := true, blocks := 1, branchStack := [], inBranch := false)
  }

  /** `return; }`: the return inside the `if` marks the function, and
      leaving the `if` block goes back to depth 1. */
  lemma ReturnMarks(awaitAt: Position)
    ensures Run(AfterOpening(awaitAt), [ReturnEnter, ReturnExit(InBlock), BlockExit])
            == Trace(AfterOpening(awaitAt).(returnAfterAwait := true, blocks := 1), [])
  {
    var s5 := AfterOpening(awaitAt);
    var s6 := s5.(returnAfterAwait := true);
    Extend(s5, [], Trace(s5, []), ReturnEnter, Outcome(s6, None));
    var t1 := [] + [ReturnEnter];
    Extend(s5, t1, Trace(s6, []), ReturnExit(InBlock), Outcome(s6, None));
    var t2 := t1 + [ReturnExit(InBlock)];
    Extend(s5, t2, Trace(s6, []), BlockExit, Outcome(s6.(blocks := 1), None));
    assert t2 + [BlockExit] == [ReturnEnter, ReturnExit(InBlock), BlockExit];
  }

  /** Leaving the `if` after the return: the read of `global` is quiet. */
  lemma ReadAfterReturnIsQuiet(awaitAt: Position, readAt: Position)
    ensures Run(AfterOpening(awaitAt).(returnAfterAwait := true, blocks := 1),
                [BranchExit(IfStatement), IdentifierEnter("global", AsArgument, readAt)])
            == Trace(AfterReturnThenRead(awaitAt), [])
  {
    var s8 := AfterOpening(awaitAt).(returnAfterAwait := true, blocks := 1);
    var s9 := AfterReturnThenRead(awaitAt);
    Extend(s8, [], Trace(s8, []), BranchExit(IfStatement), Outcome(s9, None));
    var t1 := [] + [BranchExit(IfStatement)];
    Extend(s8, t1, Trace(s9, []), IdentifierEnter("global", AsArgument, readAt), Outcome(s9, None));
    assert t1 + [IdentifierEnter("global", AsArgument, readAt)]
        == [BranchExit(IfStatement), IdentifierEnter("global", AsArgument, readAt)];
  }

  lemma ReturnMarksThenReadIsQuiet(awaitAt: Position, readAt: Position)
    ensures Run(AfterOpening(awaitAt), ReturnThenRead(readAt)) == Trace(AfterReturnThenRead(awaitAt), [])
  {
    ReturnMarks(awaitAt);
    ReadAfterReturnIsQuiet(awaitAt, readAt);
    var first := [ReturnEnter, ReturnExit(InBlock), BlockExit];
    var second := [BranchExit(IfStatement), IdentifierEnter("global", AsArgument, readAt)];
    assert first + second == ReturnThenRead(readAt);
    RunAppend(AfterOpening(awaitAt), first, second);
  }

  /** An await followed by a return in the same branch excuses the later read:
        if (cond) { await x(); return; } use(global);
      is not reported. */
  lemma BranchWithReturnSuppresses(awaitAt: Position, readAt: Position)
    ensures Run(Initial, Opening(awaitAt) + ReturnThenRead(readAt)).diagnostics == []
  {
    OpeningRecordsAwait(awaitAt);
    ReturnMarksThenReadIsQuiet(awaitAt, readAt);
    RunAppend(Initial, Opening(awaitAt), ReturnThenRead(readAt));
  }

  /** Without the return,
        if (cond) { await x(); } use(global);
      the read is reported once, citing the await. */
  lemma BranchWithoutReturnReports(awaitAt: Position, readAt: Position)
    ensures Run(Initial, Opening(awaitAt) + Read(readAt)).diagnostics
            == [Diagnostic(MessageId, readAt, At(awaitAt))]
  {
    OpeningRecordsAwait(awaitAt);
    var s5 := AfterOpening(awaitAt);
    var report := Diagnostic(MessageId, readAt, At(awaitAt));
    var s6 := s5.(blocks := 1);
    Extend(s5, [], Trace(s5, []), BlockExit, Outcome(s6, None));
    var t1 := [] + [BlockExit];
    var s7 := s6.(branchStack := [], inBranch := false);
    Extend(s5, t1, Trace(s6, []), BranchExit(IfStatement), Outcome(s7, None));
    var t2 := t1 + [BranchExit(IfStatement)];
    Extend(s5, t2, Trace(s7, []), IdentifierEnter("global", AsArgument, readAt), Outcome(s7, Some(report)));
    assert t2 + [IdentifierEnter("global", AsArgument, readAt)] == Read(readAt);
    RunAppend(Initial, Opening(awaitAt), Read(readAt));
  }

  /** `let global = getGlobal(); await x();` at the top of a function body. */
  function DeclareThenAwait(awaitAt: Position): seq<Event>
  {
    [BlockEnter, DeclareGlobal, AwaitExit(Some(awaitAt))]
  }

  function AfterDeclareThenAwait(awaitAt: Position): Record
  {
    Initial.(blocks := 1, globalDeclared := true, hasAwait := true, awaitBlockLevel := Some(1),
             awaitNode := Some(awaitAt))
  }

  lemma DeclareThenAwaitRecords(awaitAt: Position)
    ensures Run(Initial, DeclareThenAwait(awaitAt)) == Trace(AfterDeclareThenAwait(awaitAt), [])
  {
    var s1 := Initial.(blocks := 1);
    Extend(Initial, [], Trace(Initial, []), BlockEnter, Outcome(s1, None));
    var t1 := [] + [BlockEnter];
    var s2 := s1.(globalDeclared := true);
    Extend(Initial, t1, Trace(s1, []), DeclareGlobal, Outcome(s2, None));
    var t2 := t1 + [DeclareGlobal];
    Extend(Initial, t2, Trace(s2, []), AwaitExit(Some(awaitAt)), Outcome(AfterDeclareThenAwait(awaitAt), None));
    assert t2 + [AwaitExit(Some(awaitAt))] == DeclareThenAwait(awaitAt);
  }

  /** `let global = getGlobal(); await x(); global = getGlobal(); use(global);`
      is not reported; without the re-assignment the read is reported. */
  lemma ReassignmentAfterAwaitCures(awaitAt: Position, readAt: Position)
    ensures Run(Initial, DeclareThenAwait(awaitAt) + [AssignGlobal, IdentifierEnter("global", AsArgument, readAt)])
              .diagnostics == []
    ensures Run(Initial, DeclareThenAwait(awaitAt) + [IdentifierEnter("global", AsArgument, readAt)]).diagnostics
            == [Diagnostic(MessageId, readAt, At(awaitAt))]
  {
    DeclareThenAwaitRecords(awaitAt);
    var s3 := AfterDeclareThenAwait(awaitAt);
    var read := IdentifierEnter("global", AsArgument, readAt);
    var s4 := s3.(globalUpdatedAfterAwait := true);
    Extend(s3, [], Trace(s3, []), AssignGlobal, Outcome(s4, None));
    var t1 := [] + [AssignGlobal];
    Extend(s3, t1, Trace(s4, []), read, Outcome(s4, None));
    assert t1 + [read] == [AssignGlobal, read];
    RunAppend(Initial, DeclareThenAwait(awaitAt), [AssignGlobal, read]);
    var report := Diagnostic(MessageId, readAt, At(awaitAt));
    Extend(s3, [], Trace(s3, []), read, Outcome(s3, Some(report)));
    assert [] + [read] == [read];
    RunAppend(Initial, DeclareThenAwait(awaitAt), [read]);
  }

  /** Declaring `global` again after an await does not cure it: only an
      assignment does. With `var`, the same block may declare it twice:
        var global = getGlobal(); await x(); var global = getGlobal(); use(global);
      reports the read. */
  lemma RedeclarationAfterAwaitDoesNotCure(awaitAt: Position, readAt: Position)
    ensures Run(Initial, DeclareThenAwait(awaitAt) + [DeclareGlobal, IdentifierEnter("global", AsArgument, readAt)])
              .diagnostics == [Diagnostic(MessageId, readAt, At(awaitAt))]
  {
    DeclareThenAwaitRecords(awaitAt);
    var s3 := AfterDeclareThenAwait(awaitAt);
    var read := IdentifierEnter("global", AsArgument, readAt);
    var report := Diagnostic(MessageId, readAt, At(awaitAt));
    // the second declarator leaves `globalUpdatedAfterAwait` false
    Extend(s3, [], Trace(s3, []), DeclareGlobal, Outcome(s3, None));
    var t1 := [] + [DeclareGlobal];
    Extend(s3, t1, Trace(s3, []), read, Outcome(s3, Some(report)));
    assert t1 + [read] == [DeclareGlobal, read];
    RunAppend(Initial, DeclareThenAwait(awaitAt), [DeclareGlobal, read]);
  }

  /** `const g = async () => { await x(); };` */
  function InnerFunction(innerAwait: Position): seq<Event>
  {
    [BlockEnter, AwaitExit(Some(innerAwait)), BlockExit, FunctionExit(ArrowFunctionExpression)]
  }

  /** `let global = getGlobal();` at the top of a function body. */
  lemma DeclareOnly()
    ensures Run(Initial, [BlockEnter, DeclareGlobal]) == Trace(Initial.(blocks := 1, globalDeclared := true), [])
  {
    var s1 := Initial.(blocks := 1);
    Extend(Initial, [], Trace(Initial, []), BlockEnter, Outcome(s1, None));
    var t1 := [] + [BlockEnter];
    Extend(Initial, t1, Trace(s1, []), DeclareGlobal, Outcome(s1.(globalDeclared := true), None));
    assert t1 + [DeclareGlobal] == [BlockEnter, DeclareGlobal];
  }

  /** Inside the inner function's body, the await is recorded at depth 2. */
  lemma InnerAwaitRecorded(innerAwait: Position)
    ensures Run(Initial.(blocks := 1, globalDeclared := true), [BlockEnter, AwaitExit(Some(innerAwait))])
            == Trace(Initial.(blocks := 2, globalDeclared := true, hasAwait := true,
                              awaitBlockLevel := Some(2), awaitNode := Some(innerAwait)), [])
  {
    var s2 := Initial.(blocks := 1, globalDeclared := true);
    var s3 := s2.(blocks := 2);
    Extend(s2, [], Trace(s2, []), BlockEnter, Outcome(s3, None));
    var t1 := [] + [BlockEnter];
    Extend(s2, t1, Trace(s3, []), AwaitExit(Some(innerAwait)),
           Outcome(s3.(hasAwait := true, awaitBlockLevel := Some(2), awaitNode := Some(innerAwait)), None));
    assert t1 + [AwaitExit(Some(innerAwait))] == [BlockEnter, AwaitExit(Some(innerAwait))];
  }

  /** Leaving the inner function resets everything but the depth. */
  lemma InnerFunctionExitResets(innerAwait: Position)
    ensures Run(Initial.(blocks := 2, globalDeclared := true, hasAwait := true,
                         awaitBlockLevel := Some(2), awaitNode := Some(innerAwait)),
                [BlockExit, FunctionExit(ArrowFunctionExpression)])
            == Trace(Initial.(blocks := 1), [])
  {
    var s4 := Initial.(blocks := 2, globalDeclared := true, hasAwait := true,
                       awaitBlockLevel := Some(2), awaitNode := Some(innerAwait));
    var s5 := s4.(blocks := 1);
    Extend(s4, [], Trace(s4, []), BlockExit, Outcome(s5, None));
    var t1 := [] + [BlockExit];
    Extend(s4, t1, Trace(s5, []), FunctionExit(ArrowFunctionExpression), Outcome(Initial.(blocks := 1), None));
    assert t1 + [FunctionExit(ArrowFunctionExpression)] == [BlockExit, FunctionExit(ArrowFunctionExpression)];
  }

  /** With nothing declared, the outer await and the read are both ignored. */
  lemma UndeclaredAwaitThenReadIsQuiet(outerAwait: Position, readAt: Position)
    ensures Run(Initial.(blocks := 1), [AwaitExit(Some(outerAwait)), IdentifierEnter("global", AsArgument, readAt)])
            == Trace(Initial.(blocks := 1), [])
  {
    var s6 := Initial.(blocks := 1);
    Extend(s6, [], Trace(s6, []), AwaitExit(Some(outerAwait)), Outcome(s6, None));
    var t1 := [] + [AwaitExit(Some(outerAwait))];
    Extend(s6, t1, Trace(s6, []), IdentifierEnter("global", AsArgument, readAt), Outcome(s6, None));
    assert t1 + [IdentifierEnter("global", AsArgument, readAt)]
        == [AwaitExit(Some(outerAwait)), IdentifierEnter("global", AsArgument, readAt)];
  }

  /** An inner function is not a scope of its own: leaving it resets the
      whole state, so the outer acquisition is forgotten too. After
        let global = getGlobal();
        const g = async () => { await x(); };
        await y();
        use(global);
      the read is not reported, because `global` no longer counts as declared
      when the outer await is left. */
  lemma InnerFunctionExitForgetsOuterAcquisition(innerAwait: Position, outerAwait: Position, readAt: Position)
    ensures Run(Initial, [BlockEnter, DeclareGlobal] + InnerFunction(innerAwait)
                         + [AwaitExit(Some(outerAwait)), IdentifierEnter("global", AsArgument, readAt)]).diagnostics == []
  {
    var declare := [BlockEnter, DeclareGlobal];
    var enter := [BlockEnter, AwaitExit(Some(innerAwait))];
    var leave := [BlockExit, FunctionExit(ArrowFunctionExpression)];
    var tail := [AwaitExit(Some(outerAwait)), IdentifierEnter("global", AsArgument, readAt)];
    DeclareOnly();
    InnerAwaitRecorded(innerAwait);
    InnerFunctionExitResets(innerAwait);
    UndeclaredAwaitThenReadIsQuiet(outerAwait, readAt);
    RunAppend(Initial, declare, enter);
    RunAppend(Initial, declare + enter, leave);
    assert declare + enter + leave == declare + InnerFunction(innerAwait);
    RunAppend(Initial, declare + InnerFunction(innerAwait), tail);
  }

  /** A function exit inside nested branches empties the branch stack, so
      after `if (a) { if (b) { f(() => {}); }` the outer `if` no longer counts
      as a branch: the statements of a branch restore its context only when
      they hold no scope exit. */
  lemma InnerFunctionExitLeavesBranch()
    ensures Run(Initial, [BranchEnter(IfStatement), BranchEnter(IfStatement),
                          FunctionExit(ArrowFunctionExpression), BranchExit(IfStatement)]).state.inBranch == false
  {
    var s1 := Initial.(branchStack := [false], inBranch := true);
    Extend(Initial, [], Trace(Initial, []), BranchEnter(IfStatement), Outcome(s1, None));
    var t1 := [] + [BranchEnter(IfStatement)];
    var s2 := Initial.(branchStack := [false, true], inBranch := true);
    Extend(Initial, t1, Trace(s1, []), BranchEnter(IfStatement), Outcome(s2, None));
    var t2 := t1 + [BranchEnter(IfStatement)];
    Extend(Initial, t2, Trace(s2, []), FunctionExit(ArrowFunctionExpression), Outcome(Initial, None));
    var t3 := t2 + [FunctionExit(ArrowFunctionExpression)];
    Extend(Initial, t3, Trace(Initial, []), BranchExit(IfStatement), Outcome(Initial, None));
    assert t3 + [BranchExit(IfStatement)]
        == [BranchEnter(IfStatement), BranchEnter(IfStatement), FunctionExit(ArrowFunctionExpression), BranchExit(IfStatement)];
  }
}
