/** What the "must update global after await" rule guarantees, stated about
    the step function `Step` (one callback) and the fold `Run` (a traversal). */
module MustUpdateGlobalAfterAwaitProperties {
  import opened Syntax
  import opened MustUpdateGlobalAfterAwait

  // ---------------------------------------------------------------------
  // Branch context
  // ---------------------------------------------------------------------

  /** Entering and then leaving an `if` or a `switch` gives back the state
      exactly as it was, in particular `inBranch` and the branch stack. */
  lemma BranchEnterExitRestores(s: Record, entered: BranchKind, exited: BranchKind)
    ensures Step(s, BranchEnter(entered)).report == None
    ensures var inside := Step(s, BranchEnter(entered)).state;
            inside.inBranch && |inside.branchStack| == |s.branchStack| + 1
            && Step(inside, BranchExit(exited)) == Outcome(s, None)
  {
    var inside := Step(s, BranchEnter(entered)).state;
    assert inside.branchStack[..|inside.branchStack| - 1] == s.branchStack;
  }

  /** A statement as the traversal sees it: a single event, or a branch
      construct whose enter and exit events surround its body. */
  datatype Stmt =
    | Simple(e: Event)
    | Branch(kind: BranchKind, body: seq<Stmt>)

  function Flatten(t: Stmt): seq<Event>
    decreases t
  {
    match t
    case Simple(e) => [e]
    case Branch(k, body) => [BranchEnter(k)] + FlattenAll(body) + [BranchExit(k)]
  }

  function FlattenAll(ts: seq<Stmt>): seq<Event>
    decreases ts
  {
    if ts == [] then [] else Flatten(ts[0]) + FlattenAll(ts[1..])
  }

  /** An event that neither opens nor closes a branch and cannot end the
      scope: no function or program exit, and no return whose parent is a
      "BlockExpression". */
  predicate Plain(e: Event)
  {
    && !e.BranchEnter? && !e.BranchExit?
    && !e.FunctionExit? && !e.ProgramExit?
    && !(e.ReturnExit? && e.returnParent.kind == "BlockExpression")
  }

  predicate AllPlain(t: Stmt)
    decreases t
  {
    match t
    case Simple(e) => Plain(e)
    case Branch(_, body) => AllPlainSeq(body)
  }

  predicate AllPlainSeq(ts: seq<Stmt>)
    decreases ts
  {
    ts == [] || (AllPlain(ts[0]) && AllPlainSeq(ts[1..]))
  }

  /** Running two traces one after the other is running their concatenation. */
  lemma {:induction false} RunAppend(s: Record, a: seq<Event>, b: seq<Event>)
    ensures Run(s, a + b).state == Run(Run(s, a).state, b).state
    ensures Run(s, a + b).diagnostics == Run(s, a).diagnostics + Run(Run(s, a).state, b).diagnostics
    decreases |b|
  {
    if b == [] {
      assert a + b == a;
    } else {
      var b' := b[..|b| - 1];
      assert (a + b)[..|a + b| - 1] == a + b';
      assert (a + b)[|a + b| - 1] == b[|b| - 1];
      RunAppend(s, a, b');
    }
  }

  /** Leaving a branch pops the flag pushed on entry. */
  lemma BranchExitPops(s: Record, k: BranchKind)
    requires |s.branchStack| > 0
    ensures Step(s, BranchExit(k)).state.inBranch == s.branchStack[|s.branchStack| - 1]
    ensures Step(s, BranchExit(k)).state.branchStack == s.branchStack[..|s.branchStack| - 1]
  {
  }

  /** A well-nested statement restores the branch context it started in:
      after the statement `inBranch` and the branch stack are as before.
      So a branch nested in a branch still counts as "in branch" once the
      inner one is left. */
  lemma {:induction false} BranchRestoresContext(s: Record, t: Stmt)
    requires AllPlain(t)
    ensures Run(s, Flatten(t)).state.inBranch == s.inBranch
    ensures Run(s, Flatten(t)).state.branchStack == s.branchStack
    decreases t
  {
    match t
    case Simple(e) =>
      assert Flatten(t)[..0] == [];
    case Branch(k, body) =>
      var enter := [BranchEnter(k)];
      assert enter[..0] == [];
      var s1 := Run(s, enter).state;
      BodyRestoresContext(s1, body);
      RunAppend(s, enter, FlattenAll(body));
      RunAppend(s, enter + FlattenAll(body), [BranchExit(k)]);
      assert [BranchExit(k)][..0] == [];
      var s2 := Run(s, enter + FlattenAll(body)).state;
      assert s2.branchStack == s.branchStack + [s.inBranch];
      BranchExitPops(s2, k);
  }

  lemma {:induction false} BodyRestoresContext(s: Record, ts: seq<Stmt>)
    requires AllPlainSeq(ts)
    ensures Run(s, FlattenAll(ts)).state.inBranch == s.inBranch
    ensures Run(s, FlattenAll(ts)).state.branchStack == s.branchStack
    decreases ts
  {
    if ts != [] {
      BranchRestoresContext(s, ts[0]);
      var s1 := Run(s, Flatten(ts[0])).state;
      BodyRestoresContext(s1, ts[1..]);
      RunAppend(s, Flatten(ts[0]), FlattenAll(ts[1..]));
    }
  }

  // ---------------------------------------------------------------------
  // Await
  // ---------------------------------------------------------------------

  /** Leaving an await before `global` is declared changes nothing. */
  lemma AwaitWhileUndeclaredChangesNothing(s: Record, node: Option<Position>)
    requires !s.globalDeclared
    ensures Step(s, AwaitExit(node)) == Outcome(s, None)
  {
  }

  /** Leaving an await once `global` is declared records it: `hasAwait`, the
      current block depth, the await's position, and `global` is no longer
      up to date; nothing else changes. */
  lemma AwaitWhileDeclaredRecords(s: Record, at: Position)
    requires s.globalDeclared
    ensures var r := Step(s, AwaitExit(Some(at))).state;
            && r.hasAwait && r.awaitBlockLevel == Some(s.blocks) && r.awaitNode == Some(at)
            && !r.globalUpdatedAfterAwait
            && r.(hasAwait := s.hasAwait, awaitBlockLevel := s.awaitBlockLevel, awaitNode := s.awaitNode,
                  globalUpdatedAfterAwait := s.globalUpdatedAfterAwait) == s
  {
  }

  // ---------------------------------------------------------------------
  // The invariant
  // ---------------------------------------------------------------------

  /** Every callback keeps `Consistent`, and a report made in a consistent
      state cites the recorded await, never the `'unknown'` fallback. */
  lemma StepKeepsConsistent(s: Record, e: Event)
    requires Consistent(s)
    ensures Consistent(Step(s, e).state)
    ensures Step(s, e).report.Some? ==> Step(s, e).report.value.before.At?
  {
  }

  lemma {:induction false} RunKeepsConsistent(s: Record, events: seq<Event>)
    requires Consistent(s)
    ensures Consistent(Run(s, events).state)
    ensures forall d | d in Run(s, events).diagnostics :: d.before.At?
    decreases |events|
  {
    if events != [] {
      var prefix := events[..|events| - 1];
      RunKeepsConsistent(s, prefix);
      StepKeepsConsistent(Run(s, prefix).state, events[|events| - 1]);
    }
  }

  /** The initial state is consistent, so every state a file reaches is, and
      the `'unknown'` fallback never shows in a report. */
  lemma UnknownIsUnreachable(events: seq<Event>)
    ensures Consistent(Run(Initial, events).state)
    ensures forall d | d in Run(Initial, events).diagnostics :: d.before != Unknown
  {
    RunKeepsConsistent(Initial, events);
  }

  // ---------------------------------------------------------------------
  // Acquisitions
  // ---------------------------------------------------------------------

  /** `global = getGlobal()` or `global = getUntypedGlobal()` declares
      `global`, and in a consistent state leaves it up to date exactly when
      an await is recorded; nothing else changes and nothing is reported. */
  lemma AcquiringAssignment(s: Record, callee: string)
    requires Consistent(s)
    requires callee == "getGlobal" || callee == "getUntypedGlobal"
    ensures var o := Step(s, AssignmentEnter(Identifier("global"), CallExpression(Some(callee))));
            && o.report == None
            && o.state.globalDeclared
            && (o.state.globalUpdatedAfterAwait <==> s.hasAwait)
            && o.state.(globalDeclared := s.globalDeclared, globalUpdatedAfterAwait := s.globalUpdatedAfterAwait) == s
  {
  }

  /** An assignment to anything but the identifier `global`, or of anything
      but a `getGlobal()`/`getUntypedGlobal()` call, changes nothing. */
  lemma OtherAssignmentChangesNothing(s: Record, left: Node, right: Node)
    requires !IsGlobal(left) || !IsAcquisition(right)
    ensures Step(s, AssignmentEnter(left, right)) == Outcome(s, None)
  {
  }

  /** A declarator never makes `global` up to date after an await: at most
      it sets `globalDeclared`. */
  lemma DeclaratorOnlyDeclares(s: Record, id: Node, init: Option<Node>)
    ensures var o := Step(s, DeclaratorEnter(id, init));
            && o.report == None
            && (o.state.globalDeclared <==> s.globalDeclared || (IsGlobal(id) && init.Some? && IsAcquisition(init.value)))
            && o.state.(globalDeclared := s.globalDeclared) == s
  {
  }

  // ---------------------------------------------------------------------
  // Reads of `global`
  // ---------------------------------------------------------------------

  /** An identifier is reported exactly when it reads `global` (is neither an
      assignment's left side nor a declarator's id) in a state where
      `global` was declared, an await followed, and neither an update nor a
      return in a branch came since. The state does not change, and a report
      cites the recorded await. */
  lemma IdentifierReportedIff(s: Record, name: string, parent: Parent, at: Position)
    requires Consistent(s)
    ensures var o := Step(s, IdentifierEnter(name, parent, at));
            && o.state == s
            && (o.report.Some? <==>
                 && name == "global"
                 && !(parent.kind == "AssignmentExpression" && parent.slot == Left)
                 && !(parent.kind == "VariableDeclarator" && parent.slot == Id)
                 && s.globalDeclared && s.hasAwait && !s.globalUpdatedAfterAwait && !s.returnAfterAwait)
            && (o.report.Some? ==> o.report.value == Diagnostic(MessageId, at, At(s.awaitNode.value)))
  {
  }

  // ---------------------------------------------------------------------
  // Returns and the end of a scope
  // ---------------------------------------------------------------------

  /** A return inside a branch while `global` is stale sets
      `returnAfterAwait`; any other return leaves the state as it is. */
  lemma ReturnEnterMarks(s: Record)
    ensures var r := Step(s, ReturnEnter).state;
            && r.(returnAfterAwait := s.returnAfterAwait) == s
            && (r.returnAfterAwait <==> s.returnAfterAwait || (s.hasAwait && !s.globalUpdatedAfterAwait && s.inBranch))
  {
  }

  /** Once set, `returnAfterAwait` stays set: each callback either keeps it
      or is an `endFunction` reset. */
  lemma ReturnAfterAwaitStaysUntilReset(s: Record, e: Event)
    requires s.returnAfterAwait
    ensures Step(s, e).state.returnAfterAwait || Step(s, e).state == Initial.(blocks := s.blocks)
  {
  }

  /** Every function exit and the program exit reset every variable but the
      block counter. */
  lemma ScopeExitResets(s: Record, e: Event)
    requires e.FunctionExit? || e.ProgramExit?
    ensures Step(s, e) == Outcome(Initial.(blocks := s.blocks), None)
  {
  }

  // ---------------------------------------------------------------------
  // Traces without reports
  // ---------------------------------------------------------------------

  /** `global` cannot be reported as stale in this state: no await is
      recorded, or `global` was updated, or a return in a branch came since. */
  predicate Quiet(s: Record)
  {
    !s.hasAwait || s.globalUpdatedAfterAwait || s.returnAfterAwait
  }

  /** One callback other than leaving an await keeps a quiet state quiet and
      reports nothing. */
  lemma QuietStep(s: Record, e: Event)
    requires Quiet(s) && !e.AwaitExit?
    ensures Quiet(Step(s, e).state) && Step(s, e).report == None
  {
  }

  /** From a quiet state, nothing is reported until the next await: updates,
      returns, branches, blocks, declarations and scope exits keep it quiet. */
  lemma {:induction false} QuietUntilNextAwait(s: Record, events: seq<Event>)
    requires Quiet(s)
    requires forall i | 0 <= i < |events| :: !events[i].AwaitExit?
    ensures Quiet(Run(s, events).state)
    ensures Run(s, events).diagnostics == []
    decreases |events|
  {
    if events != [] {
      var prefix := events[..|events| - 1];
      QuietUntilNextAwait(s, prefix);
      QuietStep(Run(s, prefix).state, events[|events| - 1]);
    }
  }

  /** A file with no await is never reported, however often it reads `global`. */
  lemma NoAwaitNoReport(events: seq<Event>)
    requires forall i | 0 <= i < |events| :: !events[i].AwaitExit?
    ensures Run(Initial, events).diagnostics == []
  {
    QuietUntilNextAwait(Initial, events);
  }

  /** Re-acquiring `global` after an await silences every later read until
      the next await. */
  lemma ReacquireCures(s: Record, callee: string, events: seq<Event>)
    requires Consistent(s) && s.hasAwait
    requires callee == "getGlobal" || callee == "getUntypedGlobal"
    requires forall i | 0 <= i < |events| :: !events[i].AwaitExit?
    ensures Run(s, [AssignmentEnter(Identifier("global"), CallExpression(Some(callee)))] + events).diagnostics == []
  {
    var assign := [AssignmentEnter(Identifier("global"), CallExpression(Some(callee)))];
    assert assign[..0] == [];
    RunAppend(s, assign, events);
    QuietUntilNextAwait(Run(s, assign).state, events);
  }

  // ---------------------------------------------------------------------
  // Traces that report every read
  // ---------------------------------------------------------------------

  /** `global` was declared, an await followed, and neither an update nor a
      return in a branch came since: every read of `global` is reported. */
  predicate Stale(s: Record)
  {
    s.globalDeclared && s.hasAwait && !s.globalUpdatedAfterAwait && !s.returnAfterAwait
  }

  /** An event that cannot cure staleness: not a re-acquisition of `global`,
      not a return, and no end of the scope. */
  predicate KeepsStale(e: Event)
  {
    && !e.FunctionExit? && !e.ProgramExit? && !e.ReturnEnter?
    && !(e.ReturnExit? && e.returnParent.kind == "BlockExpression")
    && !(e.AssignmentEnter? && IsGlobal(e.left) && IsAcquisition(e.right))
  }

  /** A read of `global`: the identifier, neither an assignment's left side
      nor a declarator's id. */
  predicate IsRead(e: Event)
  {
    && e.IdentifierEnter? && e.name == "global"
    && !(e.parent.kind == "AssignmentExpression" && e.parent.slot == Left)
    && !(e.parent.kind == "VariableDeclarator" && e.parent.slot == Id)
  }

  /** The positions of the reads of `global` among the events, in order. */
  function ReadsOfGlobal(events: seq<Event>): seq<Position>
  {
    if events == [] then []
    else
      var last := events[|events| - 1];
      ReadsOfGlobal(events[..|events| - 1]) + if IsRead(last) then [last.at] else []
  }

  /** The positions the diagnostics are reported at, in order. */
  function Positions(ds: seq<Diagnostic>): seq<Position>
  {
    if ds == [] then [] else Positions(ds[..|ds| - 1]) + [ds[|ds| - 1].node]
  }

  /** One callback that cannot cure staleness keeps the state stale and
      reports exactly when it is a read of `global`, at the read. */
  lemma StaleStep(s: Record, e: Event)
    requires Stale(s) && KeepsStale(e)
    ensures Stale(Step(s, e).state)
    ensures Step(s, e).report.Some? <==> IsRead(e)
    ensures IsRead(e) ==> Step(s, e).report.value.node == e.at && Step(s, e).report.value.messageId == MessageId
  {
  }

  /** From a stale state, until something can cure it, every read of
      `global` is reported, in order, at the read, and nothing else is. */
  lemma {:induction false} StaleUntilCured(s: Record, events: seq<Event>)
    requires Stale(s)
    requires forall i | 0 <= i < |events| :: KeepsStale(events[i])
    ensures Stale(Run(s, events).state)
    ensures Positions(Run(s, events).diagnostics) == ReadsOfGlobal(events)
    ensures forall d | d in Run(s, events).diagnostics :: d.messageId == MessageId
    decreases |events|
  {
    if events != [] {
      var prefix := events[..|events| - 1];
      var last := events[|events| - 1];
      StaleUntilCured(s, prefix);
      var t := Run(s, prefix);
      StaleStep(t.state, last);
      var o := Step(t.state, last);
      if o.report.Some? {
        var ds := t.diagnostics + [o.report.value];
        assert ds[..|ds| - 1] == t.diagnostics;
      } else {
        assert t.diagnostics + [] == t.diagnostics;
      }
    }
  }

  // ---------------------------------------------------------------------
  // Building blocks for whole-function traces
  // ---------------------------------------------------------------------

  const DeclareGlobal := DeclaratorEnter(Identifier("global"), Some(CallExpression(Some("getGlobal"))))
  const AssignGlobal := AssignmentEnter(Identifier("global"), CallExpression(Some("getGlobal")))
  const InBlock := Parent("BlockStatement", Elsewhere)
  const AsArgument := Parent("CallExpression", Elsewhere)

  /** Extends a computed trace by one computed step: the unfolding of `Run`
      that whole-function traces are computed with. */
  lemma Extend(s: Record, prefix: seq<Event>, before: Trace, e: Event, o: Outcome)
    requires Run(s, prefix) == before
    requires Step(before.state, e) == o
    ensures Run(s, prefix + [e]) == Trace(o.state, before.diagnostics + if o.report.Some? then [o.report.value] else [])
  {
    assert (prefix + [e])[..|prefix|] == prefix;
  }
}
