/** The "must update global after await" rule.

    The rule keeps its state in closure variables that the visitor callbacks
    update in place. Here that state is the class `Rule`, one method per
    callback, and the same state as a value is the datatype `Record`, so that
    the effect of one callback (`Step`) and of a whole traversal (`Run`) can
    be stated and reasoned about as functions. `Rule.Handle` and `Lint` are
    proved to behave exactly as `Step` and `Run` say.

    The traversal itself belongs to the linter host: it is given here as a
    sequence of visitor events in the order the host fires them. */
module MustUpdateGlobalAfterAwait {
  import opened Syntax

  /** The three function node types whose exit ends the tracked scope. */
  datatype FunctionKind = FunctionDeclaration | FunctionExpression | ArrowFunctionExpression

  /** The two statement types that open a branch. */
  datatype BranchKind = IfStatement | SwitchStatement

  /** One visitor callback invocation, with the node facts that callback reads. */
  datatype Event =
    | FunctionExit(kind: FunctionKind)
    | BranchEnter(entered: BranchKind)
    | BranchExit(exited: BranchKind)
    | AwaitExit(awaitAt: Option<Position>)  // None: the callback got no node
    | BlockEnter
    | BlockExit
    | ReturnEnter
    | ReturnExit(returnParent: Parent)
    | AssignmentEnter(left: Node, right: Node)
    | DeclaratorEnter(id: Node, init: Option<Node>)
    | IdentifierEnter(name: string, parent: Parent, at: Position)
    | ProgramExit

  const MessageId := "mustUpdateGlobalAfterAwait"

  /** The `before` data of a report: where the await was, or the literal
      fallback used when no await node is recorded. */
  datatype Before = At(position: Position) | Unknown

  /** One report: the message id, the position of the stale read and the
      position of the await that made it stale. */
  datatype Diagnostic = Diagnostic(messageId: string, node: Position, before: Before)

  /** The closure state of one rule instance, as a value. `awaitBlockLevel`
      is None where the source holds `undefined`. */
  datatype Record = Record(
    blocks: int,
    awaitNode: Option<Position>,
    hasAwait: bool,
    awaitBlockLevel: Option<int>,
    globalDeclared: bool,
    globalUpdatedAfterAwait: bool,
    returnAfterAwait: bool,
    inBranch: bool,
    branchStack: seq<bool>)

  /** The state a fresh rule instance starts in. */
  const Initial := Record(0, None, false, None, false, false, false, false, [])

  /** `endFunction`: every variable back to its initial value, except the
      block counter, which is never reset. */
  function Reset(s: Record): (r: Record)
    ensures r.blocks == s.blocks && r.branchStack == [] && !r.hasAwait && !r.globalDeclared
  {
    Initial.(blocks := s.blocks)
  }

  /** JavaScript truthiness of `awaitBlockLevel`: `undefined` and 0 are false. */
  predicate Truthy(level: Option<int>)
  {
    level.Some? && level.value != 0
  }

  /** The node is the identifier `global`. */
  predicate IsGlobal(n: Node)
  {
    n.Identifier? && n.name == "global"
  }

  /** The node is a call of `getGlobal` or `getUntypedGlobal`. */
  predicate IsAcquisition(n: Node)
  {
    n.CallExpression? && (n.callee == Some("getGlobal") || n.callee == Some("getUntypedGlobal"))
  }

  /** The invariant every reachable state keeps: an await is only recorded
      once `global` is declared, the await node and block level travel with
      `hasAwait`, and the two flags about what happened after the await are
      only ever set while an await is recorded. */
  ghost predicate Consistent(s: Record)
  {
    && (s.hasAwait ==> s.globalDeclared)
    && (s.hasAwait <==> s.awaitNode.Some?)
    && (s.awaitBlockLevel.Some? ==> s.hasAwait)
    && (s.globalUpdatedAfterAwait ==> s.hasAwait)
    && (s.returnAfterAwait ==> s.hasAwait)
  }

  /** What one callback does: the new state and the report it emits, if any. */
  datatype Outcome = Outcome(state: Record, report: Option<Diagnostic>)

  function Step(s: Record, e: Event): Outcome
  {
    match e
    case FunctionExit(_) => Outcome(Reset(s), None)
    case ProgramExit => Outcome(Reset(s), None)
    case BranchEnter(_) =>
      Outcome(s.(branchStack := s.branchStack + [s.inBranch], inBranch := true), None)
    case BranchExit(_) =>
      // popping an empty stack yields undefined, which is falsy
      if |s.branchStack| == 0 then Outcome(s.(inBranch := false), None)
      else Outcome(s.(inBranch := s.branchStack[|s.branchStack| - 1],
                      branchStack := s.branchStack[..|s.branchStack| - 1]), None)
    case AwaitExit(node) =>
      if node.Some? && s.globalDeclared then
        Outcome(s.(hasAwait := true, awaitBlockLevel := Some(s.blocks), awaitNode := node,
                   globalUpdatedAfterAwait := false), None)
      else Outcome(s, None)
    case BlockEnter => Outcome(s.(blocks := s.blocks + 1), None)
    case BlockExit =>
      var blocks := s.blocks - 1;
      if Truthy(s.awaitBlockLevel) && blocks == s.awaitBlockLevel.value then
        Outcome(s.(blocks := blocks, awaitBlockLevel := None), None)
      else Outcome(s.(blocks := blocks), None)
    case ReturnEnter =>
      if s.hasAwait && !s.globalUpdatedAfterAwait && s.inBranch then
        Outcome(s.(returnAfterAwait := true), None)
      else Outcome(s, None)
    case ReturnExit(parent) =>
      if s.hasAwait && Truthy(s.awaitBlockLevel) && s.blocks == s.awaitBlockLevel.value
         && parent.kind == "BlockExpression"
      then Outcome(Reset(s), None)
      else Outcome(s, None)
    case AssignmentEnter(left, right) =>
      if !IsGlobal(left) then Outcome(s, None)
      else if IsAcquisition(right) then
        Outcome(s.(globalDeclared := true,
                   globalUpdatedAfterAwait := if s.hasAwait then true else s.globalUpdatedAfterAwait), None)
      else Outcome(s, None)
    case DeclaratorEnter(id, init) =>
      if IsGlobal(id) && init.Some? && IsAcquisition(init.value) then
        Outcome(s.(globalDeclared := true), None)
      else Outcome(s, None)
    case IdentifierEnter(name, parent, at) =>
      if name != "global" then Outcome(s, None)
      else if parent.kind == "AssignmentExpression" && parent.slot == Left then Outcome(s, None)
      else if parent.kind == "VariableDeclarator" && parent.slot == Id then Outcome(s, None)
      else if s.globalDeclared && s.hasAwait && !s.globalUpdatedAfterAwait && !s.returnAfterAwait then
        var before := if s.awaitNode.Some? then At(s.awaitNode.value) else Unknown;
        Outcome(s, Some(Diagnostic(MessageId, at, before)))
      else Outcome(s, None)
  }

  /** The final state and the reports, in order, after a sequence of events. */
  datatype Trace = Trace(state: Record, diagnostics: seq<Diagnostic>)

  function Run(s: Record, events: seq<Event>): Trace
  {
    if events == [] then Trace(s, [])
    else
      var t := Run(s, events[..|events| - 1]);
      var o := Step(t.state, events[|events| - 1]);
      Trace(o.state, t.diagnostics + if o.report.Some? then [o.report.value] else [])
  }

  /** One instance of the rule, as created for one file. */
  class Rule {
    var blocks: int
    var awaitNode: Option<Position>
    var hasAwait: bool
    var awaitBlockLevel: Option<int>
    var globalDeclared: bool
    var globalUpdatedAfterAwait: bool
    var returnAfterAwait: bool
    var inBranch: bool
    var branchStack: seq<bool>

    /** The closure variables as a value. */
    function State(): Record
      reads this
    {
      Record(blocks, awaitNode, hasAwait, awaitBlockLevel, globalDeclared,
             globalUpdatedAfterAwait, returnAfterAwait, inBranch, branchStack)
    }

    ghost predicate Valid()
      reads this
    {
      Consistent(State())
    }

    /** `create`: the initial values of the closure variables. */
    constructor ()
      ensures Valid() && State() == Initial
    {
      blocks := 0;
      awaitNode := None;
      hasAwait := false;
      awaitBlockLevel := None;
      globalDeclared := false;
      globalUpdatedAfterAwait := false;
      returnAfterAwait := false;
      inBranch := false;
      branchStack := [];
    }

    /** `endFunction`, also the handler of every function exit and of the
        program exit. */
    method EndFunction()
      requires Valid()
      modifies this
      ensures Valid()
      ensures State() == Initial.(blocks := old(blocks))
    {
      hasAwait := false;
      awaitNode := None;
      awaitBlockLevel := None;
      globalDeclared := false;
      globalUpdatedAfterAwait := false;
      returnAfterAwait := false;
      inBranch := false;
      branchStack := [];
    }

    /** Entering an `IfStatement` or a `SwitchStatement`. */
    method EnterBranch()
      requires Valid()
      modifies this
      ensures Valid()
      ensures State() == old(State()).(branchStack := old(branchStack) + [old(inBranch)], inBranch := true)
    {
      branchStack := branchStack + [inBranch];
      inBranch := true;
    }

    /** Leaving an `IfStatement` or a `SwitchStatement`: the flag saved on
        entry comes back, or false when nothing was saved. */
    method ExitBranch()
      requires Valid()
      modifies this
      ensures Valid()
      ensures old(branchStack) == [] ==> State() == old(State()).(inBranch := false)
      ensures old(branchStack) != [] ==>
        old(branchStack) == branchStack + [inBranch] && State() == old(State()).(inBranch := inBranch, branchStack := branchStack)
    {
      if |branchStack| == 0 {
        inBranch := false;
      } else {
        inBranch := branchStack[|branchStack| - 1];
        branchStack := branchStack[..|branchStack| - 1];
      }
    }

    /** Leaving an `AwaitExpression`: recorded only once `global` is declared. */
    method ExitAwaitExpression(node: Option<Position>)
      requires Valid()
      modifies this
      ensures Valid()
      ensures node.Some? && old(globalDeclared) ==>
        State() == old(State()).(hasAwait := true, awaitBlockLevel := Some(old(blocks)), awaitNode := node,
                                 globalUpdatedAfterAwait := false)
      ensures node.None? || !old(globalDeclared) ==> State() == old(State())
    {
      if node.None? {
        return;
      }
      if globalDeclared {
        hasAwait := true;
        awaitBlockLevel := Some(blocks);
        awaitNode := node;
        globalUpdatedAfterAwait := false;
      }
    }

    method EnterBlockStatement()
      requires Valid()
      modifies this
      ensures Valid()
      ensures State() == old(State()).(blocks := old(blocks) + 1)
    {
      blocks := blocks + 1;
    }

    /** Leaving a `BlockStatement`: the await's block level is forgotten when
        the new depth equals it and it is truthy. */
    method ExitBlockStatement()
      requires Valid()
      modifies this
      ensures Valid()
      ensures blocks == old(blocks) - 1
      ensures awaitBlockLevel == if Truthy(old(awaitBlockLevel)) && blocks == old(awaitBlockLevel).value
                                 then None else old(awaitBlockLevel)
      ensures State() == old(State()).(blocks := blocks, awaitBlockLevel := awaitBlockLevel)
    {
      blocks := blocks - 1;
      if awaitBlockLevel.Some? && awaitBlockLevel.value != 0 && blocks == awaitBlockLevel.value {
        awaitBlockLevel := None;
      }
    }

    /** Entering a `ReturnStatement` inside a branch while `global` is stale. */
    method EnterReturnStatement()
      requires Valid()
      modifies this
      ensures Valid()
      ensures State() == old(State()).(returnAfterAwait := returnAfterAwait)
      ensures returnAfterAwait <==>
        old(returnAfterAwait) || (old(hasAwait) && !old(globalUpdatedAfterAwait) && old(inBranch))
    {
      if hasAwait && !globalUpdatedAfterAwait && inBranch {
        returnAfterAwait := true;
      }
    }

    /** Leaving a `ReturnStatement`: ends the scope only when the parent's
        type is the string "BlockExpression" and the await's block level is
        truthy and equal to the current depth. */
    method ExitReturnStatement(parent: Parent)
      requires Valid()
      modifies this
      ensures Valid()
      ensures var fires := old(hasAwait) && Truthy(old(awaitBlockLevel))
                           && old(blocks) == old(awaitBlockLevel).value && parent.kind == "BlockExpression";
              State() == if fires then Initial.(blocks := old(blocks)) else old(State())
    {
      if hasAwait && awaitBlockLevel.Some? && awaitBlockLevel.value != 0 && blocks == awaitBlockLevel.value
         && parent.kind == "BlockExpression" {
        EndFunction();
      }
    }

    /** Entering an `AssignmentExpression`: `global = getGlobal()` (or
        `getUntypedGlobal()`) declares `global` and, after an await, marks
        it updated; anything else is ignored. */
    method EnterAssignmentExpression(left: Node, right: Node)
      requires Valid()
      modifies this
      ensures Valid()
      ensures IsGlobal(left) && IsAcquisition(right) ==>
        State() == old(State()).(globalDeclared := true, globalUpdatedAfterAwait := globalUpdatedAfterAwait)
        && (globalUpdatedAfterAwait <==> old(hasAwait))
      ensures !(IsGlobal(left) && IsAcquisition(right)) ==> State() == old(State())
    {
      if !left.Identifier? || left.name != "global" {
        return;
      }
      if right.CallExpression? && (right.callee == Some("getGlobal") || right.callee == Some("getUntypedGlobal")) {
        if !globalDeclared {
          globalDeclared := true;
        }
        if hasAwait {
          globalUpdatedAfterAwait := true;
        }
      }
    }

    /** Entering a `VariableDeclarator`: `let global = getGlobal()` (or
        `getUntypedGlobal()`) declares `global` and touches nothing else. */
    method EnterVariableDeclarator(id: Node, init: Option<Node>)
      requires Valid()
      modifies this
      ensures Valid()
      ensures State() == old(State()).(globalDeclared := globalDeclared)
      ensures globalDeclared <==> old(globalDeclared) || (IsGlobal(id) && init.Some? && IsAcquisition(init.value))
    {
      if id.Identifier? && id.name == "global" && init.Some? && init.value.CallExpression?
         && (init.value.callee == Some("getGlobal") || init.value.callee == Some("getUntypedGlobal")) {
        globalDeclared := true;
      }
    }

    /** Entering an `Identifier`: a read of `global` (not the target of an
        assignment or a declarator) is reported exactly when `global` was
        declared, an await followed, and neither an update nor a return in
        a branch came after it. The report cites the await. */
    method EnterIdentifier(name: string, parent: Parent, at: Position) returns (report: Option<Diagnostic>)
      requires Valid()
      ensures report.Some? <==>
        && name == "global"
        && !(parent.kind == "AssignmentExpression" && parent.slot == Left)
        && !(parent.kind == "VariableDeclarator" && parent.slot == Id)
        && globalDeclared && hasAwait && !globalUpdatedAfterAwait && !returnAfterAwait
      ensures report.Some? ==> awaitNode.Some? && report.value == Diagnostic(MessageId, at, At(awaitNode.value))
    {
      report := None;
      if name != "global" {
        return;
      }
      if parent.kind == "AssignmentExpression" && parent.slot == Left {
        return;
      }
      if parent.kind == "VariableDeclarator" && parent.slot == Id {
        return;
      }
      if globalDeclared && hasAwait && !globalUpdatedAfterAwait && !returnAfterAwait {
        var before := if awaitNode.Some? then At(awaitNode.value) else Unknown;
        report := Some(Diagnostic(MessageId, at, before));
      }
    }

    /** The host's dispatch of one event to its callback. */
    method Handle(e: Event) returns (report: Option<Diagnostic>)
      requires Valid()
      modifies this
      ensures Valid()
      ensures State() == Step(old(State()), e).state
      ensures report == Step(old(State()), e).report
      ensures report.Some? ==> report.value.before.At?
    {
      report := None;
      match e
      case FunctionExit(_) => EndFunction();
      case ProgramExit => EndFunction();
      case BranchEnter(_) => EnterBranch();
      case BranchExit(_) => ExitBranch();
      case AwaitExit(node) => ExitAwaitExpression(node);
      case BlockEnter => EnterBlockStatement();
      case BlockExit => ExitBlockStatement();
      case ReturnEnter => EnterReturnStatement();
      case ReturnExit(parent) => ExitReturnStatement(parent);
      case AssignmentEnter(left, right) => EnterAssignmentExpression(left, right);
      case DeclaratorEnter(id, init) => EnterVariableDeclarator(id, init);
      case IdentifierEnter(name, parent, at) => report := EnterIdentifier(name, parent, at);
    }
  }

  /** Lints one file: a fresh rule instance receives the file's events in
      order and the reports are collected in the order they are made. Every
      report cites a recorded await, never the `'unknown'` fallback. */
  method Lint(events: seq<Event>) returns (diagnostics: seq<Diagnostic>)
    ensures diagnostics == Run(Initial, events).diagnostics
    ensures forall d | d in diagnostics :: d.before.At?
  {
    var rule := new Rule();
    diagnostics := [];
    var i := 0;
    while i < |events|
      invariant 0 <= i <= |events|
      invariant rule.Valid()
      invariant Run(Initial, events[..i]) == Trace(rule.State(), diagnostics)
      invariant forall d | d in diagnostics :: d.before.At?
    {
      assert events[..i + 1][..i] == events[..i];
      var report := rule.Handle(events[i]);
      if report.Some? {
        diagnostics := diagnostics + [report.value];
      }
      i := i + 1;
    }
    assert events[..i] == events;
  }
}
