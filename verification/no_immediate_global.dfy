/** The "no immediate global" lint rule: inside the `src/global` directory,
    `getGlobal()` may only be called as the right-hand side of an assignment
    or as the initialiser of a declarator. The handler is stateless: its
    verdict depends only on the file's path, the call and the call's parent. */
module NoImmediateGlobal {
  import opened Syntax

  const MessageId := "noImmediateGlobal"

  /** The directory the rule is limited to, as `path.join('src', 'global')`
      spells it with the POSIX separator. */
  const ScopeDirectory := "src/global"

  /** A call expression as the handler sees it: the name of its callee (None
      when the callee is not a plain identifier), its parent, and where it is. */
  datatype CallSite = CallSite(callee: Option<string>, parent: Parent, at: Position)

  datatype Diagnostic = Diagnostic(messageId: string, node: Position)

  predicate StartsWith(s: string, prefix: string)
  {
    |prefix| <= |s| && s[..|prefix|] == prefix
  }

  /** Whether a file lies in the rule's scope, given its path relative to
      the working directory, already normalised. */
  predicate InScope(path: string)
  {
    StartsWith(path, ScopeDirectory)
  }

  /** The call is the `right` of an `AssignmentExpression`. */
  predicate IsAssignedValue(call: CallSite)
  {
    call.parent.kind == "AssignmentExpression" && call.parent.slot == Right
  }

  /** The call is the `init` of a `VariableDeclarator`. */
  predicate IsInitialiser(call: CallSite)
  {
    call.parent.kind == "VariableDeclarator" && call.parent.slot == Init
  }

  /** The rule's intent, stated on its own: a `getGlobal()` call in scope whose
      value is not stored straight into a variable. */
  predicate Offends(path: string, call: CallSite)
  {
    InScope(path) && call.callee == Some("getGlobal") && !IsAssignedValue(call) && !IsInitialiser(call)
  }

  /** The `CallExpression` handler: leave files out of scope, then look only
      at calls of `getGlobal`, and report those that are neither an assigned
      value nor an initialiser. */
  function Check(path: string, call: CallSite): (r: Option<Diagnostic>)
    ensures r.Some? ==> r.value == Diagnostic(MessageId, call.at)
  {
    if !StartsWith(path, ScopeDirectory) then None
    else if call.callee.Some? && call.callee.value == "getGlobal" then
      var isAssignmentExpr := call.parent.kind == "AssignmentExpression" && call.parent.slot == Right;
      var isVariableDeclarator := call.parent.kind == "VariableDeclarator" && call.parent.slot == Init;
      if !isAssignmentExpr && !isVariableDeclarator then Some(Diagnostic(MessageId, call.at)) else None
    else None
  }

  /** The diagnostics of one file: the handler applied to every call in
      traversal order. */
  function CheckFile(path: string, calls: seq<CallSite>): (r: seq<Diagnostic>)
    ensures |r| <= |calls|
    ensures forall d | d in r :: d.messageId == MessageId
  {
    if calls == [] then []
    else
      var rest := CheckFile(path, calls[..|calls| - 1]);
      var last := Check(path, calls[|calls| - 1]);
      rest + (if last.Some? then [last.value] else [])
  }

  /** The handler reports a call exactly when the call offends, and then
      exactly once, at the call. */
  lemma ReportedIff(path: string, call: CallSite)
    ensures Check(path, call).Some? <==> Offends(path, call)
    ensures Offends(path, call) ==> Check(path, call) == Some(Diagnostic(MessageId, call.at))
  {
  }

  /** Out of `src/global`, no call is ever reported. */
  lemma OutOfScopeNeverReported(path: string, call: CallSite)
    requires !StartsWith(path, ScopeDirectory)
    ensures Check(path, call) == None
  {
  }

  /** Only calls of `getGlobal` itself are checked: `getUntypedGlobal()`,
      method calls and any other callee pass. */
  lemma OnlyGetGlobalReported(path: string, call: CallSite)
    requires call.callee != Some("getGlobal")
    ensures Check(path, call) == None
  {
  }

  /** `x = getGlobal()` passes, whatever the assignment's target is. */
  lemma AssignedValueAccepted(path: string, call: CallSite)
    requires call.parent == Parent("AssignmentExpression", Right)
    ensures Check(path, call) == None
  {
  }

  /** `const x = getGlobal()` passes. */
  lemma InitialiserAccepted(path: string, call: CallSite)
    requires call.parent == Parent("VariableDeclarator", Init)
    ensures Check(path, call) == None
  {
  }

  /** The scope test is a plain string prefix, not a directory test: a file
      named `src/globals.js`, or any path continuing `src/global...`, is in
      scope too. */
  lemma PrefixIsNotDirectory(rest: string, call: CallSite)
    requires call.callee == Some("getGlobal") && call.parent.kind == "CallExpression"
    ensures Check(ScopeDirectory + rest, call) == Some(Diagnostic(MessageId, call.at))
  {
    assert (ScopeDirectory + rest)[..|ScopeDirectory|] == ScopeDirectory;
  }

  /** Being stateless, the handler judges the calls of a file independently:
      checking a file in two parts gives the diagnostics of both parts in
      order. */
  lemma {:induction false} CheckFileSplits(path: string, a: seq<CallSite>, b: seq<CallSite>)
    ensures CheckFile(path, a + b) == CheckFile(path, a) + CheckFile(path, b)
    decreases |b|
  {
    if b == [] {
      assert a + b == a;
    } else {
      var b' := b[..|b| - 1];
      assert (a + b)[..|a + b| - 1] == a + b';
      assert (a + b)[|a + b| - 1] == b[|b| - 1];
      CheckFileSplits(path, a, b');
    }
  }

  /** Every diagnostic of a file is at one of its offending calls, and every
      offending call is reported. */
  lemma {:induction false} CheckFileReportsOffenders(path: string, calls: seq<CallSite>)
    ensures forall d | d in CheckFile(path, calls) ::
              exists i | 0 <= i < |calls| :: Offends(path, calls[i]) && d.node == calls[i].at
    ensures forall i | 0 <= i < |calls| && Offends(path, calls[i]) ::
              Diagnostic(MessageId, calls[i].at) in CheckFile(path, calls)
  {
    if calls != [] {
      var init := calls[..|calls| - 1];
      var last := calls[|calls| - 1];
      CheckFileReportsOffenders(path, init);
      ReportedIff(path, last);
      forall d | d in CheckFile(path, calls)
        ensures exists i | 0 <= i < |calls| :: Offends(path, calls[i]) && d.node == calls[i].at
      {
        if d in CheckFile(path, init) {
          var j :| 0 <= j < |init| && Offends(path, init[j]) && d.node == init[j].at;
          assert calls[j] == init[j];
        } else {
          assert Offends(path, calls[|calls| - 1]) && d.node == calls[|calls| - 1].at;
        }
      }
      forall i | 0 <= i < |calls| && Offends(path, calls[i])
        ensures Diagnostic(MessageId, calls[i].at) in CheckFile(path, calls)
      {
        if i < |calls| - 1 {
          assert calls[i] == init[i];
        }
      }
    }
  }

  /** Out of scope, a whole file is silent. */
  lemma {:induction false} CheckFileOutOfScope(path: string, calls: seq<CallSite>)
    requires !StartsWith(path, ScopeDirectory)
    ensures CheckFile(path, calls) == []
  {
    if calls != [] {
      CheckFileOutOfScope(path, calls[..|calls| - 1]);
      OutOfScopeNeverReported(path, calls[|calls| - 1]);
    }
  }
}
