# eslint-plugin-tt-multitab, modelled in Dafny

This project models the two lint rules of the ESLint plugin
`eslint-plugin-tt-multitab` and proves what they guarantee.

- **must-update-global-after-await.** Code reads a snapshot of shared state into a
  variable called `global` (`let global = getGlobal()`). After an `await`, that
  snapshot may be stale. The rule reports every read of `global` that comes after
  an `await` unless one of these came first:
  - `global` was re-acquired (`global = getGlobal()` or `getUntypedGlobal()`);
  - the code returned inside an `if`/`switch` branch.

  The rule is a state machine over visitor callbacks. Its closure variables are
  updated in place. The model has these parts:
  - the class `Rule`, whose fields are those variables, with one method per
    callback;
  - a driver `Lint` that feeds a file's events to a fresh `Rule`;
  - the same logic as pure functions: `Step` for one callback, `Run` for a
    sequence of events. `Rule.Handle` and `Lint` are proved to agree with them.

  Lemmas about `Step` and `Run` state the rule's properties. These include:
  - the invariant that makes the `'unknown'` fallback unreachable;
  - the iff-condition for a report;
  - branch nesting;
  - quiet stretches with no report.

  Separate lemmas compute whole functions event by event (branch with and without
  return, re-assignment, re-declaration, inner function).
- **no-immediate-global.** In files under `src/global`, `getGlobal()` may only be
  called as the right-hand side of an assignment or as a declarator's
  initialiser. This rule is stateless. It is modelled as the function `Check`,
  and the lemmas compare it with an independent statement of its intent,
  `Offends`.

Files:
- `syntax.dfy`: the node facts the callbacks read.
- `must_update_global_after_await.dfy`: the state, `Step`, `Run`, the class and `Lint`.
- `must_update_global_after_await_properties.dfy`: properties of single callbacks and of traversals.
- `must_update_global_after_await_traces.dfy`: whole-function traces.
- `no_immediate_global.dfy`: the call-site rule.

The model follows the code as written, including where it differs from the
rule's stated design:
- There is one set of closure variables per file, not one record per function.
  Any function exit, including an inner arrow function's, resets every variable
  except the block counter, which is never reset. An inner function therefore
  erases the outer function's acquisition (`InnerFunctionExitForgetsOuterAcquisition`).
- An await inside an inner function marks the shared state while the inner
  function is open.
- A function exit inside a branch empties the branch stack, so the enclosing
  `if` no longer counts as a branch (`InnerFunctionExitLeavesBranch`). Branches
  restore their context only when they hold no scope exit (`BranchRestoresContext`).
- Only an assignment cures staleness. A second declaration
  `var global = getGlobal()` after an await only sets `globalDeclared`
  (`RedeclarationAfterAwaitDoesNotCure`).
- `awaitBlockLevel` is tested by JavaScript truthiness, so a level of 0 counts as
  unset.
- `awaitBlockLevel` is compared with the depth after the decrement. It is
  therefore cleared on leaving a block nested one level inside the await's
  block, not when the await's own block closes.
- Once `returnAfterAwait` is set, it stays set until the scope ends. It also
  silences reads after a later await in the same function
  (`ReturnAfterAwaitStaysUntilReset`).
- Popping an empty branch stack yields `undefined`, which is falsy.
- The scope reset on leaving a `return` fires only when the parent's type is the
  string `"BlockExpression"`.
- The call-site rule checks `getGlobal` only, not `getUntypedGlobal`.
- The call-site rule accepts an assignment to any target, not just `global`.
- The path test is a string prefix, so `src/globals.js` is in scope.

## Model

| member | source | states |
|---|---|---|
| MustUpdateGlobalAfterAwait.Reset | src/rules/must-update-global-after-await.js:41-50 | `endFunction` keeps the block counter, empties the branch stack and clears the await and the declaration |
| MustUpdateGlobalAfterAwait.Rule.constructor | src/rules/must-update-global-after-await.js:27-36 | a fresh instance starts in the initial state, which satisfies the invariant |
| MustUpdateGlobalAfterAwait.Rule.EndFunction | src/rules/must-update-global-after-await.js:41-50 | every variable except `blocks` returns to its initial value; the invariant is kept |
| MustUpdateGlobalAfterAwait.Rule.EnterBranch | src/rules/must-update-global-after-await.js:60-63 | pushes the current `inBranch` and sets it; nothing else changes |
| MustUpdateGlobalAfterAwait.Rule.ExitBranch | src/rules/must-update-global-after-await.js:64-66 | pops the saved flag back into `inBranch`, or sets false when the stack is empty |
| MustUpdateGlobalAfterAwait.Rule.ExitAwaitExpression | src/rules/must-update-global-after-await.js:74-82 | with a node and `global` declared, records the await, its depth and position and clears the update flag; otherwise changes nothing |
| MustUpdateGlobalAfterAwait.Rule.EnterBlockStatement | src/rules/must-update-global-after-await.js:83-85 | the block depth grows by one and nothing else changes |
| MustUpdateGlobalAfterAwait.Rule.ExitBlockStatement | src/rules/must-update-global-after-await.js:86-91 | the depth drops by one; the await's level is cleared exactly when it is truthy and equals the new depth |
| MustUpdateGlobalAfterAwait.Rule.EnterReturnStatement | src/rules/must-update-global-after-await.js:92-96 | `returnAfterAwait` becomes set exactly when it was set or an await is stale inside a branch; nothing else changes |
| MustUpdateGlobalAfterAwait.Rule.ExitReturnStatement | src/rules/must-update-global-after-await.js:97-101 | resets the scope exactly when an await is recorded, its truthy level equals the depth and the parent type is "BlockExpression" |
| MustUpdateGlobalAfterAwait.Rule.EnterAssignmentExpression | src/rules/must-update-global-after-await.js:102-115 | `global = getGlobal()`/`getUntypedGlobal()` declares `global` and marks it updated iff an await is recorded; any other assignment changes nothing |
| MustUpdateGlobalAfterAwait.Rule.EnterVariableDeclarator | src/rules/must-update-global-after-await.js:116-122 | only `globalDeclared` can change, and it becomes true exactly for `global = getGlobal()`/`getUntypedGlobal()` declarators |
| MustUpdateGlobalAfterAwait.Rule.EnterIdentifier | src/rules/must-update-global-after-await.js:123-139 | reports iff a non-target read of `global` happens while declared, awaited, not updated and not returned; the report cites the recorded await |
| MustUpdateGlobalAfterAwait.Rule.Handle | src/rules/must-update-global-after-await.js:56-142 | dispatching an event to its callback changes the state and reports exactly as the step function says, and a report cites an await position |
| MustUpdateGlobalAfterAwait.Lint | src/rules/must-update-global-after-await.js:27-144 | linting a file yields exactly the reports of the traversal fold from the initial state, each citing an await position |
| MustUpdateGlobalAfterAwaitProperties.BranchEnterExitRestores | src/rules/must-update-global-after-await.js:60-73 | entering then leaving an `if`/`switch` restores the whole state; inside, `inBranch` holds and the stack is one longer |
| MustUpdateGlobalAfterAwaitProperties.RunAppend | src/rules/must-update-global-after-await.js:56-142 | traversing two event sequences in turn equals traversing their concatenation |
| MustUpdateGlobalAfterAwaitProperties.BranchRestoresContext | src/rules/must-update-global-after-await.js:60-73 | a well-nested statement of nested branches that holds no function or program exit and no return with a "BlockExpression" parent restores `inBranch` and the branch stack, so an outer branch is still "in branch" after an inner one |
| MustUpdateGlobalAfterAwaitProperties.BodyRestoresContext | src/rules/must-update-global-after-await.js:60-73 | a sequence of such statements (no scope exit inside) restores `inBranch` and the branch stack |
| MustUpdateGlobalAfterAwaitProperties.AwaitWhileUndeclaredChangesNothing | src/rules/must-update-global-after-await.js:74-82 | an await before `global` is declared leaves the state unchanged |
| MustUpdateGlobalAfterAwaitProperties.AwaitWhileDeclaredRecords | src/rules/must-update-global-after-await.js:76-81 | an await after the declaration sets `hasAwait`, the depth, the position, clears the update flag and changes nothing else |
| MustUpdateGlobalAfterAwaitProperties.StepKeepsConsistent | src/rules/must-update-global-after-await.js:41-50 | every callback preserves the invariant (await implies declared, await node present iff await recorded, flags only after an await) and reports cite an await |
| MustUpdateGlobalAfterAwaitProperties.RunKeepsConsistent | src/rules/must-update-global-after-await.js:56-142 | every traversal from a consistent state stays consistent and all its reports cite an await |
| MustUpdateGlobalAfterAwaitProperties.UnknownIsUnreachable | src/rules/must-update-global-after-await.js:136 | from the initial state no report ever carries the `'unknown'` fallback |
| MustUpdateGlobalAfterAwaitProperties.AcquiringAssignment | src/rules/must-update-global-after-await.js:102-115 | re-acquisition declares `global`, marks it updated iff an await is recorded, reports nothing and changes nothing else |
| MustUpdateGlobalAfterAwaitProperties.OtherAssignmentChangesNothing | src/rules/must-update-global-after-await.js:103-106 | an assignment to another target or of another value changes nothing |
| MustUpdateGlobalAfterAwaitProperties.DeclaratorOnlyDeclares | src/rules/must-update-global-after-await.js:116-122 | a declarator can set only `globalDeclared` and so never cures staleness |
| MustUpdateGlobalAfterAwaitProperties.IdentifierReportedIff | src/rules/must-update-global-after-await.js:123-139 | a read is reported, once, exactly under the stale condition; the state is unchanged and the report cites the await |
| MustUpdateGlobalAfterAwaitProperties.ReturnEnterMarks | src/rules/must-update-global-after-await.js:92-96 | a return sets `returnAfterAwait` exactly when stale inside a branch and changes nothing else |
| MustUpdateGlobalAfterAwaitProperties.ReturnAfterAwaitStaysUntilReset | src/rules/must-update-global-after-await.js:41-50 | once set, `returnAfterAwait` survives every callback except a reset by `endFunction` |
| MustUpdateGlobalAfterAwaitProperties.ScopeExitResets | src/rules/must-update-global-after-await.js:57-59 | every function exit and the program exit reset all variables except `blocks` |
| MustUpdateGlobalAfterAwaitProperties.QuietStep | src/rules/must-update-global-after-await.js:56-142 | from a state where no read can be stale, any callback but leaving an await keeps it so and reports nothing |
| MustUpdateGlobalAfterAwaitProperties.QuietUntilNextAwait | src/rules/must-update-global-after-await.js:123-139 | from a state where no read can be stale, no event before the next await makes a report |
| MustUpdateGlobalAfterAwaitProperties.NoAwaitNoReport | src/rules/must-update-global-after-await.js:74-82 | a file without any await is never reported, however often it reads `global` |
| MustUpdateGlobalAfterAwaitProperties.ReacquireCures | src/rules/must-update-global-after-await.js:111-113 | after `global = getGlobal()` following an await, no read is reported until the next await |
| MustUpdateGlobalAfterAwaitProperties.StaleStep | src/rules/must-update-global-after-await.js:123-139 | from a stale state, a callback that is no re-acquisition, return or scope exit keeps it stale and reports exactly when it reads `global`, at the read |
| MustUpdateGlobalAfterAwaitProperties.StaleUntilCured | src/rules/must-update-global-after-await.js:123-139 | from a stale state, until a re-acquisition, return or scope exit, exactly the reads of `global` are reported, in order and at their positions |
| MustUpdateGlobalAfterAwaitTraces.BranchWithReturnSuppresses | src/rules/must-update-global-after-await.js:92-96 | `if (c) { await x(); return; } use(global);` reports nothing |
| MustUpdateGlobalAfterAwaitTraces.BranchWithoutReturnReports | src/rules/must-update-global-after-await.js:123-139 | `if (c) { await x(); } use(global);` reports the read once, citing the await |
| MustUpdateGlobalAfterAwaitTraces.ReassignmentAfterAwaitCures | src/rules/must-update-global-after-await.js:102-115 | `global = getGlobal()` after the await silences the read; without it the read is reported |
| MustUpdateGlobalAfterAwaitTraces.RedeclarationAfterAwaitDoesNotCure | src/rules/must-update-global-after-await.js:116-122 | a second declaration `var global = getGlobal()` after the await does not silence the read |
| MustUpdateGlobalAfterAwaitTraces.InnerFunctionExitForgetsOuterAcquisition | src/rules/must-update-global-after-await.js:57-59 | leaving an inner arrow function erases the outer declaration, so a later outer await and read are not reported |
| MustUpdateGlobalAfterAwaitTraces.InnerFunctionExitLeavesBranch | src/rules/must-update-global-after-await.js:41-50 | after `if (a) { if (b) { f(() => {}); }` the outer `if` is no longer "in branch", because the inner function's exit empties the branch stack |
| NoImmediateGlobal.Check | src/rules/no-immediate-global.js:31-56 | a report, when made, carries the rule's message id and the call's position |
| NoImmediateGlobal.CheckFile | src/rules/no-immediate-global.js:29-57 | a file gets at most one report per call, each with the rule's message id |
| NoImmediateGlobal.ReportedIff | src/rules/no-immediate-global.js:37-53 | a call is reported, exactly once, iff it is in scope, calls `getGlobal` and is neither an assigned value nor an initialiser |
| NoImmediateGlobal.OutOfScopeNeverReported | src/rules/no-immediate-global.js:37-41 | outside `src/global` no call is reported |
| NoImmediateGlobal.OnlyGetGlobalReported | src/rules/no-immediate-global.js:43 | a call of any callee other than `getGlobal`, including `getUntypedGlobal`, is never reported |
| NoImmediateGlobal.AssignedValueAccepted | src/rules/no-immediate-global.js:45 | `getGlobal()` as an assignment's right side passes, whatever the target |
| NoImmediateGlobal.InitialiserAccepted | src/rules/no-immediate-global.js:46 | `getGlobal()` as a declarator's initialiser passes |
| NoImmediateGlobal.PrefixIsNotDirectory | src/rules/no-immediate-global.js:41 | any path that starts with the characters `src/global`, such as `src/globals.js`, is in scope |
| NoImmediateGlobal.CheckFileSplits | src/rules/no-immediate-global.js:29-57 | the handler is stateless: checking a file in two parts gives the two parts' reports in order |
| NoImmediateGlobal.CheckFileReportsOffenders | src/rules/no-immediate-global.js:49-53 | every report is at an offending call, and every offending call is reported |
| NoImmediateGlobal.CheckFileOutOfScope | src/rules/no-immediate-global.js:37-41 | a file outside `src/global` gets no report at all |

## Left out

- The linter's traversal and `context.report`: a file is given as the sequence of
  events the host would fire, and reporting is appending to a sequence.
- Syntax-tree parsing and the node shapes: each event carries only the fields its
  callback reads.
- `path.relative`, `path.normalize`, `process.cwd()` and the
  `context.filename || sourceCode.path` fallback: these are Node library and
  environment calls. `Check` takes the normalised relative path as a string.
- The Windows separator: the scope directory is `src/global`, as `path.join`
  spells it on POSIX systems.
- The message templates and `meta` objects: static metadata. Reports keep the
  message id and the await's line and column as a structured `Position`, not the
  `line:column` string.
- `src/index.js`: plugin wiring with no logic of its own.
- MustUpdateGlobalAfterAwait.Reset: its contract names only the fields the lemmas
  rely on; `Rule.EndFunction` and `ScopeExitResets` state the full reset.
