# pgxtxmanager in Dafny

A model of the Go package `pgxtxmanager`. The package runs a unit of work inside a
PostgreSQL transaction with implicit nesting. `SQLTransaction(ctx, dbTx, fn)` looks for
a transaction already bound in the context under the package's key `CtxKey`:

- If it finds one, it joins it. It runs `fn` with the same context and returns `fn`'s
  error unchanged.
- If it finds none, it calls `dbTx.Begin`. If Begin fails, it returns the error wrapped
  as `DBTx.Begin`. Otherwise it binds the new transaction under `CtxKey` and runs `fn`
  with that child context. If `fn` fails, it rolls back: a rollback error is only logged,
  and `fn`'s error is returned. If `fn` succeeds, it commits and returns the commit error
  wrapped as `pgx.Tx.Commit`, or success.

`GetTxFromContext(ctx)` is the typed lookup `ctx.Value(CtxKey).(pgx.Tx)`.

Files:

- `context.dfy`, module `Context`: Go's `context.Context` as an immutable chain of
  bindings. `Value` is the innermost binding of a key. `Bindings` is the list view of the
  chain, used as the reference definition of lookup. A key is its dynamic type name plus
  its text, because Go compares interface keys by type and value.
- `pgxtxmanager.dfy`, module `PgxTxManager`: the package's data model and its two
  operations.
  - Collaborators are a `DB` value. It holds the outcome of `Begin`, and the outcomes of
    `Commit` and `Rollback` on the transaction that Begin returns.
  - Errors are tagged constructors: `Fault`, and the wrappers `BeginFailed` and
    `CommitFailed`.
  - The work function is a small datatype `Work`. It can return an outcome, call the
    coordinator again with the context it received, or derive a child context.
  - `Coordinator` and `WorkResult` are the specification functions. They give the
    returned error and the trace of collaborator calls: `Begin`, `Invoke` (the work is
    run), `Commit`, `Rollback`, and `Warn` (the logged rollback failure).
  - The methods `SQLTransaction` and `RunWork` are imperative. They reassign the locals
    the way the Go code does and are proved equal to the specification functions.
- `properties.dfy`, module `TxProperties`: what the package promises.
  - Typed lookup.
  - The join branch.
  - The four outcomes when a call creates the transaction.
  - The order of calls.
  - Nesting at any depth. These statements cover the whole trace, so they include the
    calls that nested coordinator invocations make.

Two details follow the Go code exactly:

- On the join branch no child context is derived. The work gets the caller's context
  itself.
- Commit and rollback get the derived context (pgxtxmanager.go:34, 41, 47). Begin gets
  the caller's context.

## Model

| member | source | states |
|---|---|---|
| Context.ValueIsInnermost | pgxtxmanager.go:26 | `ctx.Value(key)` returns v exactly when the innermost binding of key in the chain binds v. It returns nil exactly when no binding has that key. |
| Context.LookupBound | pgxtxmanager.go:34 | After `context.WithValue(ctx, key, v)`, looking up key gives v. |
| Context.LookupOther | pgxtxmanager.go:34 | Deriving a context under one key leaves the lookup of every other key unchanged. |
| PgxTxManager.GetTxFromContext | pgxtxmanager.go:57-60 | Reports a transaction only when the value under `CtxKey` is a pgx.Tx. Otherwise the value is absent or of another type. |
| PgxTxManager.WithTx | pgxtxmanager.go:34 | The context handed to the work of a new transaction yields that transaction on lookup. |
| PgxTxManager.SQLTransaction | pgxtxmanager.go:25-54 | The imperative coordinator. Its returned error and call trace equal `Coordinator`, whose properties are proved in TxProperties. |
| PgxTxManager.RunWork | pgxtxmanager.go:37 | Running the work, including its nested coordinator calls, gives exactly `WorkResult`. |
| TxProperties.GetTxIsInnermostBinding | pgxtxmanager.go:57-60 | Lookup yields t exactly when the innermost `CtxKey` binding is transaction t. Presence is false exactly when that binding is missing or is not a transaction. |
| TxProperties.WrongTypeIsNotATransaction | pgxtxmanager.go:58 | A wrong-typed value under `CtxKey` gives presence false. It also hides any transaction bound further out. |
| TxProperties.PlainStringKeyIsIgnored | pgxtxmanager.go:17-20 | A plain `string` key with the same text as `CtxKey` is a different key. Binding under it does not change the lookup. |
| TxProperties.WorkStaysInTx | pgxtxmanager.go:26-37 | Suppose the work runs where t is ambient and never rebinds `CtxKey`. Then every nested call, at any depth, joins t. The trace holds only work invocations whose context holds t. |
| TxProperties.NestedCallJoins | pgxtxmanager.go:26-53 | A coordinator call made where t is ambient, with a work that never binds `CtxKey`, returns the work's result. Its whole trace holds only invocations under t. |
| TxProperties.JoinLeavesTransactionAlone | pgxtxmanager.go:26-53 | With an ambient transaction, the call returns the work's result unchanged and runs the work in the caller's context. If the work does not rebind `CtxKey`, no Begin, Commit, Rollback or warning happens anywhere in the run. |
| TxProperties.BeginFailureStops | pgxtxmanager.go:28-33 | With no ambient transaction and a failing Begin, the result is the begin error wrapped as a begin failure. The trace is only the Begin call: no work, commit or rollback. |
| TxProperties.CreatedRun | pgxtxmanager.go:28-53 | For every work, a call that began t runs Begin, then the work under the context bound to t, then its own ending: a rollback with an optional warning after failed work, else a commit. It returns the work's error, else the commit error wrapped as a commit failure, else success. |
| TxProperties.CreatedRunShape | pgxtxmanager.go:28-51 | For a work that never binds `CtxKey`, a call that began t makes three kinds of call, in this order. First Begin. Then only work invocations, all under t. Then its own ending: a commit, or a rollback with an optional warning. |
| TxProperties.WorkFailureRollsBack | pgxtxmanager.go:39-45 | When the work fails, for every work, the returned error is exactly the work's error and the call ends with one Rollback of the new transaction, followed by a Warn event only if the rollback failed. When the work never binds `CtxKey`, that is the only Rollback in the whole run and nothing is committed. |
| TxProperties.RollbackOutcomeIsNotReturned | pgxtxmanager.go:40-45 | Changing the rollback outcome never changes the returned error. |
| TxProperties.CommitFailureSurfaces | pgxtxmanager.go:47-50 | When the work succeeds and Commit fails, for every work, the call returns the commit error wrapped as a commit failure, not success, and ends with one Commit of the new transaction. When the work never binds `CtxKey`, that is the only Commit in the whole run and nothing is rolled back. |
| TxProperties.SuccessCommitsOnce | pgxtxmanager.go:47-53 | When the work and Commit succeed, for every work, the call returns success and ends with one Commit of the new transaction. When the work never binds `CtxKey`, that is the only Commit in the whole run, nothing is rolled back, and every work invocation, at any depth, ran with the freshly begun transaction. |
| TxProperties.CallOrder | pgxtxmanager.go:26-51 | With no ambient transaction, Begin comes first, then every work invocation, then at most one Commit or Rollback of the begun transaction. A Rollback may be followed by its warning. The work runs, and the transaction is ended, exactly when Begin succeeded. |
| TxProperties.DecisionIsFixedBeforeWork | pgxtxmanager.go:26-51 | The join-or-create decision is not re-evaluated, whatever the work does to its contexts. A call that began t ends with a commit or rollback of t. A joining call adds nothing after the work's own calls. |
| TxProperties.NestedScenario | pgxtxmanager.go:26-53 | The outer call begins h1. The inner call finds h1, begins nothing and returns the inner work's result. The outer call then commits h1 once, or rolls it back once. |
| TxProperties.RollbackFailureScenario | pgxtxmanager.go:39-45 | The work fails with e1 and the rollback fails with e2. The call returns e1, and e2 appears only in the warning. |
| TxProperties.RebindingStartsSecondTransaction | pgxtxmanager.go:26 | A work that binds a non-transaction value under `CtxKey` hides the ambient transaction. A nested call then begins and commits a second transaction. |

## Left out

- The pgx driver, SQL execution and connection pooling are foreign code. `Begin`,
  `Commit` and `Rollback` are outcomes supplied by a `DB` value. The commit and rollback
  outcomes do not depend on the context they are given.
- A `DB` value returns the same transaction and the same outcomes each time it is begun.
  A work may rebind `CtxKey` and call the coordinator again with the same `DB`. Its
  trace then shows two Begins and two Commits of one transaction id, where Go would
  have two distinct transactions. No property relies on this.
- Context cancellation, deadlines and the concurrent host environment are not modelled.
  The coordinator has no concurrency of its own. A cancelled context only shows up as a
  collaborator's error outcome.
- Logging is modelled only as a `Warn` event in the trace. The `slog.Warn` call and its
  message text are left out.
- Error message text is left out. The `fmt.Errorf` wrappers are the tags `BeginFailed`
  and `CommitFailed`.
- `CtxKey` is an exported `var` that could be reassigned. The model fixes it as a
  constant.
- Context keys are modelled as a type name plus a string. Keys of other comparable Go
  types are not represented.
- In Go, `Begin` could return a nil transaction with a nil error. A later Commit or
  Rollback would then panic. The model's successful Begin always carries a transaction.
- When `Begin` returns both a transaction and an error, the Go code discards the
  transaction. The model's `BeginError` carries no transaction at all.
- A panic in the work function is not modelled. Go does not roll back in that case
  either.
- The work function is limited to the shapes of `Work`: return an outcome, call the
  coordinator with the context it received (returning that call's error if any), or
  derive a child context. Arbitrary Go code is not modelled. Neither is a work that
  calls the coordinator with an unrelated context.
- PgxTxManager.GetTxFromContext: it returns `Option<TxId>` instead of the pair `(pgx.Tx, bool)`.
  `None` stands for `(nil, false)`.
- TxProperties.JoinLeavesTransactionAlone: its whole-trace statement assumes the work
  never binds `CtxKey` itself (`NoRebind`). Otherwise a nested call can begin its own
  transaction, as `RebindingStartsSecondTransaction` shows. Its statement about the
  call's own steps holds for every work.
- TxProperties.NestedCallJoins: assumes `NoRebind`, for the same reason.
- TxProperties.CreatedRunShape: assumes `NoRebind`, for the same reason. `CreatedRun`
  gives the call's own steps for every work.
- TxProperties.WorkFailureRollsBack: only its whole-trace `Effects` statement assumes
  `NoRebind`, for the same reason. The returned error and the call's own ending hold
  for every work.
- TxProperties.CommitFailureSurfaces: only its whole-trace `Effects` statement assumes
  `NoRebind`, for the same reason. The returned error and the call's own ending hold
  for every work.
- TxProperties.SuccessCommitsOnce: only its whole-trace statements assume `NoRebind`,
  for the same reason. The returned error and the call's own ending hold for every work.
- TxProperties.CallOrder: assumes `NoRebind`, for the same reason.
  `DecisionIsFixedBeforeWork` gives the call's own ordering for every work.
