/** The nested-transaction coordinator of package pgxtxmanager.

    `SQLTransaction(ctx, dbTx, fn)` runs the unit of work `fn` inside a
    transaction: it joins the transaction already bound in `ctx` under `CtxKey`
    if there is one, and otherwise begins one, binds it under `CtxKey`, runs the
    work and then rolls back (work failed) or commits (work succeeded).
    Only the call that began the transaction ends it.

    The driver is not modelled: `Begin`, `Commit` and `Rollback` are outcomes
    supplied by a `DB` value, and every call to them is recorded in a trace of
    events, so that what the coordinator does is a statement about its result
    and its trace. */
module PgxTxManager {
  import opened Context

  /** An opaque transaction handle (a value implementing pgx.Tx). */
  type TxId = nat

  /** A value stored in a context: either a pgx.Tx, or a value of some other
      dynamic type (nil included), named by that type. */
  datatype Val = TxVal(tx: TxId) | NotTx(typeName: string)

  type Ctx = Context<Val>

  /** The text of the well-known key. */
  const CtxKeyText: string := "pgxtxmanager-sql-transaction"

  /** `CtxKey = ctxKey("pgxtxmanager-sql-transaction")`: a string of the
      package's own named type `ctxKey`. */
  const CtxKey: Key := Key("pgxtxmanager.ctxKey", CtxKeyText)

  /** Go `error` values the coordinator returns. Collaborator and work failures
      are `Fault`s; `fmt.Errorf("DBTx.Begin: %w", err)` and
      `fmt.Errorf("pgx.Tx.Commit: %w", err)` become the two wrapping tags. */
  datatype Error = Fault(code: nat) | BeginFailed(cause: Error) | CommitFailed(cause: Error)

  /** A Go `error` result: nil or not. */
  datatype Outcome = Ok | Err(error: Error)

  /** What `DBTx.Begin` returns. */
  datatype BeginResult = Began(tx: TxId) | BeginError(error: Error)

  /** A `DBTx` collaborator: the outcome of its `Begin`, and the outcomes of
      `Commit` and `Rollback` on the transaction that `Begin` returns. */
  datatype DB = DB(begin: BeginResult, commit: Outcome, rollback: Outcome)

  /** A unit of work `fn(ctx) error`, as far as the coordinator can observe it:
      - Done(o): returns `o`;
      - Call(db, body, rest): calls `SQLTransaction(ctx, db, body)` with the
        context it was given, returns that error if it is not nil, and
        otherwise goes on as `rest`;
      - Derive(key, val, body): goes on as `body` under
        `context.WithValue(ctx, key, val)`. */
  datatype Work = Done(result: Outcome) | Call(db: DB, body: Work, rest: Work) | Derive(key: Key, val: Val, body: Work)

  /** A call to a collaborator, in the order it happens: `DBTx.Begin`, the
      invocation of the work function, `Commit` and `Rollback` on a
      transaction, and `Warn`, the warning logged when a rollback fails. */
  datatype Event =
    | Begin(ctx: Ctx)
    | Invoke(ctx: Ctx)
    | Commit(tx: TxId, ctx: Ctx)
    | Rollback(tx: TxId, ctx: Ctx)
    | Warn(error: Error)

  /** The returned error together with the trace of the run. */
  datatype Run = Run(err: Outcome, trace: seq<Event>)

  /** `GetTxFromContext(ctx)`: `ctx.Value(CtxKey).(pgx.Tx)`. Some(tx) is
      `(tx, true)`; None is `(nil, false)`. */
  function GetTxFromContext(ctx: Ctx): (r: Option<TxId>)
    ensures r.Some? ==> Value(ctx, CtxKey) == Some(TxVal(r.value))
    ensures r.None? ==> Value(ctx, CtxKey).None? || Value(ctx, CtxKey).value.NotTx?
  {
    var v := Value(ctx, CtxKey);
    if v.Some? && v.value.TxVal? then Some(v.value.tx) else None
  }

  /** `context.WithValue(ctx, CtxKey, tx)`: the context in which the work of a
      newly begun transaction runs. */
  function WithTx(ctx: Ctx, tx: TxId): (c: Ctx)
    ensures GetTxFromContext(c) == Some(tx)
  {
    WithValue(ctx, CtxKey, TxVal(tx))
  }

  /** What `SQLTransaction(ctx, db, fn)` returns and which collaborator calls it
      makes, including those of nested calls made by the work. */
  function Coordinator(ctx: Ctx, db: DB, fn: Work): (r: Run)
    decreases fn, 1
  {
    match GetTxFromContext(ctx)
    case Some(_) =>
      var w := WorkResult(ctx, fn);
      Run(w.err, [Invoke(ctx)] + w.trace)
    case None =>
      match db.begin
      case BeginError(e) => Run(Err(BeginFailed(e)), [Begin(ctx)])
      case Began(tx) =>
        var c := WithTx(ctx, tx);
        var w := WorkResult(c, fn);
        var upToWork := [Begin(ctx), Invoke(c)] + w.trace;
        if w.err.Err? then
          var warned := if db.rollback.Err? then [Warn(db.rollback.error)] else [];
          Run(w.err, upToWork + [Rollback(tx, c)] + warned)
        else if db.commit.Err? then
          Run(Err(CommitFailed(db.commit.error)), upToWork + [Commit(tx, c)])
        else
          Run(Ok, upToWork + [Commit(tx, c)])
  }

  /** What the work `w` returns and the collaborator calls of the nested
      coordinator calls it makes, when it is given the context `ctx`. */
  function WorkResult(ctx: Ctx, w: Work): (r: Run)
    decreases w, 0
  {
    match w
    case Done(o) => Run(o, [])
    case Call(db, body, rest) =>
      var inner := Coordinator(ctx, db, body);
      if inner.err.Err? then inner
      else
        var after := WorkResult(ctx, rest);
        Run(after.err, inner.trace + after.trace)
    case Derive(k, v, body) => WorkResult(WithValue(ctx, k, v), body)
  }

  /** `SQLTransaction`: look up the ambient transaction, begin one if there is
      none, run the work, and, only if this call began the transaction, roll
      back on failure (a failing rollback is only logged) or commit on success
      (a failing commit is returned). */
  method SQLTransaction(ctx: Ctx, dbTx: DB, fn: Work) returns (err: Outcome, trace: seq<Event>)
    ensures Run(err, trace) == Coordinator(ctx, dbTx, fn)
    decreases fn, 1
  {
    var c := ctx;
    trace := [];
    var found := GetTxFromContext(c);
    var hasExternalTransaction := found.Some?;
    var tx: TxId := if found.Some? then found.value else 0;

    if !hasExternalTransaction {
      trace := trace + [Begin(c)];
      match dbTx.begin {
        case BeginError(e) =>
          err := Err(BeginFailed(e));
          return;
        case Began(t) =>
          tx := t;
      }
      c := WithTx(c, tx);
    }

    trace := trace + [Invoke(c)];
    var workTrace;
    err, workTrace := RunWork(c, fn);
    trace := trace + workTrace;
    assert hasExternalTransaction ==> Run(err, trace) == Coordinator(ctx, dbTx, fn);
    assert !hasExternalTransaction ==> c == WithTx(ctx, tx) && trace == [Begin(ctx), Invoke(c)] + workTrace;

    if !hasExternalTransaction {
      if err.Err? {
        trace := trace + [Rollback(tx, c)];
        var errRollback := dbTx.rollback;
        if errRollback.Err? {
          trace := trace + [Warn(errRollback.error)];
        }
        return;
      }
      trace := trace + [Commit(tx, c)];
      var errCommit := dbTx.commit;
      if errCommit.Err? {
        err := Err(CommitFailed(errCommit.error));
        return;
      }
    }
  }

  /** Runs the work `w` under `ctx`, calling `SQLTransaction` where the work does. */
  method RunWork(ctx: Ctx, w: Work) returns (err: Outcome, trace: seq<Event>)
    ensures Run(err, trace) == WorkResult(ctx, w)
    decreases w, 0
  {
    match w
    case Done(o) =>
      err, trace := o, [];
    case Call(db, body, rest) =>
      err, trace := SQLTransaction(ctx, db, body);
      if err.Ok? {
        var restTrace;
        err, restTrace := RunWork(ctx, rest);
        trace := trace + restTrace;
      }
    case Derive(k, v, body) =>
      err, trace := RunWork(WithValue(ctx, k, v), body);
  }
}
