/** What the coordinator promises: typed lookup of the ambient transaction,
    the four outcomes of a call that begins its own transaction, the join
    branch, and nesting at any depth. Trace properties range over the whole
    trace, nested calls included. */
module TxProperties {
  import opened Context
  import opened PgxTxManager

  // ---------------------------------------------------------------------------
  // Typed lookup of the ambient transaction
  // ---------------------------------------------------------------------------

  /** `GetTxFromContext` finds `t` exactly when the innermost binding of
      `CtxKey` binds the transaction `t`, and finds nothing exactly when the
      innermost binding of `CtxKey` (if any) is not a transaction. */
  lemma GetTxIsInnermostBinding(ctx: Ctx, t: TxId)
    ensures GetTxFromContext(ctx) == Some(t) <==> BindsInnermost(Bindings(ctx), CtxKey, TxVal(t))
    ensures GetTxFromContext(ctx).None? <==>
            forall u: TxId :: !BindsInnermost(Bindings(ctx), CtxKey, TxVal(u))
  {
    forall u: TxId ensures GetTxFromContext(ctx) == Some(u) <==> BindsInnermost(Bindings(ctx), CtxKey, TxVal(u)) {
      ValueIsInnermost(ctx, CtxKey, TxVal(u));
    }
  }

  /** A value of another type bound under `CtxKey` is not taken for a
      transaction, and it hides any transaction bound further out. */
  lemma WrongTypeIsNotATransaction(ctx: Ctx, typeName: string)
    ensures GetTxFromContext(WithValue(ctx, CtxKey, NotTx(typeName))).None?
  {}

  /** A key of type `string` with the same text as `CtxKey` is a different
      key: binding anything under it leaves the lookup as it was. */
  lemma PlainStringKeyIsIgnored(ctx: Ctx, v: Val)
    ensures GetTxFromContext(WithValue(ctx, Key("string", CtxKeyText), v)) == GetTxFromContext(ctx)
  {}

  // ---------------------------------------------------------------------------
  // Views of a trace
  // ---------------------------------------------------------------------------

  /** The transaction-lifecycle events of a trace (begin, commit, rollback and
      the rollback warning): everything but invocations of work. */
  function Effects(tr: seq<Event>): (fx: seq<Event>)
  {
    if tr == [] then []
    else (if tr[0].Invoke? then [] else [tr[0]]) + Effects(tr[1..])
  }

  /** The invocations of work in a trace. */
  function Invocations(tr: seq<Event>): (inv: seq<Event>)
  {
    if tr == [] then []
    else (if tr[0].Invoke? then [tr[0]] else []) + Invocations(tr[1..])
  }

  lemma {:induction false} EffectsOfAppend(a: seq<Event>, b: seq<Event>)
    ensures Effects(a + b) == Effects(a) + Effects(b)
  {
    if a == [] {
      assert a + b == b;
    } else {
      var ab := a + b;
      assert ab != [] && ab[0] == a[0] && ab[1..] == a[1..] + b;
      EffectsOfAppend(a[1..], b);
      var h := if a[0].Invoke? then [] else [a[0]];
      calc {
        Effects(ab);
        h + Effects(a[1..] + b);
        h + (Effects(a[1..]) + Effects(b));
        (h + Effects(a[1..])) + Effects(b);
      }
    }
  }

  lemma {:induction false} InvocationsOfAppend(a: seq<Event>, b: seq<Event>)
    ensures Invocations(a + b) == Invocations(a) + Invocations(b)
  {
    if a == [] {
      assert a + b == b;
    } else {
      var ab := a + b;
      assert ab != [] && ab[0] == a[0] && ab[1..] == a[1..] + b;
      InvocationsOfAppend(a[1..], b);
      var h := if a[0].Invoke? then [a[0]] else [];
      calc {
        Invocations(ab);
        h + Invocations(a[1..] + b);
        h + (Invocations(a[1..]) + Invocations(b));
        (h + Invocations(a[1..])) + Invocations(b);
      }
    }
  }

  lemma {:induction false} NoInvocationsAreEffects(tr: seq<Event>)
    requires forall e :: e in tr ==> !e.Invoke?
    ensures Effects(tr) == tr && Invocations(tr) == []
  {
    if tr != [] {
      assert tr == [tr[0]] + tr[1..];
      NoInvocationsAreEffects(tr[1..]);
    }
  }

  /** Every event of `tr` is an invocation of work in a context where the
      ambient transaction is `t`. */
  ghost predicate WithinTx(tr: seq<Event>, t: TxId)
  {
    forall e :: e in tr ==> e.Invoke? && GetTxFromContext(e.ctx) == Some(t)
  }

  lemma {:induction false} WithinTxHasNoEffects(tr: seq<Event>, t: TxId)
    requires WithinTx(tr, t)
    ensures Effects(tr) == [] && Invocations(tr) == tr
  {
    if tr != [] {
      assert tr == [tr[0]] + tr[1..];
      WithinTxHasNoEffects(tr[1..], t);
    }
  }

  /** The work never binds `CtxKey` itself when it derives a context. */
  predicate NoRebind(w: Work)
  {
    match w
    case Done(_) => true
    case Call(_, body, rest) => NoRebind(body) && NoRebind(rest)
    case Derive(k, _, body) => k != CtxKey && NoRebind(body)
  }

  // ---------------------------------------------------------------------------
  // Joining an ambient transaction, at any depth
  // ---------------------------------------------------------------------------

  /** Work run where the ambient transaction is `t` sees `t` in every context
      it hands to a nested call, and so every nested call joins `t`: the
      whole trace is invocations of work under `t`. */
  lemma {:induction false} WorkStaysInTx(c: Ctx, w: Work, t: TxId)
    requires GetTxFromContext(c) == Some(t) && NoRebind(w)
    ensures WithinTx(WorkResult(c, w).trace, t)
    decreases w, 0
  {
    match w
    case Done(_) =>
    case Call(db, body, rest) =>
      NestedCallJoins(c, db, body, t);
      if Coordinator(c, db, body).err.Ok? {
        WorkStaysInTx(c, rest, t);
      }
    case Derive(k, v, body) =>
      LookupOther(c, k, v, CtxKey);
      WorkStaysInTx(WithValue(c, k, v), body, t);
  }

  /** A coordinator call made where the ambient transaction is `t` only
      invokes the work, under `t`, and returns the work's result. */
  lemma {:induction false} NestedCallJoins(c: Ctx, db: DB, fn: Work, t: TxId)
    requires GetTxFromContext(c) == Some(t) && NoRebind(fn)
    ensures Coordinator(c, db, fn).err == WorkResult(c, fn).err
    ensures WithinTx(Coordinator(c, db, fn).trace, t)
    decreases fn, 1
  {
    WorkStaysInTx(c, fn, t);
  }

  /** The join branch: when `ctx` already holds a transaction, the call returns
      the work's result unchanged and runs the work in `ctx` itself; if the
      work does not rebind `CtxKey`, no begin, commit, rollback or warning
      happens anywhere in the run, and every invocation of work, at any
      depth, sees the same transaction. */
  lemma JoinLeavesTransactionAlone(ctx: Ctx, db: DB, fn: Work, t: TxId)
    requires GetTxFromContext(ctx) == Some(t)
    ensures Coordinator(ctx, db, fn) == Run(WorkResult(ctx, fn).err, [Invoke(ctx)] + WorkResult(ctx, fn).trace)
    ensures NoRebind(fn) ==>
              Effects(Coordinator(ctx, db, fn).trace) == [] && WithinTx(Coordinator(ctx, db, fn).trace, t)
  {
    if NoRebind(fn) {
      NestedCallJoins(ctx, db, fn, t);
      WithinTxHasNoEffects(Coordinator(ctx, db, fn).trace, t);
    }
  }

  // ---------------------------------------------------------------------------
  // Creating the transaction
  // ---------------------------------------------------------------------------

  /** Begin fails: the begin error is returned wrapped as a begin failure, and
      nothing but the begin happened (no work, no commit, no rollback). */
  lemma BeginFailureStops(ctx: Ctx, db: DB, fn: Work)
    requires GetTxFromContext(ctx).None? && db.begin.BeginError?
    ensures Coordinator(ctx, db, fn) == Run(Err(BeginFailed(db.begin.error)), [Begin(ctx)])
  {}

  /** The events with which a call that began `t` ends it, given the work's
      result: a rollback (and its warning) after failed work, else a commit. */
  function OwnEnding(db: DB, t: TxId, c: Ctx, workErr: Outcome): (ending: seq<Event>)
  {
    if workErr.Err? then [Rollback(t, c)] + (if db.rollback.Err? then [Warn(db.rollback.error)] else [])
    else [Commit(t, c)]
  }

  /** A call that began `t` runs the work under `WithTx(ctx, t)` and then ends
      `t`; it returns the work's error, else the wrapped commit error, else
      success. This holds for every work, whatever it binds. */
  lemma CreatedRun(ctx: Ctx, db: DB, fn: Work)
    requires GetTxFromContext(ctx).None? && db.begin.Began?
    ensures var t, c := db.begin.tx, WithTx(ctx, db.begin.tx);
            var w := WorkResult(c, fn);
            Coordinator(ctx, db, fn).trace == [Begin(ctx)] + ([Invoke(c)] + w.trace) + OwnEnding(db, t, c, w.err)
    ensures var w := WorkResult(WithTx(ctx, db.begin.tx), fn);
            Coordinator(ctx, db, fn).err ==
              if w.err.Err? then w.err else if db.commit.Err? then Err(CommitFailed(db.commit.error)) else Ok
  {}

  /** A begin event, invocations under `t`, then lifecycle events: the two
      views separate the invocations from the rest. */
  lemma SplitViews(head: Event, mid: seq<Event>, ending: seq<Event>, t: TxId)
    requires !head.Invoke? && WithinTx(mid, t) && forall e :: e in ending ==> !e.Invoke?
    ensures Effects([head] + mid + ending) == [head] + ending
    ensures Invocations([head] + mid + ending) == mid
  {
    WithinTxHasNoEffects(mid, t);
    NoInvocationsAreEffects(ending);
    NoInvocationsAreEffects([head]);
    EffectsOfAppend([head], mid);
    EffectsOfAppend([head] + mid, ending);
    InvocationsOfAppend([head], mid);
    InvocationsOfAppend([head] + mid, ending);
    assert Effects([head] + mid) == [head] + [];
    assert Invocations([head] + mid) == [] + mid;
  }

  /** Shape of a run that began `t` when the work keeps `t` ambient: the begin,
      then only invocations of work under `t`, then this call's own ending. */
  lemma CreatedRunShape(ctx: Ctx, db: DB, fn: Work)
    requires GetTxFromContext(ctx).None? && db.begin.Began? && NoRebind(fn)
    ensures var t, c := db.begin.tx, WithTx(ctx, db.begin.tx);
            var tr, w := Coordinator(ctx, db, fn).trace, WorkResult(c, fn);
            Invocations(tr) == [Invoke(c)] + w.trace &&
            WithinTx(Invocations(tr), t) &&
            Effects(tr) == [Begin(ctx)] + OwnEnding(db, t, c, w.err) &&
            tr == [Begin(ctx)] + Invocations(tr) + OwnEnding(db, t, c, w.err)
  {
    var t, c := db.begin.tx, WithTx(ctx, db.begin.tx);
    var w := WorkResult(c, fn);
    WorkStaysInTx(c, fn, t);
    CreatedRun(ctx, db, fn);
    SplitViews(Begin(ctx), [Invoke(c)] + w.trace, OwnEnding(db, t, c, w.err), t);
  }

  /** Work fails: the call returns exactly the work's error whether or not the
      rollback succeeds, and its own last steps are one rollback of the
      transaction it began, followed by the warning when the rollback fails.
      When the work never binds `CtxKey`, that rollback is the only rollback in
      the whole run and nothing is committed. */
  lemma WorkFailureRollsBack(ctx: Ctx, db: DB, fn: Work)
    requires GetTxFromContext(ctx).None? && db.begin.Began?
    requires WorkResult(WithTx(ctx, db.begin.tx), fn).err.Err?
    ensures var t, c := db.begin.tx, WithTx(ctx, db.begin.tx);
            var w, r := WorkResult(c, fn), Coordinator(ctx, db, fn);
            var warned := if db.rollback.Err? then [Warn(db.rollback.error)] else [];
            r.err == w.err &&
            r.trace == [Begin(ctx), Invoke(c)] + w.trace + [Rollback(t, c)] + warned
    ensures var t, r := db.begin.tx, Coordinator(ctx, db, fn);
            NoRebind(fn) ==>
              Effects(r.trace) ==
                [Begin(ctx), Rollback(t, WithTx(ctx, t))] + (if db.rollback.Err? then [Warn(db.rollback.error)] else [])
  {
    var t, c := db.begin.tx, WithTx(ctx, db.begin.tx);
    var w := WorkResult(c, fn);
    var warned := if db.rollback.Err? then [Warn(db.rollback.error)] else [];
    CreatedRun(ctx, db, fn);
    assert OwnEnding(db, t, c, w.err) == [Rollback(t, c)] + warned;
    if NoRebind(fn) {
      CreatedRunShape(ctx, db, fn);
    }
  }

  /** The outcome of the rollback never changes what the call returns. */
  lemma RollbackOutcomeIsNotReturned(ctx: Ctx, db: DB, fn: Work, rollback: Outcome)
    ensures Coordinator(ctx, db.(rollback := rollback), fn).err == Coordinator(ctx, db, fn).err
  {}

  /** Work succeeds and commit fails: the call returns the commit error wrapped
      as a commit failure, not success, and its own last step is the commit of
      the transaction it began. When the work never binds `CtxKey`, that commit
      is the only one in the whole run and nothing is rolled back. */
  lemma CommitFailureSurfaces(ctx: Ctx, db: DB, fn: Work)
    requires GetTxFromContext(ctx).None? && db.begin.Began?
    requires WorkResult(WithTx(ctx, db.begin.tx), fn).err.Ok? && db.commit.Err?
    ensures var t, c := db.begin.tx, WithTx(ctx, db.begin.tx);
            var w, r := WorkResult(c, fn), Coordinator(ctx, db, fn);
            r.err == Err(CommitFailed(db.commit.error)) &&
            r.trace == [Begin(ctx), Invoke(c)] + w.trace + [Commit(t, c)]
    ensures var t, r := db.begin.tx, Coordinator(ctx, db, fn);
            NoRebind(fn) ==> Effects(r.trace) == [Begin(ctx), Commit(t, WithTx(ctx, t))]
  {
    var t, c := db.begin.tx, WithTx(ctx, db.begin.tx);
    CreatedRun(ctx, db, fn);
    assert OwnEnding(db, t, c, WorkResult(c, fn).err) == [Commit(t, c)];
    if NoRebind(fn) {
      CreatedRunShape(ctx, db, fn);
    }
  }

  /** Work and commit succeed: the call returns success and its own last step
      is the commit of the transaction it began. When the work never binds
      `CtxKey`, that commit is the only one in the whole run, nothing is rolled
      back, and every invocation of work, at any depth, ran in the freshly
      begun transaction. */
  lemma SuccessCommitsOnce(ctx: Ctx, db: DB, fn: Work)
    requires GetTxFromContext(ctx).None? && db.begin.Began?
    requires WorkResult(WithTx(ctx, db.begin.tx), fn).err.Ok? && db.commit.Ok?
    ensures var t, c := db.begin.tx, WithTx(ctx, db.begin.tx);
            var w, r := WorkResult(c, fn), Coordinator(ctx, db, fn);
            r.err == Ok &&
            r.trace == [Begin(ctx), Invoke(c)] + w.trace + [Commit(t, c)]
    ensures var t, r := db.begin.tx, Coordinator(ctx, db, fn);
            NoRebind(fn) ==>
              Effects(r.trace) == [Begin(ctx), Commit(t, WithTx(ctx, t))] &&
              WithinTx(Invocations(r.trace), t)
  {
    var t, c := db.begin.tx, WithTx(ctx, db.begin.tx);
    CreatedRun(ctx, db, fn);
    assert OwnEnding(db, t, c, WorkResult(c, fn).err) == [Commit(t, c)];
    if NoRebind(fn) {
      CreatedRunShape(ctx, db, fn);
    }
  }

  /** The order of calls when the call creates the transaction: begin first,
      then every invocation of work, then at most one commit or rollback (a
      rollback possibly followed by its warning), of the begun transaction.
      The work runs, and the transaction is ended, exactly when the begin
      succeeded. */
  lemma CallOrder(ctx: Ctx, db: DB, fn: Work)
    requires GetTxFromContext(ctx).None? && NoRebind(fn)
    ensures var r := Coordinator(ctx, db, fn);
            var fx := Effects(r.trace);
            |fx| >= 1 && fx[0] == Begin(ctx) &&
            r.trace == [Begin(ctx)] + Invocations(r.trace) + fx[1..]
    ensures var r := Coordinator(ctx, db, fn);
            db.begin.BeginError? ==> Invocations(r.trace) == [] && Effects(r.trace) == [Begin(ctx)]
    ensures var r := Coordinator(ctx, db, fn);
            var fx := Effects(r.trace);
            db.begin.Began? ==>
              var t, c := db.begin.tx, WithTx(ctx, db.begin.tx);
              Invocations(r.trace) != [] &&
              (fx[1..] == [Commit(t, c)] || fx[1..] == [Rollback(t, c)] ||
               (|fx| == 3 && fx[1] == Rollback(t, c) && fx[2].Warn?))
  {
    if db.begin.Began? {
      OrderWhenBegun(ctx, db, fn);
    } else {
      var r := Coordinator(ctx, db, fn);
      assert r.trace == [Begin(ctx)];
      NoInvocationsAreEffects(r.trace);
    }
  }

  lemma OrderWhenBegun(ctx: Ctx, db: DB, fn: Work)
    requires GetTxFromContext(ctx).None? && db.begin.Began? && NoRebind(fn)
    ensures var r := Coordinator(ctx, db, fn);
            var fx := Effects(r.trace);
            var t, c := db.begin.tx, WithTx(ctx, db.begin.tx);
            |fx| >= 1 && fx[0] == Begin(ctx) &&
            r.trace == [Begin(ctx)] + Invocations(r.trace) + fx[1..] &&
            Invocations(r.trace) != [] &&
            (fx[1..] == [Commit(t, c)] || fx[1..] == [Rollback(t, c)] ||
             (|fx| == 3 && fx[1] == Rollback(t, c) && fx[2].Warn?))
  {
    var r := Coordinator(ctx, db, fn);
    var fx := Effects(r.trace);
    var t, c := db.begin.tx, WithTx(ctx, db.begin.tx);
    var w := WorkResult(c, fn);
    var ending := OwnEnding(db, t, c, w.err);
    CreatedRunShape(ctx, db, fn);
    assert fx == [Begin(ctx)] + ending;
    assert fx[1..] == ending;
    assert Invocations(r.trace)[0] == Invoke(c);
  }

  /** The join-or-create decision is taken once, before the work runs: when
      the call began `t`, it ends `t` last, by commit or by rollback, whatever
      the work did to its contexts; when it joined, it adds nothing after the
      work's own calls. */
  lemma DecisionIsFixedBeforeWork(ctx: Ctx, db: DB, fn: Work)
    ensures var r := Coordinator(ctx, db, fn);
            var n := |r.trace|;
            GetTxFromContext(ctx).None? && db.begin.Began? ==>
              var t, c := db.begin.tx, WithTx(ctx, db.begin.tx);
              n >= 3 && r.trace[..2] == [Begin(ctx), Invoke(c)] &&
              (r.trace[n - 1] == Commit(t, c) || r.trace[n - 1] == Rollback(t, c) ||
               (r.trace[n - 1].Warn? && r.trace[n - 2] == Rollback(t, c)))
    ensures GetTxFromContext(ctx).Some? ==>
              Coordinator(ctx, db, fn).trace == [Invoke(ctx)] + WorkResult(ctx, fn).trace
  {}

  // ---------------------------------------------------------------------------
  // Scenarios
  // ---------------------------------------------------------------------------

  /** An outer call begins `h1`; its work calls the coordinator again with the
      context it received, and that inner call finds `h1`, begins nothing and
      returns the inner work's result; the outer call then commits `h1` once. */
  lemma NestedScenario(ctx0: Ctx, conn: DB, h1: TxId, resultB: Outcome)
    requires GetTxFromContext(ctx0).None? && conn.begin == Began(h1) && conn.commit.Ok?
    ensures var ctx1 := WithTx(ctx0, h1);
            var r := Coordinator(ctx0, conn, Call(conn, Done(resultB), Done(Ok)));
            r.err == resultB &&
            r.trace == [Begin(ctx0), Invoke(ctx1), Invoke(ctx1)] +
                       (if resultB.Ok? then [Commit(h1, ctx1)]
                        else [Rollback(h1, ctx1)] + (if conn.rollback.Err? then [Warn(conn.rollback.error)] else []))
  {
    var ctx1 := WithTx(ctx0, h1);
    assert Coordinator(ctx1, conn, Done(resultB)) == Run(resultB, [Invoke(ctx1)]);
    assert WorkResult(ctx1, Call(conn, Done(resultB), Done(Ok))) == Run(resultB, [Invoke(ctx1)]);
  }

  /** The work fails with `e1` and the rollback fails with `e2`: the call
      returns `e1`, and `e2` appears only in the warning. */
  lemma RollbackFailureScenario(ctx0: Ctx, conn: DB, h1: TxId, e1: Error, e2: Error)
    requires GetTxFromContext(ctx0).None? && conn.begin == Began(h1) && conn.rollback == Err(e2)
    ensures var ctx1 := WithTx(ctx0, h1);
            Coordinator(ctx0, conn, Done(Err(e1))) ==
              Run(Err(e1), [Begin(ctx0), Invoke(ctx1), Rollback(h1, ctx1), Warn(e2)])
  {}

  /** Why nesting needs the work not to rebind `CtxKey`: a work that binds a
      non-transaction value under `CtxKey` hides the ambient transaction, so a
      nested call begins and commits a second one. */
  lemma RebindingStartsSecondTransaction(ctx0: Ctx, db1: DB, db2: DB, h1: TxId, h2: TxId)
    requires GetTxFromContext(ctx0).None?
    requires db1 == DB(Began(h1), Ok, Ok) && db2 == DB(Began(h2), Ok, Ok)
    ensures var ctx1 := WithTx(ctx0, h1);
            var hidden := WithValue(ctx1, CtxKey, NotTx("nil"));
            var ctx2 := WithTx(hidden, h2);
            var fn := Derive(CtxKey, NotTx("nil"), Call(db2, Done(Ok), Done(Ok)));
            Coordinator(ctx0, db1, fn) ==
              Run(Ok, [Begin(ctx0), Invoke(ctx1), Begin(hidden), Invoke(ctx2), Commit(h2, ctx2), Commit(h1, ctx1)])
  {
    var ctx1 := WithTx(ctx0, h1);
    var hidden := WithValue(ctx1, CtxKey, NotTx("nil"));
    var ctx2 := WithTx(hidden, h2);
    var fn := Derive(CtxKey, NotTx("nil"), Call(db2, Done(Ok), Done(Ok)));
    var inner := [Begin(hidden), Invoke(ctx2), Commit(h2, ctx2)];
    assert GetTxFromContext(hidden).None?;
    CreatedRun(hidden, db2, Done(Ok));
    assert Coordinator(hidden, db2, Done(Ok)) == Run(Ok, inner);
    assert WorkResult(hidden, Call(db2, Done(Ok), Done(Ok))) == Run(Ok, inner + []);
    assert WorkResult(ctx1, fn) == Run(Ok, inner);
    CreatedRun(ctx0, db1, fn);
  }
}
