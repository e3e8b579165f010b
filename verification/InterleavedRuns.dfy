/**
 * Whole runs of the interleaved machine: every committed database is
 * consistent, a commit is indistinguishable from running its whole body at
 * that moment, history only grows, and no transaction that holds its payment
 * row ever waits.
 */
module InterleavedRuns {
  import opened Outcomes
  import opened Tables
  import opened Settlement
  import opened Consistency
  import opened OrderCreation
  import opened Interleaving

  ghost predicate Steps(a: State, b: State) {
    exists step :: Next(a, step, b)
  }

  ghost predicate IsRun(run: seq<State>) {
    run != [] && forall i :: 0 < i < |run| ==> Steps(run[i - 1], run[i])
  }

  function Start(users: map<Id, User>): State {
    State(EMPTY.(users := users), map[])
  }

  lemma {:induction false} RunKeepsInv(run: seq<State>)
    requires IsRun(run) && Inv(run[0])
    ensures forall i :: 0 <= i < |run| ==> Inv(run[i])
  {
    if |run| > 1 {
      var last := |run| - 1;
      RunKeepsInv(run[..last]);
      assert Steps(run[last - 1], run[last]);
      var step :| Next(run[last - 1], step, run[last]);
      assert run[..last][last - 1] == run[last - 1];
      StepKeepsInv(run[last - 1], step, run[last]);
      forall i | 0 <= i < |run| ensures Inv(run[i]) {
        if i < last { assert run[..last][i] == run[i]; }
      }
    }
  }

  /** Every database ever committed, in any interleaving, is consistent. */
  lemma CommittedStatesConsistent(run: seq<State>, users: map<Id, User>, i: nat)
    requires IsRun(run) && run[0] == Start(users) && i < |run|
    ensures Good(run[i].db)
  {
    EmptyIsGood(users);
    RunKeepsInv(run);
  }

  // ---- putting runs together ---------------------------------------------

  /** A step and then a run make a run. */
  lemma Prepend(a: State, step: Step, run: seq<State>)
    requires IsRun(run) && Next(a, step, run[0])
    ensures IsRun([a] + run)
  {
    assert Steps(a, run[0]);
  }

  lemma Join(first: seq<State>, second: seq<State>)
    requires IsRun(first) && IsRun(second) && first[|first| - 1] == second[0]
    ensures IsRun(first + second[1..])
    ensures (first + second[1..])[|first + second[1..]| - 1] == second[|second| - 1]
  {
    hide Steps;
    var run := first + second[1..];
    forall i | 0 < i < |run| ensures Steps(run[i - 1], run[i]) {
      if i >= |first| {
        assert run[i] == second[i - |first| + 1];
        assert run[i - 1] == second[i - |first|];
      }
    }
  }

  lemma StartsGood(db: Db)
    requires Good(db)
    ensures Inv(State(db, map[]))
  {
    hide Good;
  }

  lemma RunEndsGood(run: seq<State>)
    requires IsRun(run) && Inv(run[0])
    ensures Inv(run[|run| - 1])
  {
    hide Inv, Steps;
    RunKeepsInv(run);
  }

  // ---- a commit is atomic -----------------------------------------------

  /** Whatever ran in between, a commit changes the database as running the whole body now would. */
  lemma CommitIsAtomic(a: State, sid: Sid, b: State)
    requires Inv(a) && Next(a, Commit(sid), b)
    ensures var s := a.sessions[sid];
            var body := RunBody(a.db, s.notice, s.phase.payId, s.phase.isAdvance);
            && RowFits(a.db, s.notice, s.phase.payId, s.phase.isAdvance) && s.notice.orderId in a.db.orders
            && body.Ok? && b.db == Merge(a.db, s.notice, s.phase.payId, body.value.w)
            && IsEffect(a.db, s.notice, s.phase.payId, s.phase.isAdvance, body.value.w)
  {
    FinishedEffect(a.db, a.sessions[sid]);
  }

  // ---- history only grows -----------------------------------------------

  predicate ClockKept(a: OrderRow, b: OrderRow) {
    a.advancePaidAt.Some? ==> b.advancePaidAt == a.advancePaidAt && b.deadlineAt == a.deadlineAt
  }

  /** Order o is still there, its timeline extended at the end, its clock where it was, its basis untouched. */
  predicate OrderKept(a: Db, b: Db, o: Id)
    requires o in a.orders
  {
    && o in b.orders
    && EventsOf(a.events, o) <= EventsOf(b.events, o)
    && ClockKept(a.orders[o], b.orders[o])
    && b.orders[o].(status := a.orders[o].status, advancePaidAt := a.orders[o].advancePaidAt,
                    deadlineAt := a.orders[o].deadlineAt) == a.orders[o]
    && (o in a.items ==> o in b.items && b.items[o] == a.items[o])
  }

  predicate HistoryKept(a: Db, b: Db) {
    && (forall o :: o in a.orders ==> OrderKept(a, b, o))
    && a.payments.Keys <= b.payments.Keys && a.outbox.Keys <= b.outbox.Keys
  }

  lemma HistoryReflexive(a: Db)
    ensures HistoryKept(a, a)
  {
  }

  lemma StepKeepsHistory(a: State, step: Step, b: State)
    requires Inv(a) && Next(a, step, b)
    ensures HistoryKept(a.db, b.db)
  {
    hide Good, SessionGood, IsEffect, HistoryKept, CreateOrder, Exec, RunBody;
    HistoryReflexive(a.db);
    match step
    case Commit(sid) =>
      var s := a.sessions[sid];
      CommitIsAtomic(a, sid, b);
      CommitKeepsHistory(a.db, s.notice, s.phase.payId, s.phase.isAdvance,
                         RunBody(a.db, s.notice, s.phase.payId, s.phase.isAdvance).value.w);
    case Create(cmd, ctx) =>
      if CreateOrder(a.db, cmd, ctx).Ok? { CreateKeepsHistory(a.db, cmd, ctx); }
    case Dispatch(key, delivery, attempts) => DispatchKeepsHistory(a.db, key, delivery, attempts);
    case _ =>
  }

  lemma DispatchKeepsHistory(db: Db, key: Key, delivery: Delivery, attempts: nat)
    ensures HistoryKept(db, db.(outbox := Dispatched(db.outbox, key, delivery, attempts)))
  {
  }

  lemma CommitKeepsHistory(db: Db, n: Notice, payId: Id, isAdvance: bool, w: Writes)
    requires n.orderId in db.orders && payId in db.payments && IsEffect(db, n, payId, isAdvance, w)
    ensures HistoryKept(db, Merge(db, n, payId, w))
  {
    forall o | o in db.orders ensures OrderKept(db, Merge(db, n, payId, w), o) {
      CommitKeepsClock(db, n, payId, isAdvance, w, o);
    }
  }

  lemma InsertKeepsHistory(db: Db, o: Id, order: OrderRow, items: seq<ItemRow>, payId: Id, payment: PayRow,
                           push: OutboxRow, sms: OutboxRow)
    requires o !in db.orders && payId !in db.payments
    ensures HistoryKept(db, InsertAll(db, o, order, items, payId, payment, push, sms))
  {
    var db' := InsertAll(db, o, order, items, payId, payment, push, sms);
    forall x | x in db.orders ensures OrderKept(db, db', x) {}
  }

  lemma CreateKeepsHistory(db: Db, cmd: Command, ctx: Context)
    requires CreateOrder(db, cmd, ctx).Ok?
    ensures HistoryKept(db, CreateOrder(db, cmd, ctx).value)
  {
    hide InsertAll, HistoryKept, Plan, NewOrder, PendingPayment, ConfirmationRow;
    PlanParts(cmd, ctx);
    var (lines, p) := Plan(cmd, ctx).value;
    var user := db.users[cmd.customer];
    InsertKeepsHistory(db, ctx.orderId, NewOrder(cmd, ctx.sameCity, p), NewItems(lines), ctx.payId,
                       PendingPayment(cmd, ctx.orderId, p), ConfirmationRow(cmd, user, ctx.orderId, Push),
                       ConfirmationRow(cmd, user, ctx.orderId, Sms));
  }

  lemma HistoryTransitive(a: Db, b: Db, c: Db)
    requires HistoryKept(a, b) && HistoryKept(b, c)
    ensures HistoryKept(a, c)
  {
    forall o | o in a.orders ensures OrderKept(a, c, o) {
      assert OrderKept(a, b, o) && OrderKept(b, c, o);
    }
  }

  /** Timelines are append-only and a stamped clock never moves, over any stretch of any run. */
  lemma {:induction false} HistoryOnlyGrows(run: seq<State>, i: nat, j: nat)
    requires IsRun(run) && Inv(run[0]) && i <= j < |run|
    ensures HistoryKept(run[i].db, run[j].db)
    decreases j
  {
    hide Inv, Next, HistoryKept;
    HistoryReflexive(run[i].db);
    if i < j {
      HistoryOnlyGrows(run, i, j - 1);
      RunKeepsInv(run);
      assert Steps(run[j - 1], run[j]);
      var step :| Next(run[j - 1], step, run[j]);
      StepKeepsHistory(run[j - 1], step, run[j]);
      HistoryTransitive(run[i].db, run[j - 1].db, run[j].db);
    }
  }

  // ---- nothing deadlocks ------------------------------------------------

  /** Between statements, a transaction holding its payment row never waits for another. */
  lemma HolderNeverWaits(st: State, sid: Sid)
    requires Inv(st) && sid in st.sessions && Holder(st.sessions[sid]) && Running(st.sessions[sid])
    ensures Unblocked(st.sessions, sid)
  {
    var s := st.sessions[sid];
    forall t | t in st.sessions && t != sid
      ensures FreeOf(s, st.sessions[t])
    {
      NoConflict(st.db, s, st.sessions[t]);
    }
  }

  lemma NoConflict(db: Db, s: Session, t: Session)
    requires OnePaymentPerOrder(db.payments) && SessionGood(db, s) && SessionGood(db, t) && Apart(s, t)
    requires Holder(s) && Running(s)
    ensures FreeOf(s, t)
  {
    hide RunPrefix, Program, AmountFits;
    HolderRunsLater(s);
    if t.phase.Body? && !Holder(t) { HoldsNothing(db, t); }
  }

  /**
   * A transaction about to run a statement waits exactly when that is its first
   * one, the payment update, and another open transaction past its own has
   * updated the same row or taken the same reference.
   */
  lemma WaitsExactly(st: State, sid: Sid)
    requires Inv(st) && sid in st.sessions && Running(st.sessions[sid])
    ensures !Unblocked(st.sessions, sid) <==>
            st.sessions[sid].phase.k == 0 &&
            exists t :: t in st.sessions && t != sid && st.sessions[t].phase.Body? && st.sessions[t].phase.k >= 1
                        && (st.sessions[t].phase.payId == st.sessions[sid].phase.payId
                            || st.sessions[t].notice.ref == st.sessions[sid].notice.ref)
  {
    hide SessionGood, Good, Apart, Program;
    var s := st.sessions[sid];
    if Holder(s) {
      HolderNeverWaits(st, sid);
    } else {
      ProgramShape(s.notice, s.phase.isAdvance);
      assert NextStmt(s) == MarkPayment;
      forall t | t in st.sessions && t != sid
        ensures !FreeOf(s, st.sessions[t]) <==>
                Holder(st.sessions[t]) && (st.sessions[t].phase.payId == s.phase.payId || st.sessions[t].notice.ref == s.notice.ref)
      {
        assert SessionGood(st.db, st.sessions[t]);
        if st.sessions[t].phase.Body? { HolderWrote(st.db, st.sessions[t]); }
      }
    }
  }

  /** Past its first statement, what is left to run is not the first statement again. */
  lemma HolderRunsLater(s: Session)
    requires Holder(s) && Running(s)
    ensures NextStmt(s) != MarkPayment
  {
    ProgramShape(s.notice, s.phase.isAdvance);
  }

  lemma HoldsNothing(db: Db, t: Session)
    requires SessionGood(db, t) && !Holder(t)
    ensures t.w == NOTHING
  {
  }

  lemma {:induction false} PrefixOfOkIsOk(db: Db, n: Notice, p: Id, isAdvance: bool, k: nat, m: nat)
    requires k <= m <= |Program(n, isAdvance)| && RunPrefix(db, n, p, isAdvance, m).Ok?
    ensures RunPrefix(db, n, p, isAdvance, k).Ok?
    decreases m
  {
    if k < m { PrefixOfOkIsOk(db, n, p, isAdvance, k, m - 1); }
  }

  lemma BodyRuns(db: Db, n: Notice, p: Id)
    requires Good(db) && p in db.payments && db.payments[p].orderId == n.orderId && AmountFits(db.payments[p], n)
    requires !RefOnAnother(db.payments, p, n.ref)
    ensures n.orderId in db.orders && db.orders[n.orderId].customer in db.users
    ensures RunBody(db, n, p, db.payments[p].isAdvance).Ok?
    ensures IsEffect(db, n, p, db.payments[p].isAdvance, RunBody(db, n, p, db.payments[p].isAdvance).value.w)
  {
    hide RunBody, IsEffect, AmountsGood, IsTimeline, Notified, ClockFits, PaymentFits;
    assert PaymentGood(db, p);
    AmountPrintable(db, n, p);
    BodyEffect(db, n, p, db.payments[p].isAdvance);
  }

  /** Nor does any of its statements fail. */
  lemma StatementSucceeds(db: Db, s: Session)
    requires Good(db) && SessionGood(db, s) && Running(s) && !RefOnAnother(db.payments, s.phase.payId, s.notice.ref)
    ensures RunBody(db, s.notice, s.phase.payId, s.phase.isAdvance).Ok?
    ensures Exec(NextStmt(s), ViewOf(db, s), s.notice, s.phase.payId, s.w, s.l).Ok?
  {
    hide Good, IsEffect, Exec, Merge, AmountFits;
    BodyRuns(db, s.notice, s.phase.payId);
    PrefixOfOkIsOk(db, s.notice, s.phase.payId, s.phase.isAdvance, s.phase.k + 1, |Program(s.notice, s.phase.isAdvance)|);
  }

  /** sid may run without anybody's leave: it holds its row, or nobody holds anything. */
  ghost predicate MayRun(st: State, sid: Sid)
    requires sid in st.sessions && st.sessions[sid].phase.Body?
  {
    var s := st.sessions[sid];
    && !RefOnAnother(st.db.payments, s.phase.payId, s.notice.ref)
    && (Holder(s) || forall t :: t in st.sessions && t != sid ==> !Holder(st.sessions[t]))
  }

  lemma MayRunUnblocked(st: State, sid: Sid)
    requires Inv(st) && sid in st.sessions && Running(st.sessions[sid]) && MayRun(st, sid)
    ensures Unblocked(st.sessions, sid)
  {
    hide Good, SessionGood, Program;
    if Holder(st.sessions[sid]) {
      HolderNeverWaits(st, sid);
    } else {
      forall t | t in st.sessions && t != sid
        ensures FreeOf(st.sessions[sid], st.sessions[t])
      {
        HoldsNothing(st.db, st.sessions[t]);
      }
    }
  }

  lemma CommitStep(st: State, sid: Sid)
    requires Inv(st) && sid in st.sessions && Finished(st.sessions[sid])
    ensures var s := st.sessions[sid];
            var body := RunBody(st.db, s.notice, s.phase.payId, s.phase.isAdvance);
            body.Ok? && Next(st, Commit(sid), State(Merge(st.db, s.notice, s.phase.payId, body.value.w), st.sessions - {sid}))
  {
    hide Good, SessionGood, IsEffect, RunBody;
    FinishedEffect(st.db, st.sessions[sid]);
  }

  /** One statement of such a transaction: it runs, and the next may run too. */
  lemma ExecuteStep(st: State, sid: Sid) returns (next: State)
    requires Inv(st) && sid in st.sessions && Running(st.sessions[sid]) && MayRun(st, sid)
    ensures Next(st, Execute(sid), next) && Inv(next) && next.db == st.db && sid in next.sessions
    ensures next.sessions - {sid} == st.sessions - {sid}
    ensures var s, t := st.sessions[sid], next.sessions[sid];
            t.notice == s.notice && t.phase == s.phase.(k := s.phase.k + 1)
    ensures MayRun(next, sid)
  {
    hide Good, SessionGood, Unblocked, Exec, Program;
    var s := st.sessions[sid];
    assert SessionGood(st.db, s);
    MayRunUnblocked(st, sid);
    StatementSucceeds(st.db, s);
    next := Executed(st, sid);
    ExecuteKeepsInv(st, sid);
    assert Holder(next.sessions[sid]);
  }

  /** Such a transaction can always run on to its commit, whatever the others have in flight. */
  lemma {:induction false} RunToCommit(st: State, sid: Sid) returns (run: seq<State>)
    requires Inv(st) && sid in st.sessions && st.sessions[sid].phase.Body? && MayRun(st, sid)
    ensures IsRun(run) && run[0] == st
    ensures var s := st.sessions[sid];
            var body := RunBody(st.db, s.notice, s.phase.payId, s.phase.isAdvance);
            body.Ok? && run[|run| - 1] == State(Merge(st.db, s.notice, s.phase.payId, body.value.w), st.sessions - {sid})
    decreases |Program(st.sessions[sid].notice, st.sessions[sid].phase.isAdvance)| - st.sessions[sid].phase.k
  {
    hide Inv, Next, MayRun, RunBody, Merge, Program;
    var s := st.sessions[sid];
    BodyLength(st, sid);
    if Finished(s) {
      CommitStep(st, sid);
      var next := State(Merge(st.db, s.notice, s.phase.payId, RunBody(st.db, s.notice, s.phase.payId, s.phase.isAdvance).value.w),
                        st.sessions - {sid});
      assert Steps(st, next);
      run := [st, next];
    } else {
      var next := ExecuteStep(st, sid);
      var rest := RunToCommit(next, sid);
      Prepend(st, Execute(sid), rest);
      run := [st] + rest;
    }
  }

  lemma BodyLength(st: State, sid: Sid)
    requires Inv(st) && sid in st.sessions && st.sessions[sid].phase.Body?
    ensures var s := st.sessions[sid]; s.phase.k <= |Program(s.notice, s.phase.isAdvance)|
  {
    hide Good, Program, RunPrefix;
    assert SessionGood(st.db, st.sessions[sid]);
  }
}
