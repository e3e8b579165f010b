/**
 * Delivering a notice again while the first delivery is still open. The
 * documented "a replay is a no-op" does not hold then; this module gives the
 * run that shows it, and says exactly in which states it can still happen.
 */
module Replays {
  import opened Outcomes
  import opened Tables
  import opened Settlement
  import opened Consistency
  import opened OrderCreation
  import opened Interleaving
  import opened InterleavedRuns

  lemma MergedTables(db: Db, n: Notice, p: Id, isAdvance: bool, w: Writes)
    requires p in db.payments && n.orderId in db.orders && IsEffect(db, n, p, isAdvance, w)
    ensures var db' := Merge(db, n, p, w);
            && EventsOf(db'.events, n.orderId) == EventsOf(db.events, n.orderId)
                 + [EventRow(Some(db.orders[n.orderId].status), TargetStatus(n.outcome), NoteKey(n.outcome))]
            && db'.payments == db.payments[p := Marked(db.payments[p], n)]
            && n.orderId in db'.orders && db'.orders[n.orderId].status == TargetStatus(n.outcome)
  {
  }

  /** A finished notice leaves its order one event longer, in its target state. */
  lemma AppliedOnce(db: Db, n: Notice, p: Id)
    requires Good(db) && p in db.payments && db.payments[p].orderId == n.orderId && AmountFits(db.payments[p], n)
    requires !RefOnAnother(db.payments, p, n.ref)
    ensures n.orderId in db.orders && RunBody(db, n, p, db.payments[p].isAdvance).Ok?
    ensures var db' := Merge(db, n, p, RunBody(db, n, p, db.payments[p].isAdvance).value.w);
            && Good(db') && EventsOf(db'.events, n.orderId) == EventsOf(db.events, n.orderId)
                 + [EventRow(Some(db.orders[n.orderId].status), TargetStatus(n.outcome), NoteKey(n.outcome))]
            && db'.payments == db.payments[p := Marked(db.payments[p], n)]
            && n.orderId in db'.orders && db'.orders[n.orderId].status == TargetStatus(n.outcome)
            && !RefOnAnother(db'.payments, p, n.ref)
  {
    hide Good, RunBody, IsEffect, Merge, RefOnAnother, AmountFits, EventsOf;
    BodyRuns(db, n, p);
    var w := RunBody(db, n, p, db.payments[p].isAdvance).value.w;
    MergedTables(db, n, p, db.payments[p].isAdvance, w);
    CommitKeepsGood(db, n, p, db.payments[p].isAdvance, w);
    RefOnAnotherIgnoresRow(db.payments, p, Marked(db.payments[p], n), n.ref);
  }

  function Reader(n: Notice): Session {
    Session(n, Begun, NOTHING, NO_LOCALS)
  }

  /** Two sessions of the same notice, both past their reads. */
  function BothChose(db: Db, n: Notice, p: Id): State
    requires p in db.payments
  {
    var chosen := Reader(n).(phase := Body(p, db.payments[p].isAdvance, 0));
    State(db, map[0 := chosen, 1 := chosen])
  }

  lemma BothRead(db: Db, n: Notice, p: Id) returns (run: seq<State>)
    requires !HasRef(db, n.ref) && p in db.payments && AmountFits(db.payments[p], n)
    requires db.payments[p].orderId == n.orderId && db.payments[p].status == Pending
    ensures IsRun(run) && run[0] == State(db, map[]) && run[|run| - 1] == BothChose(db, n, p)
  {
    hide HasRef, Steps;
    var r, b := Reader(n), Reader(n).(phase := Body(p, db.payments[p].isAdvance, 0));
    var first := ReadOne(db, n, p, map[], 0);
    var second := ReadOne(db, n, p, map[0 := b], 1);
    assert map[][0 := b] == map[0 := b] && map[0 := b][1 := b] == map[0 := b, 1 := b];
    Join(first, second);
    run := first + second[1..];
  }

  /** The three statements before the body: begin, no such reference yet, a fitting pending row. */
  lemma ReadOne(db: Db, n: Notice, p: Id, others: map<Sid, Session>, sid: Sid) returns (run: seq<State>)
    requires sid !in others && !HasRef(db, n.ref) && p in db.payments && AmountFits(db.payments[p], n)
    requires db.payments[p].orderId == n.orderId && db.payments[p].status == Pending
    ensures IsRun(run) && run[0] == State(db, others)
    ensures run[|run| - 1] == State(db, others[sid := Reader(n).(phase := Body(p, db.payments[p].isAdvance, 0))])
  {
    hide HasRef;
    var r, c, b := Reader(n), Reader(n).(phase := RefChecked), Reader(n).(phase := Body(p, db.payments[p].isAdvance, 0));
    var s0, s1, s2, s3 := State(db, others), State(db, others[sid := r]), State(db, others[sid := c]), State(db, others[sid := b]);
    assert s1.sessions[sid := c] == s2.sessions && s2.sessions[sid := b] == s3.sessions;
    assert Next(s0, Begin(sid, n), s1);
    assert Next(s1, CheckRef(sid), s2);
    assert HasPending(db, n.orderId);
    assert Next(s2, FindPending(sid, p), s3);
    run := [s0, s1, s2, s3];
  }

  lemma PendingIsCreated(db: Db, p: Id)
    requires Good(db) && p in db.payments && db.payments[p].status == Pending
    ensures db.payments[p].orderId in db.orders && db.orders[db.payments[p].orderId].status == Created
  {
    hide AmountsGood, IsTimeline, Notified, ClockFits;
    assert PaymentGood(db, p);
  }

  lemma BothMayRun(db: Db, n: Notice, p: Id)
    requires p in db.payments && !RefOnAnother(db.payments, p, n.ref)
    ensures MayRun(BothChose(db, n, p), 0)
  {
  }

  lemma NoRefAnywhere(db: Db, n: Notice, p: Id)
    requires !HasRef(db, n.ref)
    ensures !RefOnAnother(db.payments, p, n.ref)
  {
  }

  lemma StillFits(db: Db, n: Notice, p: Id, row: PayRow)
    requires AmountFits(row, n)
    ensures AmountFits(Marked(row, n), n) && Marked(row, n).orderId == row.orderId && Marked(row, n).isAdvance == row.isAdvance
  {
  }

  /**
   * "A replayed webhook is a no-op" and "the UNIQUE constraint rejects the
   * loser" are false under concurrency: from every consistent database with a
   * fitting pending row, two deliveries of one and the same notice can both
   * be applied, and the timeline gets two events.
   */
  lemma ConcurrentReplay(db: Db, n: Notice, p: Id) returns (run: seq<State>)
    requires Good(db) && !HasRef(db, n.ref) && p in db.payments && AmountFits(db.payments[p], n)
    requires db.payments[p].orderId == n.orderId && db.payments[p].status == Pending
    ensures IsRun(run) && run[0] == State(db, map[]) && run[|run| - 1].sessions == map[]
    ensures var target, key := TargetStatus(n.outcome), NoteKey(n.outcome);
            EventsOf(run[|run| - 1].db.events, n.orderId)
            == EventsOf(db.events, n.orderId) + [EventRow(Some(Created), target, key), EventRow(Some(target), target, key)]
  {
    hide Good, Inv, Steps, Merge, RunBody, RefOnAnother, HasRef, AmountFits, MayRun, EventsOf, Marked;
    PendingIsCreated(db, p);
    NoRefAnywhere(db, n, p);
    AppliedOnce(db, n, p);
    StillFits(db, n, p, db.payments[p]);
    var both := BothChose(db, n, p);
    var opening := BothRead(db, n, p);
    StartsGood(db);
    RunEndsGood(opening);
    BothMayRun(db, n, p);
    var first := RunToCommit(both, 0);
    RunEndsGood(first);
    var between := first[|first| - 1];
    assert between.sessions == map[1 := both.sessions[1]];
    AppliedOnce(between.db, n, p);
    LastMayRun(between.db, both.sessions[1]);
    var second := RunToCommit(between, 1);
    assert second[|second| - 1].sessions == map[];
    Join(first, second);
    Join(opening, first + second[1..]);
    run := opening + (first + second[1..])[1..];
    assert EventsOf(run[|run| - 1].db.events, n.orderId) == EventsOf(second[|second| - 1].db.events, n.orderId);
  }

  lemma LastMayRun(db: Db, s: Session)
    requires s.phase.Body? && !RefOnAnother(db.payments, s.phase.payId, s.notice.ref)
    ensures MayRun(State(db, map[1 := s]), 1)
  {
  }

  /** The opening in which session 0 begins before session 1, seen state by state. */
  lemma FirstBeginsFirst(db: Db, n: Notice, p: Id) returns (run: seq<State>, i: nat)
    requires !HasRef(db, n.ref) && p in db.payments && AmountFits(db.payments[p], n)
    requires db.payments[p].orderId == n.orderId && db.payments[p].status == Pending
    ensures IsRun(run) && |run| > 1 && run[0] == State(db, map[]) && run[|run| - 1] == BothChose(db, n, p)
    ensures i < |run| - 1 && run[i].sessions.Keys == {0}
  {
    hide HasRef, Steps;
    var b := Reader(n).(phase := Body(p, db.payments[p].isAdvance, 0));
    var first := ReadOne(db, n, p, map[], 0);
    var second := ReadOne(db, n, p, map[0 := b], 1);
    assert map[][0 := b] == map[0 := b] && map[0 := b][1 := b] == map[0 := b, 1 := b];
    Join(first, second);
    run := first + second[1..];
    i := |first| - 1;
    assert run[|run| - 1] != run[i];
  }

  /**
   * An event carries the start of its transaction as its time. The session
   * that began first may commit last: its event follows in the timeline, and
   * by time it comes first, from a status the order did not have yet.
   */
  lemma LaterStartCommitsFirst(db: Db, n: Notice, p: Id) returns (run: seq<State>, i: nat, j: nat, k: nat)
    requires Good(db) && !HasRef(db, n.ref) && p in db.payments && AmountFits(db.payments[p], n)
    requires db.payments[p].orderId == n.orderId && db.payments[p].status == Pending
    ensures IsRun(run) && run[0] == State(db, map[]) && run[|run| - 1].sessions == map[]
    ensures i < j < k < |run| && run[i].sessions.Keys == {0} && run[j].sessions.Keys == {0, 1} && run[k].sessions.Keys == {0}
    ensures EventsOf(run[k].db.events, n.orderId)
            == EventsOf(db.events, n.orderId) + [EventRow(Some(Created), TargetStatus(n.outcome), NoteKey(n.outcome))]
    ensures EventsOf(run[|run| - 1].db.events, n.orderId)
            == EventsOf(db.events, n.orderId) + [EventRow(Some(Created), TargetStatus(n.outcome), NoteKey(n.outcome)),
                                                 EventRow(Some(TargetStatus(n.outcome)), TargetStatus(n.outcome), NoteKey(n.outcome))]
  {
    hide Good, Inv, Steps, Merge, RunBody, RefOnAnother, HasRef, AmountFits, MayRun, EventsOf, Marked, TargetStatus, NoteKey;
    PendingIsCreated(db, p);
    NoRefAnywhere(db, n, p);
    AppliedOnce(db, n, p);
    StillFits(db, n, p, db.payments[p]);
    var both := BothChose(db, n, p);
    var opening, early := FirstBeginsFirst(db, n, p);
    StartsGood(db);
    RunEndsGood(opening);
    SecondMayRun(db, n, p);
    var first := RunToCommit(both, 1);
    RunEndsGood(first);
    var between := first[|first| - 1];
    assert between.sessions == map[0 := both.sessions[0]];
    AppliedOnce(between.db, n, p);
    OnlyMayRun(between.db, both.sessions[0]);
    var second := RunToCommit(between, 0);
    assert second[|second| - 1].sessions == map[];
    Join(first, second);
    var rest := first + second[1..];
    Join(opening, rest);
    run := opening + rest[1..];
    assert EventsOf(run[|run| - 1].db.events, n.orderId) == EventsOf(second[|second| - 1].db.events, n.orderId);
    i, j, k := early, |opening| - 1, |opening| + |first| - 2;
    assert run[i] == opening[i] && run[j] == both && run[k] == between;
  }

  lemma SecondMayRun(db: Db, n: Notice, p: Id)
    requires p in db.payments && !RefOnAnother(db.payments, p, n.ref)
    ensures MayRun(BothChose(db, n, p), 1)
  {
  }

  lemma OnlyMayRun(db: Db, s: Session)
    requires s.phase.Body? && !RefOnAnother(db.payments, s.phase.payId, s.notice.ref)
    ensures MayRun(State(db, map[0 := s]), 0)
  {
  }

  /** Some open transaction has already chosen a payment row of order o. */
  predicate Chosen(st: State, o: Id) {
    exists sid :: sid in st.sessions && st.sessions[sid].phase.Body? && st.sessions[sid].notice.orderId == o
  }

  ghost predicate Closed(st: State, o: Id) {
    o in st.db.orders && !HasPending(st.db, o) && !Chosen(st, o)
  }

  /** Order o, its timeline and its payment are what they were. */
  predicate Untouched(a: Db, b: Db, o: Id) {
    && o in a.orders && o in b.orders && b.orders[o] == a.orders[o] && EventsOf(b.events, o) == EventsOf(a.events, o)
    && (forall p :: p in a.payments && a.payments[p].orderId == o ==> p in b.payments && b.payments[p] == a.payments[p])
    && (forall p :: p in b.payments && b.payments[p].orderId == o ==> p in a.payments && a.payments[p] == b.payments[p])
  }

  lemma CommitLeavesOthers(db: Db, n: Notice, payId: Id, isAdvance: bool, w: Writes, o: Id)
    requires RowFits(db, n, payId, isAdvance) && n.orderId in db.orders && IsEffect(db, n, payId, isAdvance, w)
    requires o in db.orders && o != n.orderId
    ensures Untouched(db, Merge(db, n, payId, w), o)
  {
  }

  lemma InsertLeavesOthers(db: Db, created: Id, order: OrderRow, items: seq<ItemRow>, payId: Id, payment: PayRow,
                           push: OutboxRow, sms: OutboxRow, o: Id)
    requires created !in db.orders && payId !in db.payments && payment.orderId == created && o in db.orders
    ensures Untouched(db, InsertAll(db, created, order, items, payId, payment, push, sms), o)
  {
  }

  lemma CreateLeavesOthers(db: Db, cmd: Command, ctx: Context, o: Id)
    requires CreateOrder(db, cmd, ctx).Ok? && o in db.orders
    ensures Untouched(db, CreateOrder(db, cmd, ctx).value, o)
  {
    hide InsertAll, Untouched, Plan, NewOrder, ConfirmationRow;
    PlanParts(cmd, ctx);
    var (lines, p) := Plan(cmd, ctx).value;
    var user := db.users[cmd.customer];
    InsertLeavesOthers(db, ctx.orderId, NewOrder(cmd, ctx.sameCity, p), NewItems(lines), ctx.payId,
                       PendingPayment(cmd, ctx.orderId, p), ConfirmationRow(cmd, user, ctx.orderId, Push),
                       ConfirmationRow(cmd, user, ctx.orderId, Sms), o);
  }

  /**
   * Once an order's payment is not pending and no open transaction has chosen
   * it, no delivery of any notice changes the order, its timeline or its
   * payment again: closed orders stay closed.
   */
  lemma ClosedStaysClosed(a: State, step: Step, b: State, o: Id)
    requires Inv(a) && Next(a, step, b) && Closed(a, o)
    ensures Closed(b, o) && Untouched(a.db, b.db, o)
  {
    hide Inv, Next, Untouched, Chosen, HasPending;
    ClosedCommit(a, step, b, o);
    ClosedDb(a, step, b, o);
    ClosedSessions(a, step, b, o);
    ClosedFrom(a, b, o);
  }

  lemma ClosedCommit(a: State, step: Step, b: State, o: Id)
    requires Next(a, step, b) && !Chosen(a, o)
    ensures step.Commit? ==> step.sid in a.sessions && a.sessions[step.sid].notice.orderId != o
  {
    hide ViewOf;
  }

  lemma ClosedFrom(a: State, b: State, o: Id)
    requires Closed(a, o) && Untouched(a.db, b.db, o) && !Chosen(b, o)
    ensures Closed(b, o)
  {
    hide Chosen;
  }

  lemma ClosedDb(a: State, step: Step, b: State, o: Id)
    requires Inv(a) && Next(a, step, b) && o in a.db.orders
    requires step.Commit? ==> a.sessions[step.sid].notice.orderId != o
    ensures Untouched(a.db, b.db, o)
  {
    hide Good, SessionGood, Untouched, CreateOrder, HasPending, IsEffect, RunBody;
    UntouchedReflexive(a.db, o);
    match step
    case Commit(sid) =>
      var s := a.sessions[sid];
      CommitIsAtomic(a, sid, b);
      CommitLeavesOthers(a.db, s.notice, s.phase.payId, s.phase.isAdvance,
                         RunBody(a.db, s.notice, s.phase.payId, s.phase.isAdvance).value.w, o);
    case Create(cmd, ctx) => if CreateOrder(a.db, cmd, ctx).Ok? { CreateLeavesOthers(a.db, cmd, ctx, o); }
    case Dispatch(key, delivery, attempts) => DispatchLeavesOrders(a.db, key, delivery, attempts, o);
    case _ =>
  }

  lemma DispatchLeavesOrders(db: Db, key: Key, delivery: Delivery, attempts: nat, o: Id)
    requires o in db.orders
    ensures Untouched(db, db.(outbox := Dispatched(db.outbox, key, delivery, attempts)), o)
  {
  }

  lemma UntouchedReflexive(db: Db, o: Id)
    requires o in db.orders
    ensures Untouched(db, db, o)
  {
  }

  lemma ClosedSessions(a: State, step: Step, b: State, o: Id)
    requires Next(a, step, b) && !HasPending(a.db, o) && !Chosen(a, o)
    ensures !Chosen(b, o)
  {
    hide CreateOrder, HasPending, Exec, ViewOf;
    forall sid | sid in b.sessions
      ensures !(b.sessions[sid].phase.Body? && b.sessions[sid].notice.orderId == o)
    {
      if sid in a.sessions && b.sessions[sid] == a.sessions[sid] {
        assert !(a.sessions[sid].phase.Body? && a.sessions[sid].notice.orderId == o);
      }
    }
  }

  // ---- exactly when a decided order can still change ---------------------

  lemma UntouchedTransitive(a: Db, b: Db, c: Db, o: Id)
    requires Untouched(a, b, o) && Untouched(b, c, o)
    ensures Untouched(a, c, o)
  {
  }

  lemma {:induction false} ClosedAlongRun(run: seq<State>, o: Id)
    requires IsRun(run) && Inv(run[0]) && Closed(run[0], o)
    ensures Closed(run[|run| - 1], o) && Untouched(run[0].db, run[|run| - 1].db, o)
  {
    hide Inv, Next, Closed, Untouched;
    var last := |run| - 1;
    if last == 0 {
      UntouchedReflexive(run[0].db, o) by { assert Closed(run[0], o); ClosedIsThere(run[0], o); }
    } else {
      RunKeepsInv(run);
      assert run[..last][|run[..last]| - 1] == run[last - 1] && run[..last][0] == run[0];
      FirstPart(run, last);
      ClosedAlongRun(run[..last], o);
      assert Steps(run[last - 1], run[last]);
      var step :| Next(run[last - 1], step, run[last]);
      ClosedStaysClosed(run[last - 1], step, run[last], o);
      UntouchedTransitive(run[0].db, run[last - 1].db, run[last].db, o);
    }
  }

  lemma FirstPart(run: seq<State>, k: nat)
    requires IsRun(run) && 0 < k <= |run|
    ensures IsRun(run[..k])
  {
    hide Steps;
    forall i | 0 < i < k ensures Steps(run[..k][i - 1], run[..k][i]) {
      assert run[..k][i - 1] == run[i - 1] && run[..k][i] == run[i];
    }
  }

  lemma ClosedIsThere(st: State, o: Id)
    requires Closed(st, o)
    ensures o in st.db.orders
  {
  }

  lemma AbortStep(st: State, other: Sid)
    requires other in st.sessions
    ensures Next(st, Abort(other), State(st.db, st.sessions - {other}))
  {
  }

  lemma KeptWithout<K, V>(m: map<K, V>, keep: set<K>, other: K)
    requires other !in keep
    ensures m - {other} - ((m - {other}).Keys - keep) == m - (m.Keys - keep)
  {
  }

  /** Everybody else may give up. */
  lemma {:induction false} KeepOnly(st: State, keep: set<Sid>) returns (run: seq<State>)
    ensures IsRun(run) && run[0] == st && run[|run| - 1] == State(st.db, st.sessions - (st.sessions.Keys - keep))
    decreases |st.sessions|
  {
    hide Steps, Next, Leave;
    if other :| other in st.sessions && other !in keep {
      var next := State(st.db, st.sessions - {other});
      AbortStep(st, other);
      FewerKeys(st.sessions, other);
      var rest := KeepOnly(next, keep);
      Prepend(st, Abort(other), rest);
      run := [st] + rest;
      KeptWithout(st.sessions, keep, other);
    } else {
      assert st.sessions - (st.sessions.Keys - keep) == st.sessions;
      run := [st];
    }
  }

  lemma FewerKeys<K, V>(m: map<K, V>, k: K)
    requires k in m
    ensures |m - {k}| < |m|
  {
    assert (m - {k}).Keys == m.Keys - {k};
    assert |m.Keys| == |m| && |(m - {k}).Keys| == |m - {k}|;
  }

  ghost predicate Changes(st: State, run: seq<State>, o: Id) {
    IsRun(run) && run[0] == st && !Untouched(st.db, run[|run| - 1].db, o)
  }

  lemma ChosenCanApply(st: State, sid: Sid) returns (run: seq<State>)
    requires Inv(st) && sid in st.sessions && st.sessions[sid].phase.Body?
    requires !RefOnAnother(st.db.payments, st.sessions[sid].phase.payId, st.sessions[sid].notice.ref)
    ensures IsRun(run) && run[0] == st
    ensures var o := st.sessions[sid].notice.orderId;
            |EventsOf(run[|run| - 1].db.events, o)| == |EventsOf(st.db.events, o)| + 1
  {
    hide Good, Steps, Merge, RunBody, RefOnAnother, EventsOf, MayRun, AmountFits, RunPrefix;
    var s := st.sessions[sid];
    assert SessionGood(st.db, s);
    AppliedOnce(st.db, s.notice, s.phase.payId);
    var alone := KeepOnly(st, {sid});
    assert st.sessions - (st.sessions.Keys - {sid}) == map[sid := s];
    RunEndsGood(alone);
    AloneMayRun(st.db, sid, s);
    var through := RunToCommit(State(st.db, map[sid := s]), sid);
    Join(alone, through);
    run := alone + through[1..];
  }

  lemma AloneMayRun(db: Db, sid: Sid, s: Session)
    requires s.phase.Body? && !RefOnAnother(db.payments, s.phase.payId, s.notice.ref)
    ensures MayRun(State(db, map[sid := s]), sid)
  {
  }

  lemma LongerTimeline(a: Db, b: Db, o: Id)
    requires |EventsOf(b.events, o)| > |EventsOf(a.events, o)|
    ensures !Untouched(a, b, o)
  {
  }
}
