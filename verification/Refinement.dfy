/**
 * The atomic transaction of the serial runs is what the statement-level
 * machine does when a transaction runs alone.
 */
module Refinement {
  import opened Outcomes
  import opened Tables
  import opened Settlement
  import opened Consistency
  import opened Interleaving
  import opened InterleavedRuns
  import opened Replays
  import opened SerialRuns
  import Money

  /** Alone means alone: nobody else is open before, and nobody is open afterwards. */
  ghost predicate RunsAlone(db: Db, run: seq<State>, db': Db) {
    IsRun(run) && run[0] == State(db, map[]) && run[|run| - 1] == State(db', map[])
  }

  lemma TurnedAwayByRef(db: Db, n: Notice) returns (run: seq<State>)
    requires HasRef(db, n.ref)
    ensures RunsAlone(db, run, db)
  {
    hide HasRef;
    var s0, s1 := State(db, map[]), State(db, map[0 := Reader(n)]);
    assert Next(s0, Begin(0, n), s1);
    assert Next(s1, CheckRef(0), s0) by { assert s1.sessions - {0} == map[]; }
    assert Steps(s0, s1) && Steps(s1, s0);
    run := [s0, s1, s0];
  }

  lemma TurnedAwayByRow(db: Db, n: Notice, p: Id) returns (run: seq<State>)
    requires !HasRef(db, n.ref)
    requires HasPending(db, n.orderId) ==>
               && p in db.payments && db.payments[p].orderId == n.orderId && db.payments[p].status == Pending
               && Money.TakaToPoisha(db.payments[p].amountBdt) != Ok(n.amount)
    ensures RunsAlone(db, run, db)
  {
    hide HasRef, HasPending, Money.TakaToPoisha;
    var s0, s1, s2 := State(db, map[]), State(db, map[0 := Reader(n)]), State(db, map[0 := Reader(n).(phase := RefChecked)]);
    assert s1.sessions[0 := Reader(n).(phase := RefChecked)] == s2.sessions;
    assert Next(s0, Begin(0, n), s1);
    assert Next(s1, CheckRef(0), s2);
    assert Next(s2, FindPending(0, p), s0) by { assert s2.sessions - {0} == map[]; }
    assert Steps(s0, s1) && Steps(s1, s2) && Steps(s2, s0);
    run := [s0, s1, s2, s0];
  }

  lemma RunsThrough(db: Db, n: Notice, p: Id) returns (run: seq<State>)
    requires Good(db) && !HasRef(db, n.ref) && p in db.payments && AmountFits(db.payments[p], n)
    requires db.payments[p].orderId == n.orderId && db.payments[p].status == Pending
    ensures RunBody(db, n, p, db.payments[p].isAdvance).Ok?
    ensures RunsAlone(db, run, Merge(db, n, p, RunBody(db, n, p, db.payments[p].isAdvance).value.w))
  {
    hide Good, Inv, Steps, HasRef, AmountFits, RunBody, Merge, MayRun, RefOnAnother;
    var first := ReadOne(db, n, p, map[], 0);
    StartsGood(db);
    RunEndsGood(first);
    var chosen := Reader(n).(phase := Body(p, db.payments[p].isAdvance, 0));
    NoRefAnywhere(db, n, p);
    assert map[][0 := chosen] == map[0 := chosen];
    OneMayRun(db, chosen);
    var second := RunToCommit(State(db, map[0 := chosen]), 0);
    assert map[0 := chosen] - {0} == map[];
    Join(first, second);
    run := first + second[1..];
  }

  lemma OneMayRun(db: Db, s: Session)
    requires s.phase.Body? && !RefOnAnother(db.payments, s.phase.payId, s.notice.ref)
    ensures MayRun(State(db, map[0 := s]), 0)
  {
  }

  /** From every consistent database, every notice: statement by statement alone ends where applySettlement as one step ends. */
  lemma AloneIsAtomic(db: Db, n: Notice) returns (run: seq<State>)
    requires Good(db)
    ensures RunsAlone(db, run, ApplySettlement(db, n).0)
  {
    hide Good, RunsAlone, HasPending, HasRef, Money.TakaToPoisha, RunBody, Merge, Answer;
    if HasRef(db, n.ref) {
      run := TurnedAwayByRef(db, n);
    } else if !HasPending(db, n.orderId) {
      run := TurnedAwayByRow(db, n, n.orderId);
    } else {
      var p := PendingRow(db, n.orderId);
      if AmountFits(db.payments[p], n) {
        run := RunsThrough(db, n, p);
      } else {
        PendingParts(db, p);
        run := TurnedAwayByRow(db, n, p);
      }
    }
  }

  // ---- when an interleaved commit is the serial step ---------------------

  lemma PendingCommitIsSerial(db: Db, s: Session)
    requires Good(db) && SessionGood(db, s) && Finished(s) && db.payments[s.phase.payId].status == Pending
    ensures ApplySettlement(db, s.notice).0 == Merge(db, s.notice, s.phase.payId, s.w)
  {
    hide Good, RunPrefix, Program, Money.TakaToPoisha, IsEffect, Merge, Answer;
    var n, p := s.notice, s.phase.payId;
    FinishedEffect(db, s);
    NoRefYet(db, n, p);
    GoodKeys(db);
    assert HasPending(db, n.orderId);
    SamePending(db, p, PendingRow(db, n.orderId));
  }

  lemma NoRefYet(db: Db, n: Notice, p: Id)
    requires Good(db) && p in db.payments && db.payments[p].status == Pending && !RefOnAnother(db.payments, p, n.ref)
    ensures !HasRef(db, n.ref)
  {
    hide Good;
    PendingHasNoRef(db, p);
  }

  lemma DecidedStepIsNothing(db: Db, n: Notice, p: Id)
    requires Good(db) && p in db.payments && db.payments[p].orderId == n.orderId && db.payments[p].status != Pending
    ensures ApplySettlement(db, n).0 == db
  {
    hide Good, HasRef, Money.TakaToPoisha, RunBody;
    GoodKeys(db);
    forall q | q in db.payments && db.payments[q].orderId == n.orderId ensures q == p { SamePending(db, p, q); }
  }

  lemma CommitChanges(db: Db, s: Session)
    requires Good(db) && SessionGood(db, s) && Finished(s)
    ensures Merge(db, s.notice, s.phase.payId, s.w) != db
  {
    hide Good, RunPrefix, Program, Money.TakaToPoisha;
    FinishedEffect(db, s);
    var o := s.notice.orderId;
    assert |EventsOf(Merge(db, s.notice, s.phase.payId, s.w).events, o)| == |EventsOf(db.events, o)| + 1;
  }

  /**
   * In any interleaving, a commit is the serial step of its notice exactly
   * when its payment row is still pending at that moment.
   */
  lemma CommitIsSerialExactly(a: State, sid: Sid, b: State)
    requires Inv(a) && Next(a, Commit(sid), b)
    ensures a.sessions[sid].phase.payId in a.db.payments
    ensures b.db == ApplySettlement(a.db, a.sessions[sid].notice).0 <==>
            a.db.payments[a.sessions[sid].phase.payId].status == Pending
  {
    hide Good, ApplySettlement, Merge, RunPrefix, Program;
    var s := a.sessions[sid];
    assert SessionGood(a.db, s);
    if a.db.payments[s.phase.payId].status == Pending {
      PendingCommitIsSerial(a.db, s);
    } else {
      DecidedStepIsNothing(a.db, s.notice, s.phase.payId);
      CommitChanges(a.db, s);
    }
  }
}
