/**
 * The steps of the three machines, field by field: whole transactions, single
 * statements, and dispatchers. What a step may change, what it must change,
 * and when it may be taken.
 */
module StepRecord {
  import opened Outcomes
  import opened Tables
  import opened Settlement
  import opened OrderCreation
  import S = SerialRuns
  import I = Interleaving
  import D = Dispatching
  import F = DispatcherFleet
  import Money

  /** Only the delivery status and the attempts of one outbox row, if it is there, are overwritten. */
  predicate Redelivered(a: Db, b: Db, key: Key, delivery: Delivery, attempts: nat) {
    && b.users == a.users && b.orders == a.orders && b.items == a.items && b.events == a.events && b.payments == a.payments
    && b.outbox.Keys == a.outbox.Keys
    && (forall k :: k in a.outbox && k != key ==> b.outbox[k] == a.outbox[k])
    && (key in a.outbox ==>
          var row := a.outbox[key];
          b.outbox[key] == OutboxRow(row.userId, row.phone, row.language, row.channel, row.templateKey, row.params, row.orderId,
                                     delivery, attempts))
  }

  /** An order is created as one step, or refused and nothing changes. */
  predicate Attempted(a: Db, b: Db, cmd: Command, ctx: Context) {
    if CreateOrder(a, cmd, ctx).Ok? then CreateOrder(a, cmd, ctx) == Ok(b) else b == a
  }

  /** One action of a serial run. */
  lemma ActionIs(w: S.World, a: S.Action)
    ensures var next := S.After(w, a);
            match a
            case Create(cmd, ctx) => next.catalog == w.catalog && Attempted(w.db, next.db, cmd, ctx)
            case Deliver(n) => next.catalog == w.catalog && next.db == ApplySettlement(w.db, n).0
            case EditCatalog(catalog) => next.catalog == catalog && next.db == w.db
            case Dispatch(key, delivery, attempts) => next.catalog == w.catalog && Redelivered(w.db, next.db, key, delivery, attempts)
  {
  }

  /** Session sid is there, and at this phase. */
  predicate At(a: I.State, sid: I.Sid, phase: I.Phase) {
    sid in a.sessions && a.sessions[sid].phase == phase
  }

  /** The transaction is over, or goes on as session s; the database is as it was. */
  predicate Ends(a: I.State, sid: I.Sid, b: I.State) {
    b.db == a.db && b.sessions.Keys == a.sessions.Keys - {sid} && forall t :: t in b.sessions ==> b.sessions[t] == a.sessions[t]
  }

  predicate GoesOn(a: I.State, sid: I.Sid, b: I.State, s: I.Session) {
    && b.db == a.db && b.sessions.Keys == a.sessions.Keys + {sid} && b.sessions[sid] == s
    && forall t :: t in a.sessions && t != sid ==> b.sessions[t] == a.sessions[t]
  }

  /** The guards of a transaction: it begins, ends on a known reference, and chooses a pending row of its order and of its amount. */
  lemma GuardsAre(a: I.State, sid: I.Sid, n: Notice, p: Id, b: I.State)
    ensures I.Next(a, I.Begin(sid, n), b) <==>
            sid !in a.sessions && GoesOn(a, sid, b, I.Session(n, I.Begun, Writes(None, None, None, None, None), Locals(None, None, None, None)))
    ensures I.Next(a, I.CheckRef(sid), b) <==>
            At(a, sid, I.Begun) &&
            var s := a.sessions[sid];
            if exists q :: q in a.db.payments && a.db.payments[q].ref == Some(s.notice.ref) then Ends(a, sid, b)
            else GoesOn(a, sid, b, s.(phase := I.RefChecked))
    ensures I.Next(a, I.FindPending(sid, p), b) <==>
            At(a, sid, I.RefChecked) &&
            var s := a.sessions[sid];
            if !exists q :: q in a.db.payments && a.db.payments[q].orderId == s.notice.orderId && a.db.payments[q].status == Pending
            then Ends(a, sid, b)
            else
              && p in a.db.payments && a.db.payments[p].orderId == s.notice.orderId && a.db.payments[p].status == Pending
              && if Money.TakaToPoisha(a.db.payments[p].amountBdt) == Ok(s.notice.amount)
                 then GoesOn(a, sid, b, s.(phase := I.Body(p, a.db.payments[p].isAdvance, 0)))
                 else Ends(a, sid, b)
  {
    hide Money.TakaToPoisha;
    StaysOrLeaves(a, sid, b);
  }

  lemma StaysOrLeaves(a: I.State, sid: I.Sid, b: I.State)
    ensures b == I.Leave(a, sid) <==> Ends(a, sid, b)
    ensures forall s :: b == I.Stay(a, sid, s) <==> GoesOn(a, sid, b, s)
  {
    if Ends(a, sid, b) { assert b.sessions == a.sessions - {sid}; }
    forall s ensures b == I.Stay(a, sid, s) <==> GoesOn(a, sid, b, s) {
      if GoesOn(a, sid, b, s) { assert b.sessions == a.sessions[sid := s]; }
    }
  }

  /** A statement moves its transaction on by one, or ends it with its error; a commit makes its writes the database; an abort drops them. */
  lemma StatementsAre(a: I.State, sid: I.Sid, b: I.State)
    ensures I.Next(a, I.Execute(sid), b) <==>
            && sid in a.sessions && I.Running(a.sessions[sid]) && I.Unblocked(a.sessions, sid)
            && var s := a.sessions[sid];
               match Exec(Program(s.notice, s.phase.isAdvance)[s.phase.k], Merge(a.db, s.notice, s.phase.payId, s.w),
                          s.notice, s.phase.payId, s.w, s.l)
               case Err(_) => Ends(a, sid, b)
               case Ok(done) =>
                 GoesOn(a, sid, b, I.Session(s.notice, I.Body(s.phase.payId, s.phase.isAdvance, s.phase.k + 1), done.w, done.l))
    ensures I.Next(a, I.Commit(sid), b) <==>
            && sid in a.sessions && a.sessions[sid].phase.Body?
            && var s := a.sessions[sid];
               && s.phase.k == |Program(s.notice, s.phase.isAdvance)|
               && Ends(I.State(Merge(a.db, s.notice, s.phase.payId, s.w), a.sessions), sid, b)
    ensures I.Next(a, I.Abort(sid), b) <==> sid in a.sessions && Ends(a, sid, b)
  {
    hide Exec, Merge, Program, I.Unblocked;
    StaysOrLeaves(a, sid, b);
    if sid in a.sessions && a.sessions[sid].phase.Body? {
      var s := a.sessions[sid];
      StaysOrLeaves(I.State(Merge(a.db, s.notice, s.phase.payId, s.w), a.sessions), sid, b);
    }
  }

  /** What else happens in between. */
  lemma OthersAre(a: I.State, b: I.State, cmd: Command, ctx: Context, key: Key, delivery: Delivery, attempts: nat)
    ensures I.Next(a, I.Create(cmd, ctx), b) <==> b.sessions == a.sessions && Attempted(a.db, b.db, cmd, ctx)
    ensures I.Next(a, I.Dispatch(key, delivery, attempts), b) <==>
            b.sessions == a.sessions && Redelivered(a.db, b.db, key, delivery, attempts)
  {
    hide CreateOrder, Redelivered, Dispatched;
    RedeliveryIs(a.db, b.db, key, delivery, attempts);
  }

  lemma RedeliveryIs(a: Db, b: Db, key: Key, delivery: Delivery, attempts: nat)
    ensures Redelivered(a, b, key, delivery, attempts) <==> b == a.(outbox := Dispatched(a.outbox, key, delivery, attempts))
  {
    if Redelivered(a, b, key, delivery, attempts) {
      assert b.outbox == Dispatched(a.outbox, key, delivery, attempts);
    }
  }

  /** A dispatcher's life: new rows are pending and untried, claims are of pending rows, and a dead dispatcher's rows stay as they are. */
  lemma FleetStepsAre(f: F.Fleet, id: Id, createdAt: int, w: F.Wid, ids: seq<Id>)
    ensures F.Enabled(f, F.Enqueue(id, createdAt)) <==> id !in f.rows
    ensures id !in f.rows ==>
              F.After(f, F.Enqueue(id, createdAt)) == f.(rows := f.rows[id := D.Row(createdAt, D.Pending, 0, None)])
    ensures F.Enabled(f, F.Claim(w, ids)) <==>
            && (w in f.workers ==> f.workers[w].todo == []) && (forall i, j :: 0 <= i < j < |ids| ==> ids[i] != ids[j])
            && forall x :: x in ids ==> x in f.rows && f.rows[x].status == D.Pending
    ensures F.Enabled(f, F.Die(w)) <==> w in f.workers
    ensures w in f.workers ==> F.After(f, F.Die(w)) == f.(workers := f.workers - {w})
  {
  }
}
