/**
 * What applySettlement answers and writes, field by field: the payment row,
 * the order row, the event, the two messages and the answer, in the terms of
 * the tables alone.
 */
module SettlementRecord {
  import opened Outcomes
  import opened Tables
  import opened Settlement
  import opened Consistency
  import opened Interleaving
  import opened InterleavedRuns
  import opened StoreLemmas
  import Money

  /** The message of one channel about a decided payment. */
  predicate IsMessage(row: OutboxRow, n: Notice, customer: Id, user: User, c: Channel) {
    && row.userId == customer && row.phone == user.phone && row.language == user.language && row.channel == c
    && row.templateKey == (if n.outcome == SettledOutcome then "notification.payment.received" else "notification.payment.failed")
    && row.orderId == n.orderId && row.delivery == Queued && row.attempts == 0
    && row.params.Keys == {"orderRef", "amount"}
    && row.params["orderRef"] == (if |n.orderId| > 8 then n.orderId[..8] else n.orderId)
    && Money.PoishaToTaka(n.amount) == Ok(row.params["amount"])
  }

  /** The clock starts with the first settled advance. */
  predicate ClockStarts(n: Notice, payment: PayRow, order: OrderRow) {
    n.outcome == SettledOutcome && payment.isAdvance && order.advancePaidAt == None
  }

  /** Five or ten days, in milliseconds, from the payment. */
  function Deadline(n: Notice, order: OrderRow): int {
    n.occurredAt + if order.isSameCity then 432000000 else 864000000
  }

  /** Everything a committed notice changes, with payment row p chosen. */
  predicate Changed(db: Db, n: Notice, p: Id, db': Db) {
    && p in db.payments && n.orderId in db.orders && db.orders[n.orderId].customer in db.users
    && var payment, order, settled := db.payments[p], db.orders[n.orderId], n.outcome == SettledOutcome;
       var event := if settled then PaymentReceived else PaymentFailed;
       var starts := ClockStarts(n, payment, order);
       && payment.orderId == n.orderId && Money.TakaToPoisha(payment.amountBdt) == Ok(n.amount)
       && db'.users == db.users && db'.items == db.items
       && db'.payments == db.payments[p :=
            PayRow(n.orderId, payment.paymentMethod, payment.amountBdt, if settled then Settled else Failed, Some(n.ref),
                   payment.isAdvance, if settled then Some(n.occurredAt) else payment.settledAt)]
       && db'.orders == db.orders[n.orderId := order.(
            status := if settled then Confirmed else AwaitingPayment,
            advancePaidAt := if starts then Some(n.occurredAt) else order.advancePaidAt,
            deadlineAt := if starts then Some(Deadline(n, order)) else order.deadlineAt)]
       && db'.events == db.events[n.orderId := (if n.orderId in db.events then db.events[n.orderId] else [])
            + [if settled then EventRow(Some(order.status), Confirmed, "order.event.payment_received")
               else EventRow(Some(order.status), AwaitingPayment, "order.event.payment_failed")]]
       && db'.outbox.Keys == db.outbox.Keys + {SettleKey(n.ref, event, Push), SettleKey(n.ref, event, Sms)}
       && (forall k :: k in db.outbox ==> db'.outbox[k] == db.outbox[k])
       && (forall c :: SettleKey(n.ref, event, c) !in db.outbox ==>
             && SettleKey(n.ref, event, c) in db'.outbox
             && IsMessage(db'.outbox[SettleKey(n.ref, event, c)], n, order.customer, db.users[order.customer], c))
  }

  /** An applied notice: its row was open, and the answer tells the deadline it stamped. */
  predicate Wrote(db: Db, n: Notice, p: Id, db': Db, answer: SettlementResult) {
    && Changed(db, n, p, db') && db.payments[p].status == Pending
    && var order := db.orders[n.orderId];
       answer == Applied(n.orderId, if ClockStarts(n, db.payments[p], order) then Some(Deadline(n, order)) else None)
  }

  /** The payment of a notice's order that is still open, and what it is worth. */
  ghost predicate Awaits(db: Db, n: Notice, p: Id) {
    p in db.payments && db.payments[p].orderId == n.orderId && db.payments[p].status == Pending
  }

  ghost predicate Known(db: Db, r: Ref, p: Id) {
    p in db.payments && db.payments[p].ref == Some(r)
  }

  /** Why a notice whose amount is right may still not be applied. */
  predicate CannotRecord(db: Db, n: Notice, e: DbError) {
    if n.orderId !in db.orders then e == ForeignKeyViolation
    else if Money.PoishaToTaka(n.amount).Err? then e == BadAmount
    else db.orders[n.orderId].customer !in db.users && e == UnknownUser
  }

  /** The complete table of answers, and what each leaves behind. */
  ghost predicate Answers(db: Db, n: Notice, db': Db, answer: SettlementResult) {
    match answer
    case Duplicate(o) => db' == db && exists p :: Known(db, n.ref, p) && o == db.payments[p].orderId
    case Rejected(reason) =>
      && db' == db && (forall p :: !Known(db, n.ref, p))
      && ((reason == "no_pending_transaction" && forall p :: !Awaits(db, n, p))
          || (reason == "amount_mismatch"
              && exists p :: Awaits(db, n, p) && Money.TakaToPoisha(db.payments[p].amountBdt).Ok?
                             && Money.TakaToPoisha(db.payments[p].amountBdt) != Ok(n.amount)))
    case Threw(e) =>
      && db' == db && (forall p :: !Known(db, n.ref, p))
      && exists p :: Awaits(db, n, p)
                     && (if Money.TakaToPoisha(db.payments[p].amountBdt).Err? then e == BadAmount
                         else Money.TakaToPoisha(db.payments[p].amountBdt) == Ok(n.amount) && CannotRecord(db, n, e))
    case Applied(_, _) =>
      (forall p :: !Known(db, n.ref, p)) && exists p :: Wrote(db, n, p, db', answer)
  }

  lemma MessageIs(n: Notice, customer: Id, user: User, c: Channel)
    requires Money.PoishaToTaka(n.amount).Ok?
    ensures IsMessage(QueuedRow(n, customer, user, c), n, customer, user, c)
  {
    hide Money.PoishaToTaka;
  }

  lemma Addition(db: Db, n: Notice, w: Writes, k: Key)
    requires n.orderId in db.orders && AddsNotice(db, n, Push, w.push) && AddsNotice(db, n, Sms, w.sms)
    ensures var outbox := Put(Put(db.outbox, NoticeKey(n, Push), w.push), NoticeKey(n, Sms), w.sms);
            && outbox.Keys == db.outbox.Keys + {NoticeKey(n, Push), NoticeKey(n, Sms)}
            && (k in db.outbox ==> outbox[k] == db.outbox[k])
            && forall c :: NoticeKey(n, c) !in db.outbox ==>
                 var customer := db.orders[n.orderId].customer;
                 && customer in db.users && NoticeKey(n, c) in outbox
                 && outbox[NoticeKey(n, c)] == QueuedRow(n, customer, db.users[customer], c)
  {
    hide QueuedRow;
    var outbox := Put(Put(db.outbox, NoticeKey(n, Push), w.push), NoticeKey(n, Sms), w.sms);
    var customer := db.orders[n.orderId].customer;
    forall c | NoticeKey(n, c) !in db.outbox
      ensures customer in db.users && NoticeKey(n, c) in outbox
      ensures outbox[NoticeKey(n, c)] == QueuedRow(n, customer, db.users[customer], c)
    {
      if c == Push { assert w.push.Some?; } else { assert c == Sms && w.sms.Some?; }
    }
  }

  lemma PaymentWritten(payment: PayRow, n: Notice)
    requires payment.orderId == n.orderId
    ensures var settled := n.outcome == SettledOutcome;
            Marked(payment, n) ==
            PayRow(n.orderId, payment.paymentMethod, payment.amountBdt, if settled then Settled else Failed, Some(n.ref),
                   payment.isAdvance, if settled then Some(n.occurredAt) else payment.settledAt)
  {
  }

  lemma OrderWritten(order: OrderRow, n: Notice, payment: PayRow)
    ensures var starts := ClockStarts(n, payment, order);
            Moved(order, n, payment.isAdvance) == order.(
              status := if n.outcome == SettledOutcome then Confirmed else AwaitingPayment,
              advancePaidAt := if starts then Some(n.occurredAt) else order.advancePaidAt,
              deadlineAt := if starts then Some(Deadline(n, order)) else order.deadlineAt)
    ensures NewDeadline(order, n, payment.isAdvance) == if ClockStarts(n, payment, order) then Some(Deadline(n, order)) else None
  {
  }

  /** The effect of the statements is what is written above. */
  lemma EffectWritten(db: Db, n: Notice, p: Id, w: Writes, db': Db)
    requires p in db.payments && db.payments[p].orderId == n.orderId
    requires n.orderId in db.orders && db.orders[n.orderId].customer in db.users
    requires Money.TakaToPoisha(db.payments[p].amountBdt) == Ok(n.amount) && Money.PoishaToTaka(n.amount).Ok?
    requires IsEffect(db, n, p, db.payments[p].isAdvance, w) && db' == Merge(db, n, p, w)
    ensures Changed(db, n, p, db')
  {
    hide Money.PoishaToTaka, Money.TakaToPoisha, QueuedRow, IsMessage, AddsNotice;
    var customer := db.orders[n.orderId].customer;
    forall k ensures k in db.outbox ==> k in db'.outbox && db'.outbox[k] == db.outbox[k] { Addition(db, n, w, k); }
    Addition(db, n, w, NoticeKey(n, Push));
    MessageIs(n, customer, db.users[customer], Push);
    MessageIs(n, customer, db.users[customer], Sms);
    PaymentWritten(db.payments[p], n);
    OrderWritten(db.orders[n.orderId], n, db.payments[p]);
    var event := if n.outcome == SettledOutcome then PaymentReceived else PaymentFailed;
    forall c | SettleKey(n.ref, event, c) !in db.outbox
      ensures SettleKey(n.ref, event, c) in db'.outbox && IsMessage(db'.outbox[SettleKey(n.ref, event, c)], n, customer, db.users[customer], c)
    {
      assert SettleKey(n.ref, event, c) == NoticeKey(n, c) && (c == Push || c == Sms);
    }
  }

  /** The answer and the database of applySettlement, on every database whose keys hold. */
  lemma AnswersExactly(db: Db, n: Notice)
    requires OnePaymentPerOrder(db.payments)
    ensures Answers(db, n, ApplySettlement(db, n).0, ApplySettlement(db, n).1)
  {
    hide RunBody, Answer, Merge, Wrote, Money.TakaToPoisha, Money.PoishaToTaka, IsEffect, NewDeadline;
    if HasRef(db, n.ref) {
      assert Known(db, n.ref, RowWithRef(db, n.ref));
    } else if HasPending(db, n.orderId) {
      var p := PendingRow(db, n.orderId);
      assert Awaits(db, n, p);
      forall q ensures !Known(db, n.ref, q) { NoneKnown(db, n, q); }
      if Money.TakaToPoisha(db.payments[p].amountBdt) == Ok(n.amount) {
        RightAmount(db, n, p);
      }
    } else {
      forall q ensures !Known(db, n.ref, q) { NoneKnown(db, n, q); }
      forall q ensures !Awaits(db, n, q) { NoneAwaits(db, n, q); }
    }
  }

  lemma NoneAwaits(db: Db, n: Notice, p: Id)
    requires !HasPending(db, n.orderId)
    ensures !Awaits(db, n, p)
  {
  }

  lemma NoneKnown(db: Db, n: Notice, p: Id)
    requires !HasRef(db, n.ref)
    ensures !Known(db, n.ref, p)
  {
  }

  lemma RightAmount(db: Db, n: Notice, p: Id)
    requires !HasRef(db, n.ref) && Awaits(db, n, p) && Money.TakaToPoisha(db.payments[p].amountBdt) == Ok(n.amount)
    ensures var body := RunBody(db, n, p, db.payments[p].isAdvance);
            if body.Err? then CannotRecord(db, n, body.error)
            else var answer := Answer(n, db.payments[p].isAdvance, body.value.l);
                 answer.Applied? && Wrote(db, n, p, Merge(db, n, p, body.value.w), answer)
  {
    hide RunBody, Answer, Merge, Changed, Money.TakaToPoisha, Money.PoishaToTaka, IsEffect, NewDeadline, Moved;
    var isAdvance := db.payments[p].isAdvance;
    assert !RefOnAnother(db.payments, p, n.ref);
    if n.orderId !in db.orders {
      NoOrderFails(db, n, p, isAdvance);
    } else if NotifyResult(db, n).Err? {
      NoRecipientFails(db, n, p, isAdvance);
    } else {
      BodyEffect(db, n, p, isAdvance);
      var done := RunBody(db, n, p, isAdvance).value;
      EffectWritten(db, n, p, done.w, Merge(db, n, p, done.w));
      OrderWritten(db.orders[n.orderId], n, db.payments[p]);
    }
  }

  /** The same field by field of any commit of the interleaved machine, on the database of that moment. */
  lemma CommitChanges(a: State, sid: Sid, b: State)
    requires Inv(a) && Next(a, Commit(sid), b)
    ensures Changed(a.db, a.sessions[sid].notice, a.sessions[sid].phase.payId, b.db)
  {
    hide Good, RunPrefix, Program, RunBody, IsEffect, Changed, Merge, Money.TakaToPoisha, Money.PoishaToTaka;
    var s := a.sessions[sid];
    CommitIsAtomic(a, sid, b);
    assert SessionGood(a.db, s);
    BodyParts(a.db, s.notice, s.phase.payId);
    EffectWritten(a.db, s.notice, s.phase.payId, RunBody(a.db, s.notice, s.phase.payId, s.phase.isAdvance).value.w, b.db);
  }

  lemma BodyParts(db: Db, n: Notice, p: Id)
    requires Good(db) && p in db.payments && db.payments[p].orderId == n.orderId && AmountFits(db.payments[p], n)
    ensures n.orderId in db.orders && db.orders[n.orderId].customer in db.users && Money.PoishaToTaka(n.amount).Ok?
  {
    hide Money.TakaToPoisha, Money.PoishaToTaka;
    hide AmountsGood, IsTimeline, Notified, ClockFits, PaymentFits;
    assert PaymentGood(db, p);
    AmountPrintable(db, n, p);
  }
}
