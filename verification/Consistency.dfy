/**
 * The invariant of the order and payment tables, and the proof that creating
 * an order and committing a settlement body keep it. It does not assume that
 * the payment row a body runs on is still pending: under concurrency it need
 * not be.
 */
module Consistency {
  import opened Outcomes
  import opened Tables
  import opened OrderPricing
  import opened OrderCreation
  import opened Settlement
  import Money

  predicate StatusesAgree(payment: PayStatus, order: OrderStatus) {
    || (payment == Pending && order == Created)
    || (payment == Settled && order == Confirmed)
    || (payment == Failed && order == AwaitingPayment)
  }

  /** Events start from nothing, each continues the previous one, and the order is where the last one left it. */
  predicate IsTimeline(events: seq<EventRow>, status: OrderStatus) {
    && events != []
    && events[0].fromStatus == None && events[0].toStatus == Created
    && (forall i :: 0 < i < |events| ==> events[i].fromStatus == Some(events[i - 1].toStatus))
    && events[|events| - 1].toStatus == status
  }

  const FIVE_DAYS_MS: int := 432000000
  const TEN_DAYS_MS: int := 864000000

  /** The delivery clock: 5 or 10 days from the advance, and only ever for an advance. */
  predicate ClockFits(order: OrderRow, payment: PayRow) {
    && (order.advancePaidAt.Some? <==> order.deadlineAt.Some?)
    && (order.advancePaidAt.Some? ==>
          && order.paymentMethod != Cod
          && order.deadlineAt.value - order.advancePaidAt.value == (if order.isSameCity then FIVE_DAYS_MS else TEN_DAYS_MS))
    && (payment.status == Settled && payment.isAdvance ==> order.advancePaidAt.Some?)
  }

  /** The texts of the row read back as amounts in order: 0 <= advance <= cap <= total. */
  predicate AmountsOrdered(order: OrderRow) {
    && Money.TakaToPoisha(order.totalBdt).Ok? && Money.TakaToPoisha(order.advanceBdt).Ok? && Money.TakaToPoisha(order.capBdt).Ok?
    && 0 <= Money.TakaToPoisha(order.advanceBdt).value <= Money.TakaToPoisha(order.capBdt).value
    && Money.TakaToPoisha(order.capBdt).value <= Money.TakaToPoisha(order.totalBdt).value <= Money.MAX_POISHA
    && (order.paymentMethod == Cod ==> Money.TakaToPoisha(order.advanceBdt).value == 0)
  }

  predicate PaymentFits(order: OrderRow, payment: PayRow) {
    && payment.paymentMethod == order.paymentMethod
    && payment.isAdvance == (order.paymentMethod != Cod)
    && payment.amountBdt == (if order.paymentMethod == Cod then order.totalBdt else order.advanceBdt)
    && StatusesAgree(payment.status, order.status)
    && (payment.ref.Some? <==> payment.status != Pending)
  }

  function EventForStatus(s: PayStatus): Event {
    if s == Settled then PaymentReceived else PaymentFailed
  }

  /** Every channel of the order's confirmation, and of its payment's outcome, is in the outbox. */
  predicate Notified(outbox: map<Key, OutboxRow>, payment: PayRow) {
    && (forall c :: CreatedKey(payment.orderId, c) in outbox)
    && (payment.ref.Some? ==> forall c :: SettleKey(payment.ref.value, EventForStatus(payment.status), c) in outbox)
  }

  predicate PaymentGood(db: Db, p: Id)
    requires p in db.payments
  {
    var payment := db.payments[p];
    && payment.orderId in db.orders
    && (var order := db.orders[payment.orderId];
        && order.customer in db.users
        && PaymentFits(order, payment)
        && ClockFits(order, payment)
        && IsTimeline(EventsOf(db.events, payment.orderId), order.status))
    && Notified(db.outbox, payment)
  }

  predicate AmountsGood(orders: map<Id, OrderRow>) {
    forall o :: o in orders ==> AmountsOrdered(orders[o])
  }

  predicate PaymentsGood(db: Db) {
    forall p :: p in db.payments ==> PaymentGood(db, p)
  }

  predicate OnePaymentPerOrder(payments: map<Id, PayRow>) {
    forall p, q :: p in payments && q in payments && payments[p].orderId == payments[q].orderId ==> p == q
  }

  /** UNIQUE (aggregator, aggregator_ref). */
  predicate RefsUnique(payments: map<Id, PayRow>) {
    forall p, q :: p in payments && q in payments && payments[p].ref.Some? && payments[p].ref == payments[q].ref ==> p == q
  }

  predicate HasPayment(payments: map<Id, PayRow>, o: Id) {
    exists p :: p in payments && payments[p].orderId == o
  }

  predicate EveryOrderHasPayment(orders: map<Id, OrderRow>, payments: map<Id, PayRow>) {
    forall o :: o in orders ==> HasPayment(payments, o)
  }

  ghost predicate ConfirmationsKnown(db: Db) {
    forall o, c :: CreatedKey(o, c) in db.outbox ==> o in db.orders
  }

  ghost predicate Good(db: Db) {
    && PaymentsGood(db)
    && AmountsGood(db.orders)
    && OnePaymentPerOrder(db.payments)
    && RefsUnique(db.payments)
    && EveryOrderHasPayment(db.orders, db.payments)
    && ConfirmationsKnown(db)
    && db.events.Keys <= db.orders.Keys
  }

  const EMPTY: Db := Db(map[], map[], map[], map[], map[], map[])

  lemma EmptyIsGood(users: map<Id, User>)
    ensures Good(EMPTY.(users := users))
  {
  }

  // ---- tables under one insert or update -------------------------------

  lemma KeysAfterUpdate(payments: map<Id, PayRow>, p: Id, row: PayRow)
    requires OnePaymentPerOrder(payments) && RefsUnique(payments)
    requires p in payments && row.orderId == payments[p].orderId
    requires row.ref.Some? && !RefOnAnother(payments, p, row.ref.value)
    ensures OnePaymentPerOrder(payments[p := row]) && RefsUnique(payments[p := row])
  {
  }

  lemma KeysAfterInsert(payments: map<Id, PayRow>, p: Id, row: PayRow)
    requires OnePaymentPerOrder(payments) && RefsUnique(payments)
    requires p !in payments && row.ref.None? && !HasPayment(payments, row.orderId)
    ensures OnePaymentPerOrder(payments[p := row]) && RefsUnique(payments[p := row])
  {
  }

  lemma HasPaymentAfter(payments: map<Id, PayRow>, p: Id, row: PayRow, o: Id)
    requires HasPayment(payments, o)
    requires p in payments ==> row.orderId == payments[p].orderId
    ensures HasPayment(payments[p := row], o)
  {
    var q :| q in payments && payments[q].orderId == o;
    assert payments[p := row][q].orderId == o;
  }

  lemma TimelineGrows(events: seq<EventRow>, status: OrderStatus, event: EventRow)
    requires IsTimeline(events, status) && event.fromStatus == Some(status)
    ensures IsTimeline(events + [event], event.toStatus)
  {
  }

  lemma NotifiedGrows(a: map<Key, OutboxRow>, b: map<Key, OutboxRow>, payment: PayRow)
    requires Notified(a, payment) && a.Keys <= b.Keys
    ensures Notified(b, payment)
  {
  }

  // ---- committing a settlement -----------------------------------------

  /** A body that ran on a fitting row of a good database keeps it good when it commits. */
  lemma CommitKeepsGood(db: Db, n: Notice, payId: Id, isAdvance: bool, w: Writes)
    requires Good(db) && RowFits(db, n, payId, isAdvance) && !RefOnAnother(db.payments, payId, n.ref)
    requires n.orderId in db.orders && IsEffect(db, n, payId, isAdvance, w)
    ensures Good(Merge(db, n, payId, w))
  {
    hide PaymentsGood, AmountsGood, OnePaymentPerOrder, RefsUnique, HasPayment, ConfirmationsKnown, RefOnAnother, AddsNotice, Moved;
    CommitKeepsPayments(db, n, payId, isAdvance, w);
    CommitKeepsAmounts(db, n, payId, isAdvance, w);
    KeysAfterUpdate(db.payments, payId, Marked(db.payments[payId], n));
    var db' := Merge(db, n, payId, w);
    forall o | o in db'.orders
      ensures HasPayment(db'.payments, o)
    {
      HasPaymentAfter(db.payments, payId, Marked(db.payments[payId], n), o);
    }
    CommitKeepsConfirmations(db, n, payId, w);
  }

  lemma CommitKeepsAmounts(db: Db, n: Notice, payId: Id, isAdvance: bool, w: Writes)
    requires AmountsGood(db.orders) && n.orderId in db.orders && payId in db.payments && IsEffect(db, n, payId, isAdvance, w)
    ensures AmountsGood(Merge(db, n, payId, w).orders)
  {
    assert AmountsOrdered(db.orders[n.orderId]);
  }

  lemma CommitKeepsConfirmations(db: Db, n: Notice, payId: Id, w: Writes)
    requires ConfirmationsKnown(db) && n.orderId in db.orders
    ensures ConfirmationsKnown(Merge(db, n, payId, w))
  {
    var db' := Merge(db, n, payId, w);
    forall o, c | CreatedKey(o, c) in db'.outbox
      ensures o in db'.orders
    {
      assert CreatedKey(o, c) in db.outbox;
    }
  }

  lemma CommitKeepsPayments(db: Db, n: Notice, payId: Id, isAdvance: bool, w: Writes)
    requires PaymentsGood(db) && OnePaymentPerOrder(db.payments) && RowFits(db, n, payId, isAdvance)
    requires n.orderId in db.orders && IsEffect(db, n, payId, isAdvance, w)
    ensures PaymentsGood(Merge(db, n, payId, w))
  {
    var db' := Merge(db, n, payId, w);
    SettledRowGood(db, n, payId, isAdvance, w);
    forall p | p in db'.payments
      ensures PaymentGood(db', p)
    {
      if p != payId { OtherRowGood(db, n, payId, w, p); }
    }
  }

  lemma OtherRowGood(db: Db, n: Notice, payId: Id, w: Writes, p: Id)
    requires p in db.payments && p != payId && PaymentGood(db, p) && db.payments[p].orderId != n.orderId
    ensures p in Merge(db, n, payId, w).payments && PaymentGood(Merge(db, n, payId, w), p)
  {
    NotifiedGrows(db.outbox, Merge(db, n, payId, w).outbox, db.payments[p]);
  }

  lemma SettledRowGood(db: Db, n: Notice, payId: Id, isAdvance: bool, w: Writes)
    requires RowFits(db, n, payId, isAdvance) && PaymentGood(db, payId)
    requires n.orderId in db.orders && IsEffect(db, n, payId, isAdvance, w)
    ensures PaymentGood(Merge(db, n, payId, w), payId)
  {
    hide IsTimeline, Notified, AddsNotice, PaymentFits, ClockFits, Marked, Moved;
    var order, payment := db.orders[n.orderId], db.payments[payId];
    TimelineGrows(EventsOf(db.events, n.orderId), order.status, w.event.value);
    NotifiedAfter(db, n, payId, w);
    MovedFits(order, payment, n, isAdvance);
  }

  lemma MovedFits(order: OrderRow, payment: PayRow, n: Notice, isAdvance: bool)
    requires PaymentFits(order, payment) && ClockFits(order, payment) && payment.isAdvance == isAdvance
    ensures var moved, marked := Moved(order, n, isAdvance), Marked(payment, n);
            && PaymentFits(moved, marked) && ClockFits(moved, marked)
            && moved.customer == order.customer && moved.status == TargetStatus(n.outcome) && marked.orderId == payment.orderId
  {
  }

  lemma NotifiedAfter(db: Db, n: Notice, payId: Id, w: Writes)
    requires payId in db.payments && Notified(db.outbox, db.payments[payId])
    requires n.orderId in db.orders && AddsNotice(db, n, Push, w.push) && AddsNotice(db, n, Sms, w.sms)
    ensures Notified(Merge(db, n, payId, w).outbox, Marked(db.payments[payId], n))
  {
    var outbox, row := Merge(db, n, payId, w).outbox, Marked(db.payments[payId], n);
    assert NoticeKey(n, Push) in outbox && NoticeKey(n, Sms) in outbox;
    forall c ensures SettleKey(row.ref.value, EventForStatus(row.status), c) in outbox {
      assert SettleKey(row.ref.value, EventForStatus(row.status), c) == NoticeKey(n, c);
      assert c == Push || c == Sms;
    }
  }

  /** The regulated clock, once stamped, is never moved, and no other order is touched. */
  lemma CommitKeepsClock(db: Db, n: Notice, payId: Id, isAdvance: bool, w: Writes, o: Id)
    requires n.orderId in db.orders && payId in db.payments && IsEffect(db, n, payId, isAdvance, w) && o in db.orders
    ensures var before, after := db.orders[o], Merge(db, n, payId, w).orders[o];
            && (before.advancePaidAt.Some? ==> after.advancePaidAt == before.advancePaidAt && after.deadlineAt == before.deadlineAt)
            && (o != n.orderId ==> after == before)
            && after.(status := before.status, advancePaidAt := before.advancePaidAt, deadlineAt := before.deadlineAt) == before
  {
  }

  /** Dispatching messages changes nothing the invariant speaks of. */
  lemma DispatchKeepsGood(db: Db, key: Key, delivery: Delivery, attempts: nat)
    requires Good(db)
    ensures Good(db.(outbox := Dispatched(db.outbox, key, delivery, attempts)))
  {
    hide AmountsOrdered, IsTimeline, Notified, PaymentFits, ClockFits;
    var db' := db.(outbox := Dispatched(db.outbox, key, delivery, attempts));
    assert db'.outbox.Keys == db.outbox.Keys;
    forall p | p in db'.payments ensures PaymentGood(db', p) {
      assert PaymentGood(db, p);
      NotifiedGrows(db.outbox, db'.outbox, db.payments[p]);
    }
  }

  // ---- creating an order -----------------------------------------------

  lemma CreatedAmounts(cmd: Command, sameCity: bool, lines: seq<CartLine>, escrowEnabled: bool, p: Priced)
    requires PriceOrder(lines, cmd.deliveryFee, cmd.requestedAdvance, cmd.paymentMethod, escrowEnabled) == Ok(p)
    ensures AmountsOrdered(NewOrder(cmd, sameCity, p))
  {
    PricedBasis(lines, cmd.deliveryFee, cmd.requestedAdvance, cmd.paymentMethod, escrowEnabled);
  }

  /** A new order row and the pending payment row written beside it. */
  predicate IsNewPair(db: Db, o: Id, order: OrderRow, payId: Id, payment: PayRow) {
    && o !in db.orders && payId !in db.payments && order.customer in db.users
    && order.status == Created && order.advancePaidAt.None? && order.deadlineAt.None?
    && payment.orderId == o && payment.status == Pending && payment.ref.None?
    && PaymentFits(order, payment)
  }

  lemma InsertKeepsGood(db: Db, o: Id, order: OrderRow, items: seq<ItemRow>, payId: Id, payment: PayRow,
                        push: OutboxRow, sms: OutboxRow)
    requires Good(db) && IsNewPair(db, o, order, payId, payment) && AmountsOrdered(order)
    ensures Good(InsertAll(db, o, order, items, payId, payment, push, sms))
  {
    InsertKeepsPayments(db, o, order, items, payId, payment, push, sms);
    AmountsAfterInsert(db.orders, o, order);
    InsertKeepsKeys(db, o, order, payId, payment);
    InsertKeepsConfirmations(db, o, order, items, payId, payment, push, sms);
  }

  lemma AmountsAfterInsert(orders: map<Id, OrderRow>, o: Id, order: OrderRow)
    requires AmountsGood(orders) && AmountsOrdered(order)
    ensures AmountsGood(orders[o := order])
  {
  }

  lemma InsertKeepsKeys(db: Db, o: Id, order: OrderRow, payId: Id, payment: PayRow)
    requires PaymentsGood(db) && OnePaymentPerOrder(db.payments) && RefsUnique(db.payments) && EveryOrderHasPayment(db.orders, db.payments)
    requires IsNewPair(db, o, order, payId, payment)
    ensures OnePaymentPerOrder(db.payments[payId := payment]) && RefsUnique(db.payments[payId := payment])
    ensures EveryOrderHasPayment(db.orders[o := order], db.payments[payId := payment])
  {
    forall p | p in db.payments ensures db.payments[p].orderId != o { assert PaymentGood(db, p); }
    KeysAfterInsert(db.payments, payId, payment);
    var orders, payments := db.orders[o := order], db.payments[payId := payment];
    forall x | x in orders
      ensures HasPayment(payments, x)
    {
      if x == o { assert payments[payId].orderId == x; } else { HasPaymentAfter(db.payments, payId, payment, x); }
    }
  }

  lemma InsertKeepsConfirmations(db: Db, o: Id, order: OrderRow, items: seq<ItemRow>, payId: Id, payment: PayRow,
                                 push: OutboxRow, sms: OutboxRow)
    requires ConfirmationsKnown(db)
    ensures ConfirmationsKnown(InsertAll(db, o, order, items, payId, payment, push, sms))
  {
  }

  lemma InsertKeepsPayments(db: Db, o: Id, order: OrderRow, items: seq<ItemRow>, payId: Id, payment: PayRow,
                            push: OutboxRow, sms: OutboxRow)
    requires PaymentsGood(db) && db.events.Keys <= db.orders.Keys && IsNewPair(db, o, order, payId, payment)
    ensures PaymentsGood(InsertAll(db, o, order, items, payId, payment, push, sms))
  {
    hide PaymentGood, IsNewPair;
    var db' := InsertAll(db, o, order, items, payId, payment, push, sms);
    NewRowGood(db, o, order, items, payId, payment, push, sms);
    forall p | p in db'.payments
      ensures PaymentGood(db', p)
    {
      if p != payId { OldRowGood(db, o, order, items, payId, payment, push, sms, p); }
    }
  }

  lemma NewRowGood(db: Db, o: Id, order: OrderRow, items: seq<ItemRow>, payId: Id, payment: PayRow,
                   push: OutboxRow, sms: OutboxRow)
    requires db.events.Keys <= db.orders.Keys && IsNewPair(db, o, order, payId, payment)
    ensures PaymentGood(InsertAll(db, o, order, items, payId, payment, push, sms), payId)
  {
    hide PaymentFits;
    var db' := InsertAll(db, o, order, items, payId, payment, push, sms);
    assert EventsOf(db'.events, o) == [EventRow(None, Created, "order.event.created")];
    forall c ensures CreatedKey(o, c) in db'.outbox { assert c == Push || c == Sms; }
  }

  lemma OldRowGood(db: Db, o: Id, order: OrderRow, items: seq<ItemRow>, payId: Id, payment: PayRow,
                   push: OutboxRow, sms: OutboxRow, p: Id)
    requires IsNewPair(db, o, order, payId, payment) && p in db.payments && PaymentGood(db, p)
    ensures PaymentGood(InsertAll(db, o, order, items, payId, payment, push, sms), p)
  {
    hide PaymentFits, ClockFits, IsTimeline, Notified;
    NotifiedGrows(db.outbox, InsertAll(db, o, order, items, payId, payment, push, sms).outbox, db.payments[p]);
  }

  lemma CreateKeepsGood(db: Db, cmd: Command, ctx: Context)
    requires Good(db) && CreateOrder(db, cmd, ctx).Ok?
    ensures Good(CreateOrder(db, cmd, ctx).value)
  {
    hide Good, CreateOrder, Plan, InsertAll, NewItems, ConfirmationRow, PriceOrder, AmountsOrdered;
    CreatedParts(db, cmd, ctx);
    var (lines, p) := Plan(cmd, ctx).value;
    PlanParts(cmd, ctx);
    CreatedAmounts(cmd, ctx.sameCity, CartLines(lines), ctx.escrowEnabled, p);
    var user := db.users[cmd.customer];
    InsertKeepsGood(db, ctx.orderId, NewOrder(cmd, ctx.sameCity, p), NewItems(lines), ctx.payId,
                    PendingPayment(cmd, ctx.orderId, p), ConfirmationRow(cmd, user, ctx.orderId, Push),
                    ConfirmationRow(cmd, user, ctx.orderId, Sms));
  }
}
