/**
 * What the invariants say of a database, written out: every payment with its
 * order, timeline, clock and messages, every order with its amounts and items.
 */
module InvariantRecord {
  import opened Outcomes
  import opened Tables
  import opened Settlement
  import opened Consistency
  import opened Interleaving
  import opened InterleavedRuns
  import opened SerialRuns
  import opened SerialFacts
  import opened OrderPricing
  import Money

  /** Of every payment: its order, the amount it is for, how far both have come, the clock, the timeline and the messages queued. */
  lemma PaymentSays(db: Db, p: Id)
    requires Good(db) && p in db.payments
    ensures var payment := db.payments[p];
            && payment.orderId in db.orders
            && var order := db.orders[payment.orderId];
               && order.customer in db.users
               && payment.paymentMethod == order.paymentMethod && payment.isAdvance == (order.paymentMethod != Cod)
               && payment.amountBdt == (if order.paymentMethod == Cod then order.totalBdt else order.advanceBdt)
               && (payment.status, order.status) in {(Pending, Created), (Settled, Confirmed), (Failed, AwaitingPayment)}
               && (payment.ref == None <==> payment.status == Pending)
               && (order.advancePaidAt == None <==> order.deadlineAt == None)
               && (order.advancePaidAt.Some? ==>
                     && order.paymentMethod != Cod
                     && order.deadlineAt.value == order.advancePaidAt.value + (if order.isSameCity then 432000000 else 864000000))
               && (payment.status == Settled && payment.isAdvance ==> order.advancePaidAt.Some?)
               && CreatedKey(payment.orderId, Push) in db.outbox && CreatedKey(payment.orderId, Sms) in db.outbox
               && (payment.ref.Some? ==>
                     var event := if payment.status == Settled then PaymentReceived else PaymentFailed;
                     SettleKey(payment.ref.value, event, Push) in db.outbox && SettleKey(payment.ref.value, event, Sms) in db.outbox)
  {
    hide AmountsGood, OnePaymentPerOrder, RefsUnique, EveryOrderHasPayment, ConfirmationsKnown, IsTimeline;
    assert PaymentGood(db, p);
    MessagesQueued(db.outbox, db.payments[p]);
  }

  lemma MessagesQueued(outbox: map<Key, OutboxRow>, payment: PayRow)
    requires Notified(outbox, payment)
    ensures CreatedKey(payment.orderId, Push) in outbox && CreatedKey(payment.orderId, Sms) in outbox
    ensures payment.ref.Some? ==>
              var event := if payment.status == Settled then PaymentReceived else PaymentFailed;
              SettleKey(payment.ref.value, event, Push) in outbox && SettleKey(payment.ref.value, event, Sms) in outbox
  {
    if payment.ref.Some? {
      var event := EventForStatus(payment.status);
      assert SettleKey(payment.ref.value, event, Push) in outbox && SettleKey(payment.ref.value, event, Sms) in outbox;
    }
  }

  /** The timeline of every paid-for order begins with its creation, each event continues the one before, and the last is where it stands. */
  lemma TimelineSays(db: Db, p: Id)
    requires Good(db) && p in db.payments
    ensures var o := db.payments[p].orderId;
            && o in db.orders && o in db.events && |db.events[o]| >= 1
            && db.events[o][0].fromStatus == None && db.events[o][0].toStatus == Created
            && (forall i :: 0 < i < |db.events[o]| ==> db.events[o][i].fromStatus == Some(db.events[o][i - 1].toStatus))
            && db.events[o][|db.events[o]| - 1].toStatus == db.orders[o].status
  {
    hide AmountsGood, OnePaymentPerOrder, RefsUnique, EveryOrderHasPayment, ConfirmationsKnown, PaymentFits, ClockFits, Notified;
    assert PaymentGood(db, p);
  }

  /** Of every order: its amounts are in order, it has exactly one payment, and nothing is recorded of orders that are not there. */
  lemma OrderSays(db: Db, o: Id)
    requires Good(db)
    ensures o in db.orders ==>
              && (exists p :: p in db.payments && db.payments[p].orderId == o)
              && Money.TakaToPoisha(db.orders[o].advanceBdt).Ok? && Money.TakaToPoisha(db.orders[o].capBdt).Ok?
              && Money.TakaToPoisha(db.orders[o].totalBdt).Ok?
              && 0 <= Money.TakaToPoisha(db.orders[o].advanceBdt).value <= Money.TakaToPoisha(db.orders[o].capBdt).value
                   <= Money.TakaToPoisha(db.orders[o].totalBdt).value <= 999999999999
              && (db.orders[o].paymentMethod == Cod ==> Money.TakaToPoisha(db.orders[o].advanceBdt).value == 0)
    ensures forall p, q :: p in db.payments && q in db.payments && p != q ==>
              && db.payments[p].orderId != db.payments[q].orderId
              && (db.payments[p].ref.Some? ==> db.payments[p].ref != db.payments[q].ref)
    ensures o !in db.orders ==> o !in db.events && CreatedKey(o, Push) !in db.outbox && CreatedKey(o, Sms) !in db.outbox
  {
    hide Money.TakaToPoisha, PaymentsGood;
    if o in db.orders { assert AmountsOrdered(db.orders[o]) && HasPayment(db.payments, o); }
  }

  /** In any interleaving, all of that holds of every database ever committed. */
  lemma CommittedSays(run: seq<State>, users: map<Id, User>, i: nat, p: Id)
    requires IsRun(run) && run[0] == Start(users) && i < |run| && p in run[i].db.payments
    ensures var db := run[i].db;
            var payment := db.payments[p];
            && payment.orderId in db.orders
            && var order := db.orders[payment.orderId];
               && (payment.status, order.status) in {(Pending, Created), (Settled, Confirmed), (Failed, AwaitingPayment)}
               && (order.deadlineAt.Some? ==>
                     && order.advancePaidAt.Some?
                     && order.deadlineAt.value == order.advancePaidAt.value + (if order.isSameCity then 432000000 else 864000000))
  {
    hide Good, Steps;
    CommittedStatesConsistent(run, users, i);
    PaymentSays(run[i].db, p);
  }

  /** What items are worth together: price times quantity. */
  function Worth(items: seq<ItemRow>): int {
    if items == [] then 0
    else (match Money.TakaToPoisha(items[0].unitPriceBdt) case Ok(price) => price * items[0].quantity case Err(_) => 0) + Worth(items[1..])
  }

  lemma {:induction false} WorthIsSum(items: seq<ItemRow>)
    ensures Worth(items) == Money.Sum(ItemTotals(items))
  {
    hide Money.TakaToPoisha, Money.Sum;
    if items == [] {
      Money.SumIsTotal([], []);
      assert ItemTotals(items) == [];
    } else {
      WorthIsSum(items[1..]);
      var first := PriceOf(items[0]) * items[0].quantity;
      assert ItemTotals(items) == [first] + ItemTotals(items[1..]);
      Money.SumIsTotal([first], ItemTotals(items[1..]));
    }
  }

  /** Every order of whole transactions still stands on its items: their worth, the fee, the cap the law allows, and the advance. */
  lemma BasisSays(db: Db, o: Id)
    requires Exact(db) && o in db.orders
    ensures o in db.items && db.items[o] != []
    ensures var order, items := db.orders[o], db.items[o];
            var amount := (t: string) => match Money.TakaToPoisha(t) case Ok(p) => p case Err(_) => 0;
            && amount(order.subtotalBdt) == Worth(items)
            && amount(order.totalBdt) == Worth(items) + amount(order.feeBdt)
            && (order.allItemsReady <==> forall i :: 0 <= i < |items| ==> items[i].readyToShip)
            && (if order.isEscrow || order.allItemsReady then amount(order.capBdt) == amount(order.totalBdt)
                else 100 * amount(order.capBdt) <= 10 * amount(order.totalBdt) < 100 * (amount(order.capBdt) + 1))
            && 0 <= amount(order.advanceBdt) <= amount(order.capBdt) <= amount(order.totalBdt)
  {
    hide Good, OutboxTrue, TimelinesExact, Money.TakaToPoisha, Money.Sum, ItemTotals, Worth;
    assert OrderBasis(db.orders[o], db.items[o]);
    WorthIsSum(db.items[o]);
  }

  /** Its timeline is one of three: created, and paid or failed if its payment is. */
  lemma EventsSay(db: Db, p: Id)
    requires Exact(db) && p in db.payments
    ensures db.payments[p].orderId in db.events
    ensures var created := EventRow(None, Created, "order.event.created");
            db.events[db.payments[p].orderId]
            == match db.payments[p].status
               case Settled => [created, EventRow(Some(Created), Confirmed, "order.event.payment_received")]
               case Failed => [created, EventRow(Some(Created), AwaitingPayment, "order.event.payment_failed")]
               case _ => [created]
  {
    hide Good, OutboxTrue, BasesHold;
    TimelineThere(db, p);
  }

  lemma TimelineThere(db: Db, p: Id)
    requires Exact(db) && p in db.payments
    ensures db.payments[p].orderId in db.events
  {
    hide OutboxTrue, TimelinesExact, BasesHold;
    TimelineSays(db, p);
  }

  /** Every message in the outbox is true: to the customer of the order, on its channel, in the template and with the amount of what happened. */
  lemma MessageSays(db: Db, key: Key)
    requires Exact(db) && key in db.outbox
    ensures var row := db.outbox[key];
            && row.orderId in db.orders && row.userId == db.orders[row.orderId].customer && row.userId in db.users
            && row.phone == db.users[row.userId].phone && row.language == db.users[row.userId].language
            && match key
               case CreatedKey(o, c) => row.channel == c && row.orderId == o && row.templateKey == "notification.order.confirmed"
               case SettleKey(r, e, c) =>
                 && row.channel == c && "amount" in row.params
                 && row.templateKey == (if e == PaymentReceived then "notification.payment.received" else "notification.payment.failed")
                 && exists p :: p in db.payments && db.payments[p].ref == Some(r) && db.payments[p].orderId == row.orderId
                                && (e == PaymentReceived <==> db.payments[p].status == Settled)
                                && Money.TakaToPoisha(row.params["amount"]) == Money.TakaToPoisha(db.payments[p].amountBdt)
  {
    hide Good, TimelinesExact, BasesHold, Money.TakaToPoisha;
    assert RowTrue(db, key, db.outbox[key]);
  }
}
