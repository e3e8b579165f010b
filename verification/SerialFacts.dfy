/**
 * What every database reached by whole transactions looks like: the outbox
 * holds exactly the notifications of what happened, each timeline is exactly
 * one of three, and every order still stands on the cart it was priced from.
 */
module SerialFacts {
  import opened Outcomes
  import opened Tables
  import opened Settlement
  import opened OrderPricing
  import opened OrderCreation
  import opened Consistency
  import opened SerialRuns
  import Money

  // ---- the invariants --------------------------------------------------

  /** Payment p of reference r ended with the outcome event e announces. */
  predicate Announces(payments: map<Id, PayRow>, p: Id, r: Ref, e: Event) {
    p in payments && payments[p].ref == Some(r) && e == EventForStatus(payments[p].status)
  }

  /** To the order's customer, at that user's number and in that user's language. */
  predicate AddressedTo(db: Db, row: OutboxRow, o: Id) {
    && row.orderId == o && o in db.orders && row.userId == db.orders[o].customer
    && row.userId in db.users && row.phone == db.users[row.userId].phone && row.language == db.users[row.userId].language
  }

  /** The amount a settlement message tells is the amount of the payment it is about. */
  predicate TellsAmount(row: OutboxRow, payment: PayRow) {
    "amount" in row.params && Money.TakaToPoisha(row.params["amount"]) == Money.TakaToPoisha(payment.amountBdt)
  }

  function OutcomeTemplate(e: Event): string {
    if e == PaymentReceived then "notification.payment.received" else "notification.payment.failed"
  }

  /** An outbox row is on its key's channel, in its event's template, to the customer of an order that changed so. */
  ghost predicate RowTrue(db: Db, key: Key, row: OutboxRow) {
    && row.channel == key.channel
    && match key
       case CreatedKey(o, _) => AddressedTo(db, row, o) && row.templateKey == "notification.order.confirmed"
       case SettleKey(r, e, _) =>
         row.templateKey == OutcomeTemplate(e)
         && exists p :: Announces(db.payments, p, r, e) && AddressedTo(db, row, db.payments[p].orderId) && TellsAmount(row, db.payments[p])
  }

  ghost predicate OutboxTrue(db: Db) {
    forall key :: key in db.outbox ==> RowTrue(db, key, db.outbox[key])
  }

  const CREATED_EVENT: EventRow := EventRow(None, Created, "order.event.created")

  function TimelineFor(s: PayStatus): seq<EventRow> {
    match s
    case Settled => [CREATED_EVENT, EventRow(Some(Created), Confirmed, "order.event.payment_received")]
    case Failed => [CREATED_EVENT, EventRow(Some(Created), AwaitingPayment, "order.event.payment_failed")]
    case _ => [CREATED_EVENT]
  }

  predicate TimelinesExact(db: Db) {
    forall p :: p in db.payments ==> EventsOf(db.events, db.payments[p].orderId) == TimelineFor(db.payments[p].status)
  }

  function PriceOf(item: ItemRow): int {
    match Money.TakaToPoisha(item.unitPriceBdt) case Ok(p) => p case Err(_) => 0
  }

  function ItemTotals(items: seq<ItemRow>): seq<int> {
    seq(|items|, i requires 0 <= i < |items| => PriceOf(items[i]) * items[i].quantity)
  }

  predicate AllItemsReady(items: seq<ItemRow>) {
    forall i :: 0 <= i < |items| ==> items[i].readyToShip
  }

  /** The stored amounts are the law's amounts for the stored items. */
  predicate BasisFits(items: seq<ItemRow>, allReady: bool, isEscrow: bool,
                      subtotal: int, fee: int, total: int, cap: int, advance: int)
  {
    && items != []
    && subtotal == Money.Sum(ItemTotals(items)) && total == subtotal + fee
    && (allReady <==> AllItemsReady(items))
    && (if isEscrow || allReady then cap == total else 100 * cap <= 10 * total < 100 * (cap + 1))
    && 0 <= advance <= cap <= total
  }

  predicate OrderBasis(order: OrderRow, items: seq<ItemRow>) {
    match (Money.TakaToPoisha(order.subtotalBdt), Money.TakaToPoisha(order.feeBdt), Money.TakaToPoisha(order.totalBdt),
           Money.TakaToPoisha(order.capBdt), Money.TakaToPoisha(order.advanceBdt))
    case (Ok(s), Ok(f), Ok(t), Ok(c), Ok(a)) => BasisFits(items, order.allItemsReady, order.isEscrow, s, f, t, c, a)
    case _ => false
  }

  predicate BasesHold(orders: map<Id, OrderRow>, items: map<Id, seq<ItemRow>>) {
    forall o :: o in orders ==> o in items && OrderBasis(orders[o], items[o])
  }

  ghost predicate Exact(db: Db) {
    Good(db) && OutboxTrue(db) && TimelinesExact(db) && BasesHold(db.orders, db.items)
  }

  // ---- an applied notice -----------------------------------------------

  lemma PaidOrder(db: Db, n: Notice, p: Id, db': Db)
    requires Paid(db, n, p, db')
    ensures var order := db.orders[n.orderId];
            && n.orderId in db'.orders
            && db'.orders == db.orders[n.orderId := db'.orders[n.orderId]]
            && db'.orders[n.orderId].(status := order.status, advancePaidAt := order.advancePaidAt, deadlineAt := order.deadlineAt) == order
            && db'.items == db.items && db'.users == db.users
            && db'.events == db.events[n.orderId := EventsOf(db.events, n.orderId)
                 + [EventRow(Some(order.status), TargetStatus(n.outcome), NoteKey(n.outcome))]]
  {
    hide RefOnAnother, Money.TakaToPoisha, AddsNotice;
    var w :| IsEffect(db, n, p, db.payments[p].isAdvance, w) && db' == Merge(db, n, p, w);
  }

  lemma PaidOutbox(db: Db, n: Notice, p: Id, db': Db, key: Key)
    requires Paid(db, n, p, db') && key in db'.outbox && key !in db.outbox
    ensures key == NoticeKey(n, key.channel)
    ensures db.orders[n.orderId].customer in db.users
    ensures db'.outbox[key] == QueuedRow(n, db.orders[n.orderId].customer, db.users[db.orders[n.orderId].customer], key.channel)
  {
    hide RefOnAnother, Money.TakaToPoisha, QueuedRow, Moved, Marked;
    var w :| IsEffect(db, n, p, db.payments[p].isAdvance, w) && db' == Merge(db, n, p, w);
  }

  lemma PaidOutboxKeeps(db: Db, n: Notice, p: Id, db': Db, key: Key)
    requires Paid(db, n, p, db') && key in db.outbox
    ensures key in db'.outbox && db'.outbox[key] == db.outbox[key]
  {
    hide RefOnAnother, Money.TakaToPoisha, QueuedRow, Moved, Marked;
    var w :| IsEffect(db, n, p, db.payments[p].isAdvance, w) && db' == Merge(db, n, p, w);
  }

  lemma PaidKeepsOutboxTrue(db: Db, n: Notice, p: Id, db': Db)
    requires Good(db) && OutboxTrue(db) && Paid(db, n, p, db')
    ensures OutboxTrue(db')
  {
    hide Good, Paid, RowTrue;
    forall key | key in db'.outbox
      ensures RowTrue(db', key, db'.outbox[key])
    {
      if key in db.outbox {
        PaidOutboxKeeps(db, n, p, db', key);
        PaidKeepsRowTrue(db, n, p, db', key);
      } else {
        PaidOutbox(db, n, p, db', key);
        NewRowTrue(db, n, p, db', key.channel);
      }
    }
  }

  lemma QueuedRowSays(n: Notice, customer: Id, user: User, c: Channel, payment: PayRow)
    requires Money.TakaToPoisha(payment.amountBdt) == Ok(n.amount) && -Money.MAX_POISHA <= n.amount <= Money.MAX_POISHA
    ensures var row := QueuedRow(n, customer, user, c);
            && TellsAmount(row, payment) && row.channel == c && row.templateKey == OutcomeTemplate(EventFor(n.outcome))
            && row.orderId == n.orderId && row.userId == customer && row.phone == user.phone && row.language == user.language
  {
    hide Money.TakaToPoisha, Money.PoishaToTaka, Prefix8;
    Money.RoundTrip(n.amount);
  }

  lemma NewRowTrue(db: Db, n: Notice, p: Id, db': Db, c: Channel)
    requires Good(db) && Paid(db, n, p, db') && db.orders[n.orderId].customer in db.users
    ensures RowTrue(db', NoticeKey(n, c), QueuedRow(n, db.orders[n.orderId].customer, db.users[db.orders[n.orderId].customer], c))
  {
    hide Good, RefOnAnother, Money.TakaToPoisha, IsEffect, Merge, OutcomeTemplate, QueuedRow, TellsAmount;
    PaidRow(db, n, p, db');
    PaidOrder(db, n, p, db');
    PendingParts(db, p);
    var customer := db.orders[n.orderId].customer;
    QueuedRowSays(n, customer, db.users[customer], c, db'.payments[p]);
    assert Announces(db'.payments, p, n.ref, EventFor(n.outcome));
  }

  lemma PaidKeepsRowTrue(db: Db, n: Notice, p: Id, db': Db, key: Key)
    requires Good(db) && Paid(db, n, p, db') && key in db.outbox && RowTrue(db, key, db.outbox[key])
    ensures RowTrue(db', key, db.outbox[key])
  {
    hide Good, RefOnAnother, Money.TakaToPoisha, IsEffect, Merge, OutcomeTemplate, RowFits, TellsAmount;
    PaidRow(db, n, p, db');
    PaidOrder(db, n, p, db');
    PendingHasNoRef(db, p);
    if key.SettleKey? {
      var q :| Announces(db.payments, q, key.ref, key.event) && AddressedTo(db, db.outbox[key], db.payments[q].orderId)
               && TellsAmount(db.outbox[key], db.payments[q]);
      assert q != p;
      assert Announces(db'.payments, q, key.ref, key.event);
    }
  }

  lemma PaidTimelines(db: Db, n: Notice, p: Id, db': Db)
    requires Good(db) && TimelinesExact(db) && Paid(db, n, p, db')
    ensures TimelinesExact(db')
  {
    hide Good, RefOnAnother, Money.TakaToPoisha, IsEffect, Merge;
    PaidRow(db, n, p, db');
    PaidOrder(db, n, p, db');
    PendingHasNoRef(db, p);
    forall q | q in db'.payments
      ensures EventsOf(db'.events, db'.payments[q].orderId) == TimelineFor(db'.payments[q].status)
    {
      if q != p {
        GoodKeys(db);
        if db.payments[q].orderId == n.orderId { SamePending(db, p, q); }
      }
    }
  }

  lemma PaidBases(db: Db, n: Notice, p: Id, db': Db)
    requires BasesHold(db.orders, db.items) && Paid(db, n, p, db')
    ensures BasesHold(db'.orders, db'.items)
  {
    hide RefOnAnother, Money.TakaToPoisha, IsEffect, Merge, BasisFits;
    PaidOrder(db, n, p, db');
    assert OrderBasis(db.orders[n.orderId], db.items[n.orderId]);
  }

  lemma PaidKeepsExact(db: Db, n: Notice, p: Id, db': Db)
    requires Exact(db) && Paid(db, n, p, db')
    ensures Exact(db')
  {
    hide Good, OutboxTrue, TimelinesExact, BasesHold, Paid;
    PaidKeepsGood(db, n, p, db');
    PaidKeepsOutboxTrue(db, n, p, db');
    PaidTimelines(db, n, p, db');
    PaidBases(db, n, p, db');
  }

  // ---- a created order -------------------------------------------------

  lemma ItemsAreLines(lines: seq<ResolvedLine>)
    requires AllPrintable(lines)
    ensures ItemTotals(NewItems(lines)) == LineTotals(CartLines(lines))
    ensures AllItemsReady(NewItems(lines)) <==> AllReady(CartLines(lines))
  {
    hide Money.TakaToPoisha, Money.PoishaToTaka;
    var items, cart := NewItems(lines), CartLines(lines);
    forall i | 0 <= i < |lines| ensures PriceOf(items[i]) == cart[i].unitPrice {
      Money.PrintIsCanonical(lines[i].unitPrice);
    }
    assert forall i :: 0 <= i < |lines| ==> items[i].readyToShip == cart[i].readyToShip == lines[i].readyToShip;
    if AllItemsReady(items) {
      forall i | 0 <= i < |cart| ensures cart[i].readyToShip { assert items[i].readyToShip; }
    }
  }

  lemma CreatedBasis(cmd: Command, sameCity: bool, escrowEnabled: bool, lines: seq<ResolvedLine>, p: Priced)
    requires AllPrintable(lines)
    requires PriceOrder(CartLines(lines), cmd.deliveryFee, cmd.requestedAdvance, cmd.paymentMethod, escrowEnabled) == Ok(p)
    ensures OrderBasis(NewOrder(cmd, sameCity, p), NewItems(lines))
  {
    hide Money.TakaToPoisha, PriceOrder, LineTotals, ItemTotals, AllItemsReady, AllReady, Money.Sum;
    PricedBasis(CartLines(lines), cmd.deliveryFee, cmd.requestedAdvance, cmd.paymentMethod, escrowEnabled);
    ItemsAreLines(lines);
  }

  lemma InsertKeepsOutboxTrue(db: Db, o: Id, order: OrderRow, items: seq<ItemRow>, payId: Id, payment: PayRow,
                              push: OutboxRow, sms: OutboxRow)
    requires OutboxTrue(db) && o !in db.orders && payId !in db.payments
    requires RowIsConfirmation(db, order, o, push, Push) && RowIsConfirmation(db, order, o, sms, Sms)
    ensures OutboxTrue(InsertAll(db, o, order, items, payId, payment, push, sms))
  {
    hide OutcomeTemplate, TellsAmount;
    var db' := InsertAll(db, o, order, items, payId, payment, push, sms);
    forall key | key in db'.outbox
      ensures RowTrue(db', key, db'.outbox[key])
    {
      if key in db.outbox {
        assert RowTrue(db, key, db.outbox[key]);
        if key.SettleKey? {
          var p :| Announces(db.payments, p, key.ref, key.event) && AddressedTo(db, db.outbox[key], db.payments[p].orderId)
                   && TellsAmount(db.outbox[key], db.payments[p]);
          assert Announces(db'.payments, p, key.ref, key.event);
        }
      }
    }
  }

  predicate RowIsConfirmation(db: Db, order: OrderRow, o: Id, row: OutboxRow, c: Channel) {
    && row.channel == c && row.orderId == o && row.userId == order.customer && row.templateKey == "notification.order.confirmed"
    && row.userId in db.users && row.phone == db.users[row.userId].phone && row.language == db.users[row.userId].language
  }

  lemma InsertTimelines(db: Db, o: Id, order: OrderRow, items: seq<ItemRow>, payId: Id, payment: PayRow,
                        push: OutboxRow, sms: OutboxRow)
    requires TimelinesExact(db) && o !in db.orders && o !in db.events && payment.orderId == o && payment.status == Pending
    requires forall p :: p in db.payments ==> db.payments[p].orderId in db.orders
    ensures TimelinesExact(InsertAll(db, o, order, items, payId, payment, push, sms))
  {
  }

  lemma InsertBases(orders: map<Id, OrderRow>, items: map<Id, seq<ItemRow>>, o: Id, order: OrderRow, list: seq<ItemRow>)
    requires BasesHold(orders, items) && OrderBasis(order, list)
    ensures BasesHold(orders[o := order], items[o := list])
  {
    hide OrderBasis;
  }

  lemma OrdersOfPayments(db: Db)
    requires Good(db)
    ensures forall p :: p in db.payments ==> db.payments[p].orderId in db.orders
    ensures forall o :: o in db.events ==> o in db.orders
  {
    hide AmountsGood, IsTimeline, Notified, ClockFits, PaymentFits, OnePaymentPerOrder, RefsUnique;
    forall p | p in db.payments ensures db.payments[p].orderId in db.orders { assert PaymentGood(db, p); }
  }

  lemma CreateKeepsExact(db: Db, cmd: Command, ctx: Context)
    requires Exact(db) && CreateOrder(db, cmd, ctx).Ok?
    ensures Exact(CreateOrder(db, cmd, ctx).value)
  {
    hide Good, OutboxTrue, TimelinesExact, BasesHold, Plan, InsertAll, OrderBasis, PriceOrder, NewItems;
    PlanParts(cmd, ctx);
    var (lines, p) := Plan(cmd, ctx).value;
    var user := db.users[cmd.customer];
    var order, payment := NewOrder(cmd, ctx.sameCity, p), PendingPayment(cmd, ctx.orderId, p);
    var push, sms := ConfirmationRow(cmd, user, ctx.orderId, Push), ConfirmationRow(cmd, user, ctx.orderId, Sms);
    CreateKeepsGood(db, cmd, ctx);
    OrdersOfPayments(db);
    CreatedBasis(cmd, ctx.sameCity, ctx.escrowEnabled, lines, p);
    InsertKeepsOutboxTrue(db, ctx.orderId, order, NewItems(lines), ctx.payId, payment, push, sms);
    InsertTimelines(db, ctx.orderId, order, NewItems(lines), ctx.payId, payment, push, sms);
    InsertBases(db.orders, db.items, ctx.orderId, order, NewItems(lines));
    InsertedTables(db, ctx.orderId, order, NewItems(lines), ctx.payId, payment, push, sms);
  }

  lemma InsertedTables(db: Db, o: Id, order: OrderRow, items: seq<ItemRow>, payId: Id, payment: PayRow,
                       push: OutboxRow, sms: OutboxRow)
    ensures var db' := InsertAll(db, o, order, items, payId, payment, push, sms);
            db'.orders == db.orders[o := order] && db'.items == db.items[o := items]
  {
  }

  // ---- every run -------------------------------------------------------

  lemma DispatchKeepsExact(db: Db, key: Key, delivery: Delivery, attempts: nat)
    requires Exact(db)
    ensures Exact(db.(outbox := Dispatched(db.outbox, key, delivery, attempts)))
  {
    hide Good, TimelinesExact, BasesHold, OutcomeTemplate, Money.TakaToPoisha;
    DispatchKeepsGood(db, key, delivery, attempts);
    var db' := db.(outbox := Dispatched(db.outbox, key, delivery, attempts));
    assert TimelinesExact(db') by { SameTimelines(db, db'); }
    forall k | k in db'.outbox ensures RowTrue(db', k, db'.outbox[k]) {
      assert RowTrue(db, k, db.outbox[k]);
    }
  }

  lemma SameTimelines(a: Db, b: Db)
    requires TimelinesExact(a) && a.payments == b.payments && a.events == b.events
    ensures TimelinesExact(b)
  {
  }

  lemma AfterKeepsExact(w: World, a: Action)
    requires Exact(w.db)
    ensures Exact(After(w, a).db)
  {
    hide Exact, Good, CreateOrder, ApplySettlement, Payable, Paid, HasRef, HasPending, Dispatched;
    match a
    case Create(cmd, ctx) => if CreateOrder(w.db, cmd, ctx).Ok? { CreateKeepsExact(w.db, cmd, ctx); }
    case Deliver(n) =>
      assert Good(w.db) by { ExactIsGood(w.db); }
      DeliveryOutcome(w.db, n);
      if Payable(w.db, n) {
        var p :| Paid(w.db, n, p, ApplySettlement(w.db, n).0);
        PaidKeepsExact(w.db, n, p, ApplySettlement(w.db, n).0);
      }
    case EditCatalog(_) =>
    case Dispatch(key, delivery, attempts) => DispatchKeepsExact(w.db, key, delivery, attempts);
  }

  lemma ExactIsGood(db: Db)
    requires Exact(db)
    ensures Good(db)
  {
    hide Good;
  }

  /** Every database any run reaches is exact. */
  lemma {:induction false} RunKeepsExact(w: World, run: seq<Action>)
    requires Exact(w.db)
    ensures Exact(AfterAll(w, run).db)
    decreases |run|
  {
    hide Exact, After;
    if run != [] {
      AfterKeepsExact(w, run[0]);
      RunKeepsExact(After(w, run[0]), run[1..]);
    }
  }

  /** In particular every database reached from empty tables, with any users and under any catalog edits. */
  lemma ReachableIsExact(users: map<Id, User>, catalog: map<Id, ListingRow>, run: seq<Action>)
    ensures Exact(AfterAll(World(catalog, EMPTY.(users := users)), run).db)
  {
    EmptyIsGood(users);
    RunKeepsExact(World(catalog, EMPTY.(users := users)), run);
  }

  /**
   * The outbox and the tables say the same: a confirmation key is there for
   * every channel exactly when its order is, and a settlement key exactly when
   * a payment of that reference ended in that event's outcome.
   */
  lemma OutboxExact(db: Db, key: Key)
    requires Exact(db)
    ensures key in db.outbox <==>
            match key
            case CreatedKey(o, _) => o in db.orders
            case SettleKey(r, e, _) => exists p :: Announces(db.payments, p, r, e)
    ensures key in db.outbox ==> RowTrue(db, key, db.outbox[key])
  {
    hide RowTrue, AmountsGood, IsTimeline, ClockFits, PaymentFits, TimelinesExact, BasesHold, OnePaymentPerOrder, RefsUnique;
    match key
    case CreatedKey(o, c) =>
      if o in db.orders {
        var p :| p in db.payments && db.payments[p].orderId == o;
        assert PaymentGood(db, p);
      }
    case SettleKey(r, e, c) =>
      if p :| Announces(db.payments, p, r, e) { assert PaymentGood(db, p); }
      if key in db.outbox { RowAnnounces(db, key); }
  }

  lemma RowAnnounces(db: Db, key: Key)
    requires OutboxTrue(db) && key in db.outbox && key.SettleKey?
    ensures exists p :: Announces(db.payments, p, key.ref, key.event)
  {
    assert RowTrue(db, key, db.outbox[key]);
  }

  // ---- the request and its items ---------------------------------------

  /** Item i is request line i: its listing, its quantity, and the price and readiness the catalog showed. */
  predicate ItemIsLine(item: ItemRow, line: RequestedLine, catalog: map<Id, ListingRow>) {
    && line.listingId in catalog
    && item.listingId == line.listingId && item.quantity == line.quantity && line.quantity >= 1
    && item.readyToShip == catalog[line.listingId].readyToShip
    && Money.TakaToPoisha(item.unitPriceBdt) == Money.TakaToPoisha(catalog[line.listingId].priceBdt)
  }

  predicate CatalogKeyed(catalog: map<Id, ListingRow>) {
    forall id :: id in catalog ==> catalog[id].id == id
  }

  lemma LineFromCatalog(catalog: map<Id, ListingRow>, line: RequestedLine, r: ResolvedLine, merchantRole: Id)
    requires CatalogKeyed(catalog) && ResolveLine(catalog, line) == Ok(r) && LineProblem(r, merchantRole).None?
    requires Money.PoishaToTaka(r.unitPrice).Ok?
    ensures ItemIsLine(ItemRow(r.listingId, r.quantity, Money.PoishaToTaka(r.unitPrice).value, r.readyToShip), line, catalog)
  {
    hide Money.TakaToPoisha, Money.PoishaToTaka;
    Money.PrintIsCanonical(r.unitPrice);
  }

  /** The order row says what was asked for, and its amounts read back as the request's. */
  predicate OrderIsRequest(order: OrderRow, cmd: Command, ctx: Context) {
    && order.customer == cmd.customer && order.merchantRole == cmd.merchantRole && order.location == cmd.location
    && order.paymentMethod == cmd.paymentMethod && order.isSameCity == ctx.sameCity
    && (order.isEscrow <==> cmd.paymentMethod == Escrow && ctx.escrowEnabled)
    && Money.TakaToPoisha(order.feeBdt) == Ok(cmd.deliveryFee) && Money.TakaToPoisha(order.advanceBdt) == Ok(cmd.requestedAdvance)
  }

  lemma OrderMatchesRequest(db: Db, cmd: Command, ctx: Context)
    requires CreateOrder(db, cmd, ctx).Ok?
    ensures ctx.orderId in CreateOrder(db, cmd, ctx).value.orders
    ensures OrderIsRequest(CreateOrder(db, cmd, ctx).value.orders[ctx.orderId], cmd, ctx)
  {
    hide Plan, NewItems, PriceOrder, Money.TakaToPoisha, AllReady, CartSubtotal, Money.Sum;
    PlanParts(cmd, ctx);
    var (lines, p) := Plan(cmd, ctx).value;
    PricedBasis(CartLines(lines), cmd.deliveryFee, cmd.requestedAdvance, cmd.paymentMethod, ctx.escrowEnabled);
  }

  /** Whatever order the listings query returns its rows in, the order's items are the request's lines, in request order. */
  lemma ItemsMatchRequest(w: World, cmd: Command, ctx: Context)
    requires CatalogKeyed(w.catalog) && Answers(ctx.rows, w.catalog, cmd.lines) && CreateOrder(w.db, cmd, ctx).Ok?
    ensures var items := CreateOrder(w.db, cmd, ctx).value.items;
            && ctx.orderId in items && |items[ctx.orderId]| == |cmd.lines|
            && forall i :: 0 <= i < |cmd.lines| ==> ItemIsLine(items[ctx.orderId][i], cmd.lines[i], w.catalog)
  {
    hide Plan, ResolveCartLines, ResolveAll, ResolveLine, LineProblem, CartProblem, PriceOrder, ItemIsLine, Answers, Money.PoishaToTaka;
    PlanParts(cmd, ctx);
    var (lines, p) := Plan(cmd, ctx).value;
    RowOrderIrrelevant(ctx.rows, w.catalog, cmd.lines);
    ResolvedInOrder(w.catalog, cmd.lines);
    OrderableCart(lines, cmd.merchantRole);
    forall i | 0 <= i < |cmd.lines|
      ensures ItemIsLine(NewItems(lines)[i], cmd.lines[i], w.catalog)
    {
      LineFromCatalog(w.catalog, cmd.lines[i], lines[i], cmd.merchantRole);
    }
  }
}
