/**
 * Runs of whole transactions, one after another: orders are created, notices
 * are delivered in any order and any number of times, the catalog is edited
 * and the dispatcher moves outbox rows on. Here a replay changes nothing, the
 * outbox says exactly what happened, and no money appears or gets lost.
 */
module SerialRuns {
  import opened Outcomes
  import opened Tables
  import opened Settlement
  import opened OrderPricing
  import opened OrderCreation
  import opened Consistency
  import opened MapSums
  import Money

  datatype World = World(catalog: map<Id, ListingRow>, db: Db)

  datatype Action =
    | Create(cmd: Command, ctx: Context)
    | Deliver(notice: Notice)
    | EditCatalog(catalog: map<Id, ListingRow>)
    | Dispatch(key: Key, delivery: Delivery, attempts: nat)

  ghost function After(w: World, a: Action): World {
    match a
    case Create(cmd, ctx) => (match CreateOrder(w.db, cmd, ctx) case Ok(db) => w.(db := db) case Err(_) => w)
    case Deliver(n) => w.(db := ApplySettlement(w.db, n).0)
    case EditCatalog(catalog) => w.(catalog := catalog)
    case Dispatch(key, delivery, attempts) => w.(db := w.db.(outbox := Dispatched(w.db.outbox, key, delivery, attempts)))
  }

  ghost function AfterAll(w: World, run: seq<Action>): World
    decreases |run|
  {
    if run == [] then w else AfterAll(After(w, run[0]), run[1..])
  }

  // ---- one delivery ----------------------------------------------------

  /** The notice asks for exactly what the pending payment of its order is worth. */
  ghost predicate Payable(db: Db, n: Notice) {
    && !HasRef(db, n.ref)
    && exists p :: p in db.payments && db.payments[p].orderId == n.orderId && db.payments[p].status == Pending
                   && Money.TakaToPoisha(db.payments[p].amountBdt) == Ok(n.amount)
  }

  /** The changes of an applied notice, all of them: row p is marked, its order moves, the outbox gains its rows. */
  ghost predicate Paid(db: Db, n: Notice, p: Id, db': Db) {
    && p in db.payments && db.payments[p].status == Pending && n.orderId in db.orders
    && RowFits(db, n, p, db.payments[p].isAdvance)
    && Money.TakaToPoisha(db.payments[p].amountBdt) == Ok(n.amount)
    && !RefOnAnother(db.payments, p, n.ref)
    && exists w :: IsEffect(db, n, p, db.payments[p].isAdvance, w) && db' == Merge(db, n, p, w)
  }

  lemma SamePending(db: Db, p: Id, q: Id)
    requires OnePaymentPerOrder(db.payments) && p in db.payments && q in db.payments
    requires db.payments[p].orderId == db.payments[q].orderId
    ensures p == q
  {
  }

  lemma PendingParts(db: Db, p: Id)
    requires Good(db) && p in db.payments
    ensures var o := db.payments[p].orderId;
            && o in db.orders && db.orders[o].customer in db.users && Money.TakaToPoisha(db.payments[p].amountBdt).Ok?
            && -Money.MAX_POISHA <= Money.TakaToPoisha(db.payments[p].amountBdt).value <= Money.MAX_POISHA
  {
    hide Money.TakaToPoisha, IsTimeline, Notified, ClockFits;
    assert PaymentGood(db, p);
    assert AmountsOrdered(db.orders[db.payments[p].orderId]);
  }

  lemma PayableRow(db: Db, n: Notice)
    requires Good(db)
    ensures Payable(db, n) <==>
            !HasRef(db, n.ref) && HasPending(db, n.orderId)
            && Money.TakaToPoisha(db.payments[PendingRow(db, n.orderId)].amountBdt) == Ok(n.amount)
  {
    hide Good, Money.TakaToPoisha, HasRef;
    if HasPending(db, n.orderId) {
      var p := PendingRow(db, n.orderId);
      forall q | q in db.payments && db.payments[q].orderId == n.orderId ensures q == p {
        assert OnePaymentPerOrder(db.payments) by { GoodKeys(db); }
        SamePending(db, p, q);
      }
    }
  }

  lemma GoodKeys(db: Db)
    requires Good(db)
    ensures OnePaymentPerOrder(db.payments) && RefsUnique(db.payments)
  {
    hide OnePaymentPerOrder, RefsUnique;
  }

  lemma BodyOnPending(db: Db, n: Notice, p: Id)
    requires Good(db) && !HasRef(db, n.ref) && p in db.payments
    requires db.payments[p].orderId == n.orderId && db.payments[p].status == Pending
    requires Money.TakaToPoisha(db.payments[p].amountBdt) == Ok(n.amount)
    ensures var isAdvance := db.payments[p].isAdvance;
            && n.orderId in db.orders && RunBody(db, n, p, isAdvance).Ok?
            && Paid(db, n, p, Merge(db, n, p, RunBody(db, n, p, isAdvance).value.w))
            && Answer(n, isAdvance, RunBody(db, n, p, isAdvance).value.l)
               == Applied(n.orderId, NewDeadline(db.orders[n.orderId], n, isAdvance))
  {
    hide Good, RunBody, IsEffect, Money.TakaToPoisha, Money.PoishaToTaka, NewDeadline, Answer;
    PendingParts(db, p);
    Money.RoundTrip(n.amount);
    assert !RefOnAnother(db.payments, p, n.ref);
    BodyEffect(db, n, p, db.payments[p].isAdvance);
  }

  /**
   * The whole answer of applySettlement on a consistent database. It never
   * throws and never answers order_not_found; whatever is not applied leaves
   * the database as it was; and exactly the payable notices are applied.
   */
  lemma DeliveryOutcome(db: Db, n: Notice)
    requires Good(db)
    ensures var (db', answer) := ApplySettlement(db, n);
            && (answer.Applied? <==> Payable(db, n))
            && (answer.Duplicate? <==> HasRef(db, n.ref))
            && (answer == Rejected("no_pending_transaction") <==> !HasRef(db, n.ref) && !HasPending(db, n.orderId))
            && (!Payable(db, n) && !HasRef(db, n.ref) && HasPending(db, n.orderId) ==> answer == Rejected("amount_mismatch"))
            && (!answer.Applied? ==> db' == db)
            && (answer.Applied? ==>
                  exists p :: Paid(db, n, p, db')
                              && answer == Applied(n.orderId, NewDeadline(db.orders[n.orderId], n, db.payments[p].isAdvance)))
  {
    hide Good, RunBody, IsEffect, Money.TakaToPoisha, Payable, Paid, NewDeadline, Answer, HasPending, Merge;
    PayableRow(db, n);
    if !HasRef(db, n.ref) && HasPending(db, n.orderId) {
      var p := PendingRow(db, n.orderId);
      PendingParts(db, p);
      if Money.TakaToPoisha(db.payments[p].amountBdt) == Ok(n.amount) {
        BodyOnPending(db, n, p);
      }
    }
  }

  /** An applied notice writes one payment row. */
  lemma PaidRow(db: Db, n: Notice, p: Id, db': Db)
    requires Paid(db, n, p, db')
    ensures db'.payments == db.payments[p := Marked(db.payments[p], n)] && db'.orders.Keys == db.orders.Keys
  {
    hide RefOnAnother, Money.TakaToPoisha, AddsNotice;
    var w :| IsEffect(db, n, p, db.payments[p].isAdvance, w) && db' == Merge(db, n, p, w);
  }

  /** A created order adds one pending payment row. */
  lemma CreatedRow(db: Db, cmd: Command, ctx: Context) returns (row: PayRow)
    requires CreateOrder(db, cmd, ctx).Ok?
    ensures var db' := CreateOrder(db, cmd, ctx).value;
            && ctx.payId !in db.payments && ctx.orderId !in db.orders && db'.payments == db.payments[ctx.payId := row]
            && row.orderId == ctx.orderId && row.status == Pending && row.ref.None?
            && db'.orders.Keys == db.orders.Keys + {ctx.orderId}
  {
    hide Plan, NewOrder, NewItems, ConfirmationRow;
    PlanParts(cmd, ctx);
    var (lines, p) := Plan(cmd, ctx).value;
    row := PendingPayment(cmd, ctx.orderId, p);
  }

  // ---- every run keeps the tables consistent ---------------------------

  lemma PaidKeepsGood(db: Db, n: Notice, p: Id, db': Db)
    requires Good(db) && Paid(db, n, p, db')
    ensures Good(db')
  {
    hide Good, IsEffect, Merge, RefOnAnother, Money.TakaToPoisha;
    var w :| IsEffect(db, n, p, db.payments[p].isAdvance, w) && db' == Merge(db, n, p, w);
    CommitKeepsGood(db, n, p, db.payments[p].isAdvance, w);
  }

  lemma AfterKeepsGood(w: World, a: Action)
    requires Good(w.db)
    ensures Good(After(w, a).db)
  {
    hide Good, CreateOrder, ApplySettlement, Payable, Paid, HasRef, HasPending, Dispatched;
    match a
    case Create(cmd, ctx) => if CreateOrder(w.db, cmd, ctx).Ok? { CreateKeepsGood(w.db, cmd, ctx); }
    case Deliver(n) =>
      DeliveryOutcome(w.db, n);
      if Payable(w.db, n) {
        var p :| Paid(w.db, n, p, ApplySettlement(w.db, n).0);
        PaidKeepsGood(w.db, n, p, ApplySettlement(w.db, n).0);
      }
    case EditCatalog(_) =>
    case Dispatch(key, delivery, attempts) => DispatchKeepsGood(w.db, key, delivery, attempts);
  }

  lemma {:induction false} RunKeepsGood(w: World, run: seq<Action>)
    requires Good(w.db)
    ensures Good(AfterAll(w, run).db)
    decreases |run|
  {
    hide Good, After;
    if run != [] {
      AfterKeepsGood(w, run[0]);
      RunKeepsGood(After(w, run[0]), run[1..]);
    }
  }

  // ---- a replay is a no-op ---------------------------------------------

  /** A run without the deliveries that carry reference r. */
  function Without(run: seq<Action>, r: Ref): seq<Action> {
    if run == [] then []
    else if run[0].Deliver? && run[0].notice.ref == r then Without(run[1..], r)
    else [run[0]] + Without(run[1..], r)
  }

  /** Of one action the delivery of r is left out and everything else kept; of a run, action by action. */
  lemma {:induction false} WithoutInParts(a: seq<Action>, b: seq<Action>, r: Ref)
    ensures Without(a + b, r) == Without(a, r) + Without(b, r)
    ensures forall x :: Without([x], r) == if x.Deliver? && x.notice.ref == r then [] else [x]
  {
    forall x ensures Without([x], r) == if x.Deliver? && x.notice.ref == r then [] else [x] { assert [x][1..] == []; }
    if a == [] {
      assert a + b == b;
    } else {
      WithoutInParts(a[1..], b, r);
      assert (a + b)[0] == a[0] && (a + b)[1..] == a[1..] + b;
    }
  }

  lemma PendingHasNoRef(db: Db, p: Id)
    requires Good(db) && p in db.payments && db.payments[p].status == Pending
    ensures db.payments[p].ref.None? && db.payments[p].orderId in db.orders && db.orders[db.payments[p].orderId].status == Created
  {
    hide AmountsGood, IsTimeline, ClockFits, Notified;
    assert PaymentGood(db, p);
  }

  lemma PaidKeepsRef(db: Db, n: Notice, p: Id, db': Db, r: Ref)
    requires Good(db) && Paid(db, n, p, db')
    ensures HasRef(db, r) ==> HasRef(db', r)
    ensures HasRef(db', n.ref)
  {
    hide Good, RefOnAnother, Money.TakaToPoisha, IsEffect, Merge;
    PaidRow(db, n, p, db');
    assert db'.payments[p].ref == Some(n.ref);
    if HasRef(db, r) {
      var q :| q in db.payments && db.payments[q].ref == Some(r);
      PendingHasNoRef(db, p);
      assert db'.payments[q].ref == Some(r);
    }
  }

  lemma CreateKeepsRef(db: Db, cmd: Command, ctx: Context, r: Ref)
    requires CreateOrder(db, cmd, ctx).Ok? && HasRef(db, r)
    ensures HasRef(CreateOrder(db, cmd, ctx).value, r)
  {
    hide CreateOrder;
    var row := CreatedRow(db, cmd, ctx);
    var q :| q in db.payments && db.payments[q].ref == Some(r);
    assert CreateOrder(db, cmd, ctx).value.payments[q].ref == Some(r);
  }

  lemma AfterKeepsRef(w: World, a: Action, r: Ref)
    requires Good(w.db) && HasRef(w.db, r)
    ensures HasRef(After(w, a).db, r)
  {
    hide Good, CreateOrder, ApplySettlement, Payable, Paid, HasPending, Dispatched;
    match a
    case Create(cmd, ctx) => if CreateOrder(w.db, cmd, ctx).Ok? { CreateKeepsRef(w.db, cmd, ctx, r); }
    case Deliver(n) =>
      DeliveryOutcome(w.db, n);
      if Payable(w.db, n) {
        var p :| Paid(w.db, n, p, ApplySettlement(w.db, n).0);
        PaidKeepsRef(w.db, n, p, ApplySettlement(w.db, n).0, r);
      }
    case EditCatalog(_) =>
    case Dispatch(key, delivery, attempts) =>
      var q :| q in w.db.payments && w.db.payments[q].ref == Some(r);
      assert After(w, a).db.payments[q].ref == Some(r);
  }

  lemma {:induction false} KnownRefDeletable(w: World, run: seq<Action>, r: Ref)
    requires Good(w.db) && HasRef(w.db, r)
    ensures AfterAll(w, Without(run, r)) == AfterAll(w, run)
    decreases |run|
  {
    hide Good, HasRef, After;
    if run != [] {
      var next := After(w, run[0]);
      AfterKeepsGood(w, run[0]);
      AfterKeepsRef(w, run[0], r);
      KnownRefDeletable(next, run[1..], r);
      if run[0].Deliver? && run[0].notice.ref == r {
        DuplicateStays(w, run[0].notice);
      } else {
        assert Without(run, r)[0] == run[0] && Without(run, r)[1..] == Without(run[1..], r);
      }
    }
  }

  lemma DuplicateStays(w: World, n: Notice)
    requires HasRef(w.db, n.ref)
    ensures After(w, Deliver(n)) == w
  {
    hide HasRef;
  }

  /** Once a notice is applied, deleting every later delivery of its reference leaves the same final world. */
  lemma ReplaysChangeNothing(w: World, n: Notice, later: seq<Action>)
    requires Good(w.db) && ApplySettlement(w.db, n).1.Applied?
    ensures AfterAll(w, [Deliver(n)] + later) == AfterAll(w, [Deliver(n)] + Without(later, n.ref))
  {
    hide Good, ApplySettlement, Payable, Paid, HasRef, HasPending;
    DeliveryOutcome(w.db, n);
    var p :| Paid(w.db, n, p, ApplySettlement(w.db, n).0);
    PaidKeepsRef(w.db, n, p, ApplySettlement(w.db, n).0, n.ref);
    AfterKeepsGood(w, Deliver(n));
    KnownRefDeletable(After(w, Deliver(n)), later, n.ref);
    assert ([Deliver(n)] + later)[1..] == later && ([Deliver(n)] + Without(later, n.ref))[1..] == Without(later, n.ref);
  }

  // ---- at most one settlement per order --------------------------------

  ghost predicate AppliesTo(w: World, a: Action, o: Id) {
    a.Deliver? && a.notice.orderId == o && ApplySettlement(w.db, a.notice).1.Applied?
  }

  ghost function TimesApplied(w: World, run: seq<Action>, o: Id): nat
    decreases |run|
  {
    if run == [] then 0 else (if AppliesTo(w, run[0], o) then 1 else 0) + TimesApplied(After(w, run[0]), run[1..], o)
  }

  /** An order whose payment is decided. */
  ghost predicate Decided(db: Db, o: Id) {
    o in db.orders && !HasPending(db, o)
  }

  lemma PaidDecides(db: Db, n: Notice, p: Id, db': Db, o: Id)
    requires Good(db) && Paid(db, n, p, db')
    ensures Decided(db', n.orderId)
    ensures Decided(db, o) ==> Decided(db', o)
  {
    hide PaymentsGood, AmountsGood, RefOnAnother, Money.TakaToPoisha, IsEffect, Merge;
    PaidRow(db, n, p, db');
  }

  lemma CreateKeepsDecided(db: Db, cmd: Command, ctx: Context, o: Id)
    requires CreateOrder(db, cmd, ctx).Ok? && Decided(db, o)
    ensures Decided(CreateOrder(db, cmd, ctx).value, o)
  {
    hide CreateOrder;
    var row := CreatedRow(db, cmd, ctx);
  }

  lemma AfterKeepsDecided(w: World, a: Action, o: Id)
    requires Good(w.db) && Decided(w.db, o)
    ensures Decided(After(w, a).db, o) && !AppliesTo(w, a, o)
  {
    hide Good, CreateOrder, ApplySettlement, Paid, HasRef, Dispatched;
    match a
    case Create(cmd, ctx) => if CreateOrder(w.db, cmd, ctx).Ok? { CreateKeepsDecided(w.db, cmd, ctx, o); }
    case Deliver(n) =>
      DeliveryOutcome(w.db, n);
      if Payable(w.db, n) {
        var p :| Paid(w.db, n, p, ApplySettlement(w.db, n).0);
        PaidDecides(w.db, n, p, ApplySettlement(w.db, n).0, o);
      }
    case EditCatalog(_) =>
    case Dispatch(key, delivery, attempts) =>
  }

  /** Whatever is delivered, an order is settled or failed at most once. */
  lemma {:induction false} AppliedAtMostOnce(w: World, run: seq<Action>, o: Id)
    requires Good(w.db)
    ensures TimesApplied(w, run, o) <= 1
    ensures Decided(w.db, o) ==> TimesApplied(w, run, o) == 0
    decreases |run|
  {
    hide Good, After, ApplySettlement, Decided, Paid, Payable, HasRef, HasPending;
    if run != [] {
      AfterKeepsGood(w, run[0]);
      AppliedAtMostOnce(After(w, run[0]), run[1..], o);
      if Decided(w.db, o) { AfterKeepsDecided(w, run[0], o); }
      if AppliesTo(w, run[0], o) {
        DeliveryOutcome(w.db, run[0].notice);
        AppliedDecides(w, run[0].notice);
      }
    }
  }

  lemma AppliedDecides(w: World, n: Notice)
    requires Good(w.db) && ApplySettlement(w.db, n).1.Applied?
    ensures Decided(After(w, Deliver(n)).db, n.orderId)
  {
    hide Good, ApplySettlement, Paid, Payable, HasRef, HasPending, Decided;
    DeliveryOutcome(w.db, n);
    var p :| Paid(w.db, n, p, ApplySettlement(w.db, n).0);
    PaidDecides(w.db, n, p, ApplySettlement(w.db, n).0, n.orderId);
  }

  lemma {:induction false} DecidedStays(w: World, run: seq<Action>, o: Id)
    requires Good(w.db) && Decided(w.db, o)
    ensures Good(AfterAll(w, run).db) && Decided(AfterAll(w, run).db, o)
    decreases |run|
  {
    hide Good, After, Decided;
    if run != [] {
      AfterKeepsGood(w, run[0]);
      AfterKeepsDecided(w, run[0], o);
      DecidedStays(After(w, run[0]), run[1..], o);
    }
  }

  /** After a notice is applied, whatever happens, no other notice of its order is ever applied. */
  lemma AppliedNeverAgain(w: World, n: Notice, between: seq<Action>, m: Notice)
    requires Good(w.db) && ApplySettlement(w.db, n).1.Applied? && m.orderId == n.orderId
    ensures var later := AfterAll(After(w, Deliver(n)), between).db;
            !ApplySettlement(later, m).1.Applied? && ApplySettlement(later, m).0 == later
  {
    hide Good, After, ApplySettlement, Decided, Payable, Paid, HasRef, HasPending;
    AppliedDecides(w, n);
    AfterKeepsGood(w, Deliver(n));
    DecidedStays(After(w, Deliver(n)), between, n.orderId);
    var last := AfterAll(After(w, Deliver(n)), between);
    AfterKeepsDecided(last, Deliver(m), n.orderId);
    DeliveryOutcome(last.db, m);
    assert AppliesTo(last, Deliver(m), n.orderId) <==> ApplySettlement(last.db, m).1.Applied?;
  }

  // ---- conservation ----------------------------------------------------

  function AmountOf(row: PayRow): int {
    match Money.TakaToPoisha(row.amountBdt) case Ok(p) => p case Err(_) => 0
  }

  /** What the settled transactions are worth. */
  ghost function SettledAmounts(payments: map<Id, PayRow>): map<Id, int> {
    map p | p in payments && payments[p].status == Settled :: AmountOf(payments[p])
  }

  ghost function SettledTotal(db: Db): int {
    SumOf(SettledAmounts(db.payments))
  }

  /** What the notices answered "applied, settled" were worth. */
  ghost function Received(w: World, run: seq<Action>): int
    decreases |run|
  {
    if run == [] then 0
    else (if run[0].Deliver? && run[0].notice.outcome == SettledOutcome && ApplySettlement(w.db, run[0].notice).1.Applied?
          then run[0].notice.amount else 0)
         + Received(After(w, run[0]), run[1..])
  }

  lemma PaidAmounts(db: Db, n: Notice, p: Id, db': Db)
    requires Paid(db, n, p, db')
    ensures SettledTotal(db') == SettledTotal(db) + if n.outcome == SettledOutcome then n.amount else 0
  {
    hide RefOnAnother, Money.TakaToPoisha, IsEffect, Merge;
    PaidRow(db, n, p, db');
    var before, after := SettledAmounts(db.payments), SettledAmounts(db'.payments);
    if n.outcome == SettledOutcome {
      assert after == before[p := n.amount];
      SumAfterWrite(before, p, n.amount);
    } else {
      assert after == before;
    }
  }

  lemma CreateAmounts(db: Db, cmd: Command, ctx: Context)
    requires CreateOrder(db, cmd, ctx).Ok?
    ensures SettledTotal(CreateOrder(db, cmd, ctx).value) == SettledTotal(db)
  {
    hide CreateOrder, AmountOf, SumOf;
    var row := CreatedRow(db, cmd, ctx);
    assert SettledAmounts(CreateOrder(db, cmd, ctx).value.payments) == SettledAmounts(db.payments);
  }

  lemma AfterAmounts(w: World, a: Action)
    requires Good(w.db)
    ensures SettledTotal(After(w, a).db) == SettledTotal(w.db) + Received(w, [a])
  {
    hide Good, CreateOrder, ApplySettlement, Paid, Payable, HasRef, HasPending, Dispatched, SumOf, SettledAmounts;
    assert Received(w, [a]) == (if a.Deliver? && a.notice.outcome == SettledOutcome && ApplySettlement(w.db, a.notice).1.Applied?
                                then a.notice.amount else 0);
    match a
    case Create(cmd, ctx) => if CreateOrder(w.db, cmd, ctx).Ok? { CreateAmounts(w.db, cmd, ctx); }
    case Deliver(n) =>
      DeliveryOutcome(w.db, n);
      if Payable(w.db, n) {
        var p :| Paid(w.db, n, p, ApplySettlement(w.db, n).0);
        PaidAmounts(w.db, n, p, ApplySettlement(w.db, n).0);
      }
    case EditCatalog(_) =>
    case Dispatch(key, delivery, attempts) =>
  }

  /** Money is conserved over every run, however notices are duplicated, reordered or mispriced. */
  lemma {:induction false} MoneyConserved(w: World, run: seq<Action>)
    requires Good(w.db)
    ensures SettledTotal(AfterAll(w, run).db) == SettledTotal(w.db) + Received(w, run)
    decreases |run|
  {
    hide Good, After, ApplySettlement, SettledTotal;
    if run != [] {
      AfterKeepsGood(w, run[0]);
      AfterAmounts(w, run[0]);
      assert Received(w, [run[0]]) + Received(After(w, run[0]), run[1..]) == Received(w, run);
      MoneyConserved(After(w, run[0]), run[1..]);
    }
  }

  /** No order is ever paid more than its total, and an advance never exceeds its cap. */
  lemma PaymentWithinTotal(db: Db, p: Id)
    requires Good(db) && p in db.payments
    ensures var order, payment := db.orders[db.payments[p].orderId], db.payments[p];
            && Money.TakaToPoisha(order.totalBdt).Ok? && Money.TakaToPoisha(order.capBdt).Ok?
            && 0 <= AmountOf(payment) <= Money.TakaToPoisha(order.totalBdt).value
            && (payment.isAdvance ==> AmountOf(payment) <= Money.TakaToPoisha(order.capBdt).value)
  {
    hide Money.TakaToPoisha, IsTimeline, Notified, ClockFits;
    assert PaymentGood(db, p);
    assert AmountsOrdered(db.orders[db.payments[p].orderId]);
  }
}
