/**
 * The services as they run: methods that read and overwrite tables, one
 * transaction at a time. Each is proved to do what the functions of Settlement
 * and OrderCreation say, error paths and rollback included.
 */
module Services {
  import opened Outcomes
  import opened Tables
  import opened Settlement
  import opened OrderPricing
  import opened OrderCreation
  import opened Consistency
  import opened StoreLemmas
  import Money
  import SettlementRecord

  class Database {
    var users: map<Id, User>
    var orders: map<Id, OrderRow>
    var items: map<Id, seq<ItemRow>>
    var events: map<Id, seq<EventRow>>
    var payments: map<Id, PayRow>
    var outbox: map<Key, OutboxRow>

    constructor (users: map<Id, User>)
      ensures Contents() == EMPTY.(users := users)
    {
      this.users := users;
      orders, items, events, payments, outbox := map[], map[], map[], map[], map[];
    }

    function Contents(): Db
      reads this
    {
      Db(users, orders, items, events, payments, outbox)
    }

    /** ROLLBACK: every table is as it was at BEGIN. */
    method Rollback(saved: Db)
      modifies this
      ensures Contents() == saved
    {
      users, orders, items, events, payments, outbox :=
        saved.users, saved.orders, saved.items, saved.events, saved.payments, saved.outbox;
    }

    // ---- payment repository --------------------------------------------

    method FindByAggregatorRef(r: Ref) returns (found: Option<Id>)
      ensures found.Some? <==> HasRef(Contents(), r)
      ensures found.Some? ==> found.value in payments && payments[found.value].ref == Some(r)
    {
      if p :| p in payments && payments[p].ref == Some(r) { found := Some(p); } else { found := None; }
    }

    method FindPendingForOrder(o: Id) returns (found: Option<Id>)
      ensures found.Some? <==> HasPending(Contents(), o)
      ensures found.Some? ==> found.value in payments && payments[found.value].orderId == o && payments[found.value].status == Pending
    {
      if p :| p in payments && payments[p].orderId == o && payments[p].status == Pending { found := Some(p); } else { found := None; }
    }

    method MarkSettled(id: Id, r: Ref, at: int) returns (result: Result<(), DbError>)
      modifies this`payments
      ensures id in old(payments) && RefOnAnother(old(payments), id, r) ==> result == Err(UniqueViolation) && payments == old(payments)
      ensures id in old(payments) && !RefOnAnother(old(payments), id, r) ==>
                && result == Ok(())
                && payments == old(payments)[id := old(payments)[id].(status := Settled, ref := Some(r), settledAt := Some(at))]
      ensures id !in old(payments) ==> result == Ok(()) && payments == old(payments)
    {
      if id !in payments { return Ok(()); }
      if RefOnAnother(payments, id, r) { return Err(UniqueViolation); }
      payments := payments[id := payments[id].(status := Settled, ref := Some(r), settledAt := Some(at))];
      result := Ok(());
    }

    method MarkFailed(id: Id, r: Ref) returns (result: Result<(), DbError>)
      modifies this`payments
      ensures id in old(payments) && RefOnAnother(old(payments), id, r) ==> result == Err(UniqueViolation) && payments == old(payments)
      ensures id in old(payments) && !RefOnAnother(old(payments), id, r) ==>
                result == Ok(()) && payments == old(payments)[id := old(payments)[id].(status := Failed, ref := Some(r))]
      ensures id !in old(payments) ==> result == Ok(()) && payments == old(payments)
    {
      if id !in payments { return Ok(()); }
      if RefOnAnother(payments, id, r) { return Err(UniqueViolation); }
      payments := payments[id := payments[id].(status := Failed, ref := Some(r))];
      result := Ok(());
    }

    // ---- order repository and adapter ----------------------------------

    /** Append the event, then overwrite the status; the event's foreign key needs the order. */
    method RecordStatusEvent(o: Id, event: EventRow) returns (result: Result<(), DbError>)
      modifies this`events, this`orders
      ensures result == if o in old(orders) then Ok(()) else Err(ForeignKeyViolation)
      ensures o in old(orders) ==> events == old(events)[o := EventsOf(old(events), o) + [event]]
                                   && orders == old(orders)[o := old(orders)[o].(status := event.toStatus)]
      ensures o !in old(orders) ==> events == old(events) && orders == old(orders)
    {
      if o !in orders { return Err(ForeignKeyViolation); }
      events := events[o := EventsOf(events, o) + [event]];
      orders := orders[o := orders[o].(status := event.toStatus)];
      result := Ok(());
    }

    method TransitionStatus(o: Id, to: OrderStatus, noteKey: string) returns (result: Result<(), DbError>)
      modifies this`events, this`orders
      ensures result == if o in old(orders) then Ok(()) else Err(ForeignKeyViolation)
      ensures o in old(orders) ==>
                && events == old(events)[o := EventsOf(old(events), o) + [EventRow(Some(old(orders)[o].status), to, noteKey)]]
                && orders == old(orders)[o := old(orders)[o].(status := to)]
      ensures o !in old(orders) ==> events == old(events) && orders == old(orders)
    {
      var fromStatus := if o in orders then Some(orders[o].status) else None;
      result := RecordStatusEvent(o, EventRow(fromStatus, to, noteKey));
    }

    method StampDeliveryClock(o: Id, paidAt: int, deadlineAt: int)
      modifies this`orders
      ensures orders == if o in old(orders)
                        then old(orders)[o := old(orders)[o].(advancePaidAt := Some(paidAt), deadlineAt := Some(deadlineAt))]
                        else old(orders)
    {
      if o in orders {
        orders := orders[o := orders[o].(advancePaidAt := Some(paidAt), deadlineAt := Some(deadlineAt))];
      }
    }

    /** The row's CHECK, its primary key and its customer's foreign key, in the order the server looks at them. */
    method InsertOrder(o: Id, order: OrderRow, subtotal: int) returns (result: Result<(), CreateError>)
      modifies this`orders
      ensures result == if subtotal < 0 then Err(CheckViolation)
                        else if o in old(orders) then Err(KeyViolation)
                        else if order.customer !in users then Err(UnknownCustomer) else Ok(())
      ensures orders == if result.Ok? then old(orders)[o := order] else old(orders)
    {
      if subtotal < 0 { return Err(CheckViolation); }
      if o in orders { return Err(KeyViolation); }
      if order.customer !in users { return Err(UnknownCustomer); }
      orders := orders[o := order];
      result := Ok(());
    }

    /** Inserts row after row; a quantity past the column's range fails, leaving the rows before it written. */
    method InsertItems(o: Id, rows: seq<ItemRow>) returns (result: Result<(), CreateError>)
      modifies this`items
      ensures result == if forall i :: 0 <= i < |rows| ==> rows[i].quantity <= MAX_INTEGER then Ok(()) else Err(QuantityOutOfRange)
      ensures result.Ok? ==> items == old(items)[o := ItemsOf(old(items), o) + rows] || (rows == [] && items == old(items))
    {
      var i := 0;
      while i < |rows|
        invariant 0 <= i <= |rows|
        invariant forall k :: 0 <= k < i ==> rows[k].quantity <= MAX_INTEGER
        invariant if i == 0 then items == old(items) else items == old(items)[o := ItemsOf(old(items), o) + rows[..i]]
      {
        if rows[i].quantity > MAX_INTEGER { return Err(QuantityOutOfRange); }
        assert ItemsOf(items, o) == ItemsOf(old(items), o) + rows[..i];
        assert rows[..i + 1] == rows[..i] + [rows[i]];
        assert ItemsOf(old(items), o) + rows[..i + 1] == ItemsOf(items, o) + [rows[i]];
        items := items[o := ItemsOf(items, o) + [rows[i]]];
        assert items == old(items)[o := ItemsOf(old(items), o) + rows[..i + 1]];
        i := i + 1;
      }
      assert rows[..|rows|] == rows;
      result := Ok(());
    }

    // ---- notification adapter ------------------------------------------

    /** One row per channel of the event; a key already there is skipped. */
    method Enqueue(request: Request) returns (result: Result<(), DbError>)
      modifies this`outbox
      ensures result == if request.userId in users then Ok(()) else Err(UnknownUser)
      ensures request.userId in users ==> outbox == Enqueued(old(outbox), request, users[request.userId], ChannelsFor(request.event))
      ensures request.userId !in users ==> outbox == old(outbox)
    {
      if request.userId !in users { return Err(UnknownUser); }
      var recipient, channels := users[request.userId], ChannelsFor(request.event);
      var i := 0;
      while i < |channels|
        invariant 0 <= i <= |channels|
        invariant Enqueued(old(outbox), request, recipient, channels) == Enqueued(outbox, request, recipient, channels[i..])
      {
        outbox := InsertNotice(outbox, request.KeyFor(channels[i]), request.RowFor(recipient, channels[i]));
        assert channels[i..][1..] == channels[i + 1..];
        i := i + 1;
      }
      result := Ok(());
    }

    // ---- payment service -----------------------------------------------

    /** findCustomer, then enqueue; an order that is not there is not an error here. */
    method NotifyCustomer(n: Notice, event: Event) returns (result: Result<(), DbError>)
      modifies this`outbox
      ensures result == NotifyResult(old(Contents()), n)
      ensures result.Err? || n.orderId !in orders ==> outbox == old(outbox)
      ensures result.Ok? && n.orderId in orders ==>
                outbox == Enqueued(old(outbox), SettleRequest(n, event, orders[n.orderId].customer),
                                   users[orders[n.orderId].customer], ChannelsFor(event))
    {
      if n.orderId !in orders { return Ok(()); }
      var amount := Money.PoishaToTaka(n.amount);
      if amount.Err? { return Err(BadAmount); }
      result := Enqueue(SettleRequest(n, event, orders[n.orderId].customer));
    }

    /** Everything after the guards, as the service orders it; Err means an exception is on its way out. */
    method Settle(n: Notice, payId: Id, isAdvance: bool) returns (result: Result<SettlementResult, DbError>)
      requires RowFits(Contents(), n, payId, isAdvance) && !RefOnAnother(payments, payId, n.ref)
      modifies this
      ensures var body := RunBody(old(Contents()), n, payId, isAdvance);
              if body.Err? then result == Err(body.error)
              else Contents() == Merge(old(Contents()), n, payId, body.value.w) && result == Ok(Answer(n, isAdvance, body.value.l))
    {
      hide RunBody, Merge, RefOnAnother, Enqueued, Answer;
      ghost var was := Contents();
      var done: Result<(), DbError>;
      if n.outcome == FailedOutcome {
        done := MarkFailed(payId, n.ref);
      } else {
        done := MarkSettled(payId, n.ref, n.occurredAt);
      }
      assert done == Ok(()) && payments == was.payments[payId := Marked(was.payments[payId], n)];
      done := TransitionStatus(n.orderId, TargetStatus(n.outcome), NoteKey(n.outcome));
      if done.Err? {
        NoOrderFails(was, n, payId, isAdvance);
        return Err(done.error);
      }
      done := NotifyCustomer(n, EventFor(n.outcome));
      if done.Err? {
        NoRecipientFails(was, n, payId, isAdvance);
        return Err(done.error);
      }
      EffectKnown(was, n, payId, isAdvance);
      if n.outcome == FailedOutcome || !isAdvance {
        assert !StartsClock(was.orders[n.orderId], n, isAdvance);
        return Ok(Applied(n.orderId, None));
      }
      var order := orders[n.orderId];
      if order.advancePaidAt.Some? {
        assert !StartsClock(was.orders[n.orderId], n, isAdvance);
        return Ok(Applied(n.orderId, None));
      }
      var deadlineAt := DeliveryDeadline(n.occurredAt, order.isSameCity);
      StampDeliveryClock(n.orderId, n.occurredAt, deadlineAt);
      assert StartsClock(was.orders[n.orderId], n, isAdvance);
      return Ok(Applied(n.orderId, Some(deadlineAt)));
    }

    /** applySettlement: on every database whose keys hold, the imperative body is the atomic step, rollback included. */
    method ApplySettlement(n: Notice) returns (answer: SettlementResult)
      requires OnePaymentPerOrder(payments) && RefsUnique(payments)
      modifies this
      ensures (Contents(), answer) == Settlement.ApplySettlement(old(Contents()), n)
      ensures SettlementRecord.Answers(old(Contents()), n, Contents(), answer)
    {
      hide RunBody, Merge, Answer, Money.TakaToPoisha, SettlementRecord.Answers;
      ghost var was := Contents();
      SettlementRecord.AnswersExactly(was, n);
      var existing := FindByAggregatorRef(n.ref);
      if existing.Some? {
        assert existing.value == RowWithRef(was, n.ref);
        return Duplicate(payments[existing.value].orderId);
      }
      var pending := FindPendingForOrder(n.orderId);
      if pending.None? {
        return Rejected("no_pending_transaction");
      }
      assert pending.value == PendingRow(was, n.orderId);
      var row := payments[pending.value];
      var expected := Money.TakaToPoisha(row.amountBdt);
      if expected.Err? {
        return Threw(BadAmount);
      }
      if n.amount != expected.value {
        return Rejected("amount_mismatch");
      }
      var saved := Contents();
      var result := Settle(n, pending.value, row.isAdvance);
      if result.Err? {
        Rollback(saved);
        return Threw(result.error);
      }
      return result.value;
    }

    // ---- order service -------------------------------------------------

    /** createOrder: everything is decided first, then five writes in one transaction. */
    method CreateOrder(cmd: Command, ctx: Context) returns (result: Result<Id, CreateError>)
      requires items.Keys <= orders.Keys
      modifies this
      ensures match OrderCreation.CreateOrder(old(Contents()), cmd, ctx)
              case Ok(db) => result == Ok(ctx.orderId) && Contents() == db
              case Err(e) => result == Err(e) && Contents() == old(Contents())
    {
      hide PriceOrder, ResolveCartLines, CartProblem, Enqueued, Money.PoishaToTaka;
      if cmd.lines == [] { return Err(EmptyOrder); }
      var resolved := ResolveCartLines(ctx.rows, cmd.lines);
      if resolved.Err? { return Err(resolved.error); }
      var lines := resolved.value;
      var problem := AssertCartIsOrderable(lines, cmd.merchantRole);
      if problem.Some? { return Err(problem.value); }
      if !ctx.merchant.isActive { return Err(MerchantUnavailable); }
      if !ctx.merchant.kycVerified { return Err(MerchantNotVerified); }
      if !ctx.merchant.hasPickup { return Err(MerchantWithoutPickup); }
      var priced := PriceOrder(CartLines(lines), cmd.deliveryFee, cmd.requestedAdvance, cmd.paymentMethod, ctx.escrowEnabled);
      if priced.Err? { return Err(Pricing(priced.error)); }
      if !AllPrintable(lines) { return Err(BadPrice); }
      assert Plan(cmd, ctx) == Ok((lines, priced.value));

      assert lines != [] by {
        PricedBasis(CartLines(lines), cmd.deliveryFee, cmd.requestedAdvance, cmd.paymentMethod, ctx.escrowEnabled);
      }
      result := WriteOrder(cmd, ctx, lines, priced.value);
    }

    /** The transaction of createOrder. */
    method WriteOrder(cmd: Command, ctx: Context, lines: seq<ResolvedLine>, p: Priced) returns (result: Result<Id, CreateError>)
      requires items.Keys <= orders.Keys && AllPrintable(lines) && lines != []
      modifies this
      ensures result == if p.subtotal < 0 then Err(CheckViolation)
                        else if ctx.orderId in old(orders) then Err(KeyViolation)
                        else if cmd.customer !in old(users) then Err(UnknownCustomer)
                        else if !QuantitiesFit(lines) then Err(QuantityOutOfRange)
                        else if ctx.payId in old(payments) then Err(KeyViolation)
                        else Ok(ctx.orderId)
      ensures result.Err? ==> Contents() == old(Contents())
      ensures result.Ok? ==>
                Contents() == InsertAll(old(Contents()), ctx.orderId, NewOrder(cmd, ctx.sameCity, p), NewItems(lines), ctx.payId,
                                        PendingPayment(cmd, ctx.orderId, p),
                                        ConfirmationRow(cmd, old(users)[cmd.customer], ctx.orderId, Push),
                                        ConfirmationRow(cmd, old(users)[cmd.customer], ctx.orderId, Sms))
    {
      hide NewItems, Enqueued, AllPrintable, QuantitiesFit, NewOrder, PendingPayment, ConfirmationRow, CreatedRequest, InsertNotice, ChannelsFor, ItemsOf;
      var saved := Contents();
      NewOrderCustomer(cmd, ctx.sameCity, p);
      var inserted := InsertOrder(ctx.orderId, NewOrder(cmd, ctx.sameCity, p), p.subtotal);
      if inserted.Err? { return Err(inserted.error); }
      NewItemsCount(lines);
      var listed := InsertItems(ctx.orderId, NewItems(lines));
      if listed.Err? {
        Rollback(saved);
        return Err(listed.error);
      }
      var recorded := RecordStatusEvent(ctx.orderId, EventRow(None, Created, "order.event.created"));
      if ctx.payId in payments {
        Rollback(saved);
        return Err(KeyViolation);
      }
      payments := payments[ctx.payId := PendingPayment(cmd, ctx.orderId, p)];
      CreatedRequestParts(cmd, ctx.orderId);
      var queued := Enqueue(CreatedRequest(cmd, ctx.orderId));
      CreatedRows(saved.outbox, cmd, ctx.orderId, users[cmd.customer]);
      FreshItems(saved.items, ctx.orderId, NewItems(lines));
      CreatedStatus(saved.orders, ctx.orderId, cmd, ctx.sameCity, p);
      return Ok(ctx.orderId);
    }
  }
}
