/** What the notification adapter is asked for, and how the imperative steps line up with the statement list. */
module StoreLemmas {
  import opened Outcomes
  import opened Tables
  import opened Settlement
  import opened OrderCreation
  import Money
  import OrderPricing

  /** The dedupe key of a request, before it is scoped by channel. */
  datatype Base = SettleBase(ref: Ref) | CreatedBase

  datatype Request = Request(userId: Id, event: Event, params: map<string, string>, orderId: Id, base: Base) {
    function KeyFor(c: Channel): Key {
      match base
      case SettleBase(r) => SettleKey(r, event, c)
      case CreatedBase => CreatedKey(orderId, c)
    }

    function RowFor(recipient: User, c: Channel): OutboxRow {
      OutboxRow(userId, recipient.phone, recipient.language, c, TemplateKeyFor(event), params, orderId, Queued, 0)
    }
  }

  function Enqueued(outbox: map<Key, OutboxRow>, request: Request, recipient: User, channels: seq<Channel>): map<Key, OutboxRow>
    decreases |channels|
  {
    if channels == [] then outbox
    else Enqueued(InsertNotice(outbox, request.KeyFor(channels[0]), request.RowFor(recipient, channels[0])),
                  request, recipient, channels[1..])
  }

  function ItemsOf(items: map<Id, seq<ItemRow>>, o: Id): seq<ItemRow> {
    if o in items then items[o] else []
  }

  function SettleRequest(n: Notice, event: Event, customer: Id): Request {
    var amount := match Money.PoishaToTaka(n.amount) case Ok(t) => t case Err(_) => "";
    Request(customer, event, map["orderRef" := Prefix8(n.orderId), "amount" := amount], n.orderId, SettleBase(n.ref))
  }

  function CreatedRequest(cmd: Command, orderId: Id): Request {
    Request(cmd.customer, OrderConfirmed, map["orderRef" := Prefix8(orderId)], orderId, CreatedBase)
  }

  function NotifyResult(db: Db, n: Notice): Result<(), DbError> {
    if n.orderId !in db.orders then Ok(())
    else if Money.PoishaToTaka(n.amount).Err? then Err(BadAmount)
    else if db.orders[n.orderId].customer !in db.users then Err(UnknownUser)
    else Ok(())
  }

  lemma TwoRows(outbox: map<Key, OutboxRow>, request: Request, recipient: User)
    requires request.event != Otp
    ensures Enqueued(outbox, request, recipient, ChannelsFor(request.event))
            == InsertNotice(InsertNotice(outbox, request.KeyFor(Push), request.RowFor(recipient, Push)),
                            request.KeyFor(Sms), request.RowFor(recipient, Sms))
  {
    hide InsertNotice;
    assert ChannelsFor(request.event) == [Push, Sms];
    assert [Push, Sms][1..] == [Sms] && [Sms][1..] == [];
    var one := InsertNotice(outbox, request.KeyFor(Push), request.RowFor(recipient, Push));
    assert Enqueued(one, request, recipient, [Sms])
           == Enqueued(InsertNotice(one, request.KeyFor(Sms), request.RowFor(recipient, Sms)), request, recipient, []);
  }

  lemma CreatedRows(outbox: map<Key, OutboxRow>, cmd: Command, orderId: Id, user: User)
    ensures Enqueued(outbox, CreatedRequest(cmd, orderId), user, ChannelsFor(OrderConfirmed))
            == InsertNotice(InsertNotice(outbox, CreatedKey(orderId, Push), ConfirmationRow(cmd, user, orderId, Push)),
                            CreatedKey(orderId, Sms), ConfirmationRow(cmd, user, orderId, Sms))
  {
    hide InsertNotice;
    TwoRows(outbox, CreatedRequest(cmd, orderId), user);
  }

  lemma NewOrderCustomer(cmd: Command, sameCity: bool, p: OrderPricing.Priced)
    ensures NewOrder(cmd, sameCity, p).customer == cmd.customer
  {
  }

  lemma CreatedRequestParts(cmd: Command, orderId: Id)
    ensures CreatedRequest(cmd, orderId).userId == cmd.customer && CreatedRequest(cmd, orderId).event == OrderConfirmed
  {
  }

  /** Recording the first event writes the status the new row already has. */
  lemma CreatedStatus(orders: map<Id, OrderRow>, o: Id, cmd: Command, sameCity: bool, p: OrderPricing.Priced)
    ensures var order := NewOrder(cmd, sameCity, p);
            orders[o := order][o := order.(status := Created)] == orders[o := order]
  {
  }

  lemma FreshItems(items: map<Id, seq<ItemRow>>, o: Id, rows: seq<ItemRow>)
    requires o !in items
    ensures items[o := ItemsOf(items, o) + rows] == items[o := rows]
  {
    assert [] + rows == rows;
  }

  lemma NewItemsCount(lines: seq<ResolvedLine>)
    requires AllPrintable(lines)
    ensures |NewItems(lines)| == |lines|
    ensures (forall i :: 0 <= i < |NewItems(lines)| ==> NewItems(lines)[i].quantity <= MAX_INTEGER) <==> QuantitiesFit(lines)
  {
    hide Money.PoishaToTaka;
    assert forall i :: 0 <= i < |lines| ==> NewItems(lines)[i].quantity == lines[i].quantity;
  }

  // ---- the body's outcome, case by case --------------------------------

  lemma {:induction false} ErrStays(db: Db, n: Notice, payId: Id, isAdvance: bool, k: nat, m: nat)
    requires k <= m <= |Program(n, isAdvance)| && RunPrefix(db, n, payId, isAdvance, k).Err?
    ensures RunPrefix(db, n, payId, isAdvance, m) == RunPrefix(db, n, payId, isAdvance, k)
    decreases m
  {
    if k < m { ErrStays(db, n, payId, isAdvance, k, m - 1); }
  }

  /** Without its order, the event's foreign key stops the body. */
  lemma NoOrderFails(db: Db, n: Notice, payId: Id, isAdvance: bool)
    requires payId in db.payments && !RefOnAnother(db.payments, payId, n.ref) && n.orderId !in db.orders
    ensures RunBody(db, n, payId, isAdvance) == Err(ForeignKeyViolation)
  {
    hide RefOnAnother, Program, Marked;
    ProgramShape(n, isAdvance);
    OneStep(db, n, payId, isAdvance, 0, MarkPayment, NOTHING, NO_LOCALS);
    var w := NOTHING.(payment := Some(Marked(db.payments[payId], n)));
    OneStep(db, n, payId, isAdvance, 1, ReadStatus, w, NO_LOCALS);
    OneStep(db, n, payId, isAdvance, 2, InsertEvent, w, NO_LOCALS);
    ErrStays(db, n, payId, isAdvance, 3, |Program(n, isAdvance)|);
  }

  /** Neither does it survive a recipient it cannot address, or an amount it cannot print. */
  lemma NoRecipientFails(db: Db, n: Notice, payId: Id, isAdvance: bool)
    requires payId in db.payments && !RefOnAnother(db.payments, payId, n.ref)
    requires n.orderId in db.orders && NotifyResult(db, n).Err?
    ensures RunBody(db, n, payId, isAdvance) == Err(NotifyResult(db, n).error)
  {
    hide RefOnAnother, Program, Marked, Money.PoishaToTaka;
    ProgramShape(n, isAdvance);
    TransitionPart(db, n, payId, isAdvance);
    var four := RunPrefix(db, n, payId, isAdvance, 4).value;
    OneStep(db, n, payId, isAdvance, 4, ReadCustomer, four.w, four.l);
    OneStep(db, n, payId, isAdvance, 5, ReadRecipient, four.w, four.l.(customer := Some(db.orders[n.orderId].customer)));
    ErrStays(db, n, payId, isAdvance, 6, |Program(n, isAdvance)|);
  }

  /** Otherwise it leaves exactly these tables. */
  lemma EffectKnown(db: Db, n: Notice, payId: Id, isAdvance: bool)
    requires RowFits(db, n, payId, isAdvance) && !RefOnAnother(db.payments, payId, n.ref)
    requires n.orderId in db.orders && NotifyResult(db, n).Ok?
    ensures RunBody(db, n, payId, isAdvance).Ok?
    ensures var order := db.orders[n.orderId];
            var body := RunBody(db, n, payId, isAdvance).value;
            && db.orders[n.orderId].customer in db.users
            && Merge(db, n, payId, body.w) == db.(
                 payments := db.payments[payId := Marked(db.payments[payId], n)],
                 events := db.events[n.orderId := EventsOf(db.events, n.orderId)
                             + [EventRow(Some(order.status), TargetStatus(n.outcome), NoteKey(n.outcome))]],
                 orders := db.orders[n.orderId := Moved(order, n, isAdvance)],
                 outbox := Enqueued(db.outbox, SettleRequest(n, EventFor(n.outcome), order.customer), db.users[order.customer],
                                    ChannelsFor(EventFor(n.outcome))))
            && Answer(n, isAdvance, body.l) == Applied(n.orderId, NewDeadline(order, n, isAdvance))
  {
    hide RunBody, RefOnAnother, Money.PoishaToTaka, Enqueued, ChannelsFor, Moved, Marked, Answer, NewDeadline;
    BodyEffect(db, n, payId, isAdvance);
    var w := RunBody(db, n, payId, isAdvance).value.w;
    var customer := db.orders[n.orderId].customer;
    OutboxKnown(db, n, w, customer);
  }

  lemma OutboxKnown(db: Db, n: Notice, w: Writes, customer: Id)
    requires n.orderId in db.orders && customer == db.orders[n.orderId].customer && customer in db.users
    requires AddsNotice(db, n, Push, w.push) && AddsNotice(db, n, Sms, w.sms)
    ensures Put(Put(db.outbox, NoticeKey(n, Push), w.push), NoticeKey(n, Sms), w.sms)
            == Enqueued(db.outbox, SettleRequest(n, EventFor(n.outcome), customer), db.users[customer], ChannelsFor(EventFor(n.outcome)))
  {
    hide Money.PoishaToTaka, Enqueued, ChannelsFor;
    TwoRows(db.outbox, SettleRequest(n, EventFor(n.outcome), customer), db.users[customer]);
  }
}
