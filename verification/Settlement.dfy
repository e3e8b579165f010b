/**
 * Applying a settlement notice. The transaction body is a list of SQL
 * statements; `Exec` is what one statement reads and writes, and `RunPrefix`
 * runs the first k of them against a database, collecting the writes. The
 * serial and the interleaved machines both execute exactly these statements.
 */
module Settlement {
  import opened Outcomes
  import opened Tables
  import Money

  const MS_PER_DAY: int := 24 * 60 * 60 * 1000

  datatype Outcome = SettledOutcome | FailedOutcome

  datatype Notice = Notice(orderId: Id, ref: Ref, amount: int, outcome: Outcome, occurredAt: int)

  datatype DbError = UniqueViolation | ForeignKeyViolation | UnknownUser | BadAmount

  datatype SettlementResult =
    | Applied(orderId: Id, deadlineAt: Option<int>)
    | Duplicate(orderId: Id)
    | Rejected(reason: string)
    | Threw(error: DbError)

  function DeliveryWindowDays(sameCity: bool): int {
    if sameCity then 5 else 10
  }

  function DeliveryDeadline(paidAt: int, sameCity: bool): int {
    paidAt + DeliveryWindowDays(sameCity) * MS_PER_DAY
  }

  function EventFor(o: Outcome): Event {
    if o == SettledOutcome then PaymentReceived else PaymentFailed
  }

  function TargetStatus(o: Outcome): OrderStatus {
    if o == SettledOutcome then Confirmed else AwaitingPayment
  }

  function NoteKey(o: Outcome): string {
    if o == SettledOutcome then "order.event.payment_received" else "order.event.payment_failed"
  }

  // ---- the statements --------------------------------------------------

  datatype Stmt =
    | MarkPayment | ReadStatus | InsertEvent | UpdateStatus
    | ReadCustomer | ReadRecipient | QueueOn(channel: Channel)
    | ReadOrder | StampClock

  /** What the body remembers between statements. */
  datatype Locals = Locals(
    fromStatus: Option<OrderStatus>, customer: Option<Id>, recipient: Option<User>, order: Option<(bool, Option<int>)>)

  const NO_LOCALS: Locals := Locals(None, None, None, None)

  /** What the transaction has written so far: row versions, the appended event, the inserted outbox rows. */
  datatype Writes = Writes(
    payment: Option<PayRow>, event: Option<EventRow>, order: Option<OrderRow>, push: Option<OutboxRow>, sms: Option<OutboxRow>)

  const NOTHING: Writes := Writes(None, None, None, None, None)

  datatype Progress = Progress(w: Writes, l: Locals)

  function Put<K, V>(m: map<K, V>, k: K, v: Option<V>): map<K, V> {
    if v.Some? then m[k := v.value] else m
  }

  function NoticeKey(n: Notice, c: Channel): Key {
    SettleKey(n.ref, EventFor(n.outcome), c)
  }

  /** The database this transaction sees, and leaves behind when it commits. */
  function Merge(db: Db, n: Notice, payId: Id, w: Writes): Db {
    db.(payments := Put(db.payments, payId, w.payment),
        events := if w.event.Some? then db.events[n.orderId := EventsOf(db.events, n.orderId) + [w.event.value]] else db.events,
        orders := Put(db.orders, n.orderId, w.order),
        outbox := Put(Put(db.outbox, NoticeKey(n, Push), w.push), NoticeKey(n, Sms), w.sms))
  }

  function QueueStatements(e: Event): seq<Stmt> {
    seq(|ChannelsFor(e)|, i requires 0 <= i < |ChannelsFor(e)| => QueueOn(ChannelsFor(e)[i]))
  }

  /** The statements after the guards: the clock is touched only by a settled advance. */
  function Program(n: Notice, isAdvance: bool): seq<Stmt> {
    [MarkPayment, ReadStatus, InsertEvent, UpdateStatus, ReadCustomer, ReadRecipient]
    + QueueStatements(EventFor(n.outcome))
    + (if n.outcome == SettledOutcome && isAdvance then [ReadOrder, StampClock] else [])
  }

  function Marked(row: PayRow, n: Notice): PayRow {
    if n.outcome == SettledOutcome
    then row.(status := Settled, ref := Some(n.ref), settledAt := Some(n.occurredAt))
    else row.(status := Failed, ref := Some(n.ref))
  }

  /** UNIQUE (aggregator, aggregator_ref): the reference is on another row. */
  predicate RefOnAnother(payments: map<Id, PayRow>, payId: Id, r: Ref) {
    exists p :: p in payments && p != payId && payments[p].ref == Some(r)
  }

  function Prefix8(s: string): string {
    if |s| <= 8 then s else s[..8]
  }

  function QueuedRow(n: Notice, customer: Id, recipient: User, c: Channel): OutboxRow {
    var amount := match Money.PoishaToTaka(n.amount) case Ok(t) => t case Err(_) => "";
    OutboxRow(customer, recipient.phone, recipient.language, c,
              TemplateKeyFor(EventFor(n.outcome)),
              map["orderRef" := Prefix8(n.orderId), "amount" := amount], n.orderId, Queued, 0)
  }

  /** One statement against the database `db` the transaction sees, with w written so far. */
  function Exec(st: Stmt, db: Db, n: Notice, payId: Id, w: Writes, l: Locals): Result<Progress, DbError> {
    match st
    case MarkPayment =>
      if payId !in db.payments then Ok(Progress(w, l))
      else if RefOnAnother(db.payments, payId, n.ref) then Err(UniqueViolation)
      else Ok(Progress(w.(payment := Some(Marked(db.payments[payId], n))), l))
    case ReadStatus =>
      Ok(Progress(w, l.(fromStatus := if n.orderId in db.orders then Some(db.orders[n.orderId].status) else None)))
    case InsertEvent =>
      if n.orderId !in db.orders then Err(ForeignKeyViolation)
      else Ok(Progress(w.(event := Some(EventRow(l.fromStatus, TargetStatus(n.outcome), NoteKey(n.outcome)))), l))
    case UpdateStatus =>
      if n.orderId !in db.orders then Ok(Progress(w, l))
      else Ok(Progress(w.(order := Some(db.orders[n.orderId].(status := TargetStatus(n.outcome)))), l))
    case ReadCustomer =>
      Ok(Progress(w, l.(customer := if n.orderId in db.orders then Some(db.orders[n.orderId].customer) else None)))
    case ReadRecipient =>
      if l.customer.None? then Ok(Progress(w, l))
      else if Money.PoishaToTaka(n.amount).Err? then Err(BadAmount)
      else if l.customer.value !in db.users then Err(UnknownUser)
      else Ok(Progress(w, l.(recipient := Some(db.users[l.customer.value]))))
    case QueueOn(c) =>
      if l.customer.None? || l.recipient.None? || NoticeKey(n, c) in db.outbox then Ok(Progress(w, l))
      else if c == Push then Ok(Progress(w.(push := Some(QueuedRow(n, l.customer.value, l.recipient.value, c))), l))
      else Ok(Progress(w.(sms := Some(QueuedRow(n, l.customer.value, l.recipient.value, c))), l))
    case ReadOrder =>
      var order := if n.orderId in db.orders
                   then Some((db.orders[n.orderId].isSameCity, db.orders[n.orderId].advancePaidAt)) else None;
      Ok(Progress(w, l.(order := order)))
    case StampClock =>
      if l.order.None? || l.order.value.1.Some? || n.orderId !in db.orders then Ok(Progress(w, l))
      else
        Ok(Progress(w.(order := Some(db.orders[n.orderId].(
          advancePaidAt := Some(n.occurredAt), deadlineAt := Some(DeliveryDeadline(n.occurredAt, l.order.value.0))))), l))
  }

  /** The first k statements, run as one transaction on db. */
  function RunPrefix(db: Db, n: Notice, payId: Id, isAdvance: bool, k: nat): Result<Progress, DbError>
    requires k <= |Program(n, isAdvance)|
  {
    if k == 0 then Ok(Progress(NOTHING, NO_LOCALS))
    else match RunPrefix(db, n, payId, isAdvance, k - 1)
      case Err(e) => Err(e)
      case Ok(before) =>
        Exec(Program(n, isAdvance)[k - 1], Merge(db, n, payId, before.w), n, payId, before.w, before.l)
  }

  function RunBody(db: Db, n: Notice, payId: Id, isAdvance: bool): Result<Progress, DbError> {
    RunPrefix(db, n, payId, isAdvance, |Program(n, isAdvance)|)
  }

  /** What the service answers once the body has run. */
  function Answer(n: Notice, isAdvance: bool, l: Locals): SettlementResult {
    if n.outcome == FailedOutcome || !isAdvance then Applied(n.orderId, None)
    else if l.order.None? then Rejected("order_not_found")
    else if l.order.value.1.Some? then Applied(n.orderId, None)
    else Applied(n.orderId, Some(DeliveryDeadline(n.occurredAt, l.order.value.0)))
  }

  // ---- the whole transaction -------------------------------------------

  ghost predicate HasRef(db: Db, r: Ref) {
    exists p :: p in db.payments && db.payments[p].ref == Some(r)
  }

  ghost function RowWithRef(db: Db, r: Ref): (p: Id)
    requires HasRef(db, r)
    ensures p in db.payments && db.payments[p].ref == Some(r)
  {
    var p :| p in db.payments && db.payments[p].ref == Some(r);
    p
  }

  ghost predicate HasPending(db: Db, o: Id) {
    exists p :: p in db.payments && db.payments[p].orderId == o && db.payments[p].status == Pending
  }

  ghost function PendingRow(db: Db, o: Id): (p: Id)
    requires HasPending(db, o)
    ensures p in db.payments && db.payments[p].orderId == o && db.payments[p].status == Pending
  {
    var p :| p in db.payments && db.payments[p].orderId == o && db.payments[p].status == Pending;
    p
  }

  /** applySettlement as one atomic step: the new database and the answer. */
  ghost function ApplySettlement(db: Db, n: Notice): (Db, SettlementResult) {
    if HasRef(db, n.ref) then (db, Duplicate(db.payments[RowWithRef(db, n.ref)].orderId))
    else if !HasPending(db, n.orderId) then (db, Rejected("no_pending_transaction"))
    else
      var payId := PendingRow(db, n.orderId);
      var row := db.payments[payId];
      match Money.TakaToPoisha(row.amountBdt)
      case Err(_) => (db, Threw(BadAmount))
      case Ok(expected) =>
        if n.amount != expected then (db, Rejected("amount_mismatch"))
        else match RunBody(db, n, payId, row.isAdvance)
          case Err(e) => (db, Threw(e))
          case Ok(done) => (Merge(db, n, payId, done.w), Answer(n, row.isAdvance, done.l))
  }

  // ---- what the body does ----------------------------------------------

  /** The payment row a body runs on: the notice's order, and its kind. */
  predicate RowFits(db: Db, n: Notice, payId: Id, isAdvance: bool) {
    && payId in db.payments
    && db.payments[payId].orderId == n.orderId
    && db.payments[payId].isAdvance == isAdvance
  }

  predicate StartsClock(order: OrderRow, n: Notice, isAdvance: bool) {
    n.outcome == SettledOutcome && isAdvance && order.advancePaidAt.None?
  }

  function Moved(order: OrderRow, n: Notice, isAdvance: bool): OrderRow {
    var moved := order.(status := TargetStatus(n.outcome));
    if StartsClock(order, n, isAdvance)
    then moved.(advancePaidAt := Some(n.occurredAt), deadlineAt := Some(DeliveryDeadline(n.occurredAt, order.isSameCity)))
    else moved
  }

  /** The deadline a settlement stamps, if it stamps one. */
  function NewDeadline(order: OrderRow, n: Notice, isAdvance: bool): Option<int> {
    if StartsClock(order, n, isAdvance) then Some(DeliveryDeadline(n.occurredAt, order.isSameCity)) else None
  }

  /** The outbox row of one channel: added exactly when its key is not there yet. */
  predicate AddsNotice(db: Db, n: Notice, c: Channel, added: Option<OutboxRow>)
    requires n.orderId in db.orders
  {
    var customer := db.orders[n.orderId].customer;
    && (added.Some? <==> NoticeKey(n, c) !in db.outbox)
    && (added.Some? ==> customer in db.users && added.value == QueuedRow(n, customer, db.users[customer], c))
  }

  predicate IsEffect(db: Db, n: Notice, payId: Id, isAdvance: bool, w: Writes)
    requires n.orderId in db.orders && payId in db.payments
  {
    var order := db.orders[n.orderId];
    && w.payment == Some(Marked(db.payments[payId], n))
    && w.order == Some(Moved(order, n, isAdvance))
    && w.event == Some(EventRow(Some(order.status), TargetStatus(n.outcome), NoteKey(n.outcome)))
    && AddsNotice(db, n, Push, w.push) && AddsNotice(db, n, Sms, w.sms)
  }

  lemma ProgramShape(n: Notice, isAdvance: bool)
    ensures Program(n, isAdvance) ==
            [MarkPayment, ReadStatus, InsertEvent, UpdateStatus, ReadCustomer, ReadRecipient, QueueOn(Push), QueueOn(Sms)]
            + if n.outcome == SettledOutcome && isAdvance then [ReadOrder, StampClock] else []
  {
    assert ChannelsFor(EventFor(n.outcome)) == [Push, Sms];
    assert QueueStatements(EventFor(n.outcome)) == [QueueOn(Push), QueueOn(Sms)];
  }

  lemma OneStep(db: Db, n: Notice, payId: Id, isAdvance: bool, k: nat, st: Stmt, w: Writes, l: Locals)
    requires k < |Program(n, isAdvance)| && Program(n, isAdvance)[k] == st
    requires RunPrefix(db, n, payId, isAdvance, k) == Ok(Progress(w, l))
    ensures RunPrefix(db, n, payId, isAdvance, k + 1) == Exec(st, Merge(db, n, payId, w), n, payId, w, l)
  {
  }

  /** Statements 1-4: the payment row is marked, the event appended, the order moved. */
  lemma TransitionPart(db: Db, n: Notice, payId: Id, isAdvance: bool)
    requires payId in db.payments && n.orderId in db.orders && !RefOnAnother(db.payments, payId, n.ref)
    ensures |Program(n, isAdvance)| >= 8
    ensures var order := db.orders[n.orderId];
            RunPrefix(db, n, payId, isAdvance, 4) == Ok(Progress(
              Writes(Some(Marked(db.payments[payId], n)),
                     Some(EventRow(Some(order.status), TargetStatus(n.outcome), NoteKey(n.outcome))),
                     Some(order.(status := TargetStatus(n.outcome))), None, None),
              NO_LOCALS.(fromStatus := Some(order.status))))
  {
    hide RefOnAnother, Program, Marked;
    ProgramShape(n, isAdvance);
    var order := db.orders[n.orderId];
    OneStep(db, n, payId, isAdvance, 0, MarkPayment, NOTHING, NO_LOCALS);
    var w1 := NOTHING.(payment := Some(Marked(db.payments[payId], n)));
    OneStep(db, n, payId, isAdvance, 1, ReadStatus, w1, NO_LOCALS);
    var l := NO_LOCALS.(fromStatus := Some(order.status));
    OneStep(db, n, payId, isAdvance, 2, InsertEvent, w1, l);
    var w3 := w1.(event := Some(EventRow(Some(order.status), TargetStatus(n.outcome), NoteKey(n.outcome))));
    OneStep(db, n, payId, isAdvance, 3, UpdateStatus, w3, l);
  }

  /** Statements 5-6: the customer and the recipient are looked up. */
  lemma RecipientPart(db: Db, n: Notice, payId: Id, isAdvance: bool, w: Writes, l: Locals)
    requires |Program(n, isAdvance)| >= 8 && RunPrefix(db, n, payId, isAdvance, 4) == Ok(Progress(w, l))
    requires n.orderId in db.orders && w.order.Some? && w.order.value.customer == db.orders[n.orderId].customer
    requires db.orders[n.orderId].customer in db.users && Money.PoishaToTaka(n.amount).Ok?
    ensures var customer := db.orders[n.orderId].customer;
            RunPrefix(db, n, payId, isAdvance, 6)
            == Ok(Progress(w, l.(customer := Some(customer), recipient := Some(db.users[customer]))))
  {
    ProgramShape(n, isAdvance);
    var customer := db.orders[n.orderId].customer;
    OneStep(db, n, payId, isAdvance, 4, ReadCustomer, w, l);
    OneStep(db, n, payId, isAdvance, 5, ReadRecipient, w, l.(customer := Some(customer)));
  }

  /** Statements 7-8: one outbox row per channel is queued, unless its key is there. */
  lemma QueuePart(db: Db, n: Notice, payId: Id, isAdvance: bool, w: Writes, l: Locals)
    requires |Program(n, isAdvance)| >= 8 && RunPrefix(db, n, payId, isAdvance, 6) == Ok(Progress(w, l))
    requires l.customer.Some? && l.recipient.Some? && w.push == w.sms == None
    ensures RunPrefix(db, n, payId, isAdvance, 8) == Ok(Progress(w.(
              push := if NoticeKey(n, Push) in db.outbox then None else Some(QueuedRow(n, l.customer.value, l.recipient.value, Push)),
              sms := if NoticeKey(n, Sms) in db.outbox then None else Some(QueuedRow(n, l.customer.value, l.recipient.value, Sms))), l))
  {
    hide QueuedRow, Program;
    ProgramShape(n, isAdvance);
    OneStep(db, n, payId, isAdvance, 6, QueueOn(Push), w, l);
    var w7 := w.(push := if NoticeKey(n, Push) in db.outbox then None else Some(QueuedRow(n, l.customer.value, l.recipient.value, Push)));
    assert NoticeKey(n, Sms) in Merge(db, n, payId, w7).outbox <==> NoticeKey(n, Sms) in db.outbox;
    OneStep(db, n, payId, isAdvance, 7, QueueOn(Sms), w7, l);
  }

  /** Statements 9-10, for a settled advance: the clock is stamped unless it already runs. */
  lemma ClockPart(db: Db, n: Notice, payId: Id, w: Writes, l: Locals)
    requires n.outcome == SettledOutcome && |Program(n, true)| == 10
    requires RunPrefix(db, n, payId, true, 8) == Ok(Progress(w, l))
    requires n.orderId in db.orders && w.order == Some(db.orders[n.orderId].(status := Confirmed))
    ensures RunBody(db, n, payId, true) == Ok(Progress(
              w.(order := Some(Moved(db.orders[n.orderId], n, true))),
              l.(order := Some((db.orders[n.orderId].isSameCity, db.orders[n.orderId].advancePaidAt)))))
  {
    ProgramShape(n, true);
    var order := db.orders[n.orderId];
    OneStep(db, n, payId, true, 8, ReadOrder, w, l);
    OneStep(db, n, payId, true, 9, StampClock, w, l.(order := Some((order.isSameCity, order.advancePaidAt))));
  }

  /** The first eight statements together, on a fitting row. */
  lemma CommonPart(db: Db, n: Notice, payId: Id, isAdvance: bool)
    requires RowFits(db, n, payId, isAdvance) && n.orderId in db.orders && db.orders[n.orderId].customer in db.users
    requires !RefOnAnother(db.payments, payId, n.ref) && Money.PoishaToTaka(n.amount).Ok?
    ensures |Program(n, isAdvance)| >= 8
    ensures RunPrefix(db, n, payId, isAdvance, 8).Ok?
    ensures var done := RunPrefix(db, n, payId, isAdvance, 8).value;
            && IsEffect(db, n, payId, isAdvance, done.w.(order := Some(Moved(db.orders[n.orderId], n, isAdvance))))
            && done.w.order == Some(db.orders[n.orderId].(status := TargetStatus(n.outcome)))
  {
    hide QueuedRow, RunPrefix, Program;
    ProgramShape(n, isAdvance);
    TransitionPart(db, n, payId, isAdvance);
    var four := RunPrefix(db, n, payId, isAdvance, 4).value;
    RecipientPart(db, n, payId, isAdvance, four.w, four.l);
    var six := RunPrefix(db, n, payId, isAdvance, 6).value;
    QueuePart(db, n, payId, isAdvance, six.w, six.l);
  }

  /**
   * The whole body on a fitting row: exactly one payment row, one order row
   * and one appended event change, the missing outbox rows are added, and the
   * answer reports the stamped deadline.
   */
  lemma BodyEffect(db: Db, n: Notice, payId: Id, isAdvance: bool)
    requires RowFits(db, n, payId, isAdvance) && n.orderId in db.orders && db.orders[n.orderId].customer in db.users
    requires !RefOnAnother(db.payments, payId, n.ref) && Money.PoishaToTaka(n.amount).Ok?
    ensures RunBody(db, n, payId, isAdvance).Ok?
    ensures var done := RunBody(db, n, payId, isAdvance).value;
            && IsEffect(db, n, payId, isAdvance, done.w)
            && Answer(n, isAdvance, done.l) == Applied(n.orderId, NewDeadline(db.orders[n.orderId], n, isAdvance))
  {
    hide RunPrefix, Program, AddsNotice, RowFits;
    ProgramShape(n, isAdvance);
    CommonPart(db, n, payId, isAdvance);
    var order := db.orders[n.orderId];
    var eight := RunPrefix(db, n, payId, isAdvance, 8).value;
    if n.outcome == SettledOutcome && isAdvance {
      ClockPart(db, n, payId, eight.w, eight.l);
    } else {
      assert |Program(n, isAdvance)| == 8;
      assert RunBody(db, n, payId, isAdvance) == Ok(eight);
      assert Moved(order, n, isAdvance) == order.(status := TargetStatus(n.outcome));
    }
  }
}
