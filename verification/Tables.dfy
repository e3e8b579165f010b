/**
 * The tables the order, payment and notification modules own, and the dedupe
 * keys that tie an outbox row to the change that caused it.
 */
module Tables {
  import opened Outcomes
  import OrderPricing

  type Id = string
  type Method = OrderPricing.Method

  datatype OrderStatus =
    | Created | AwaitingPayment | Confirmed | Preparing | ReadyForPickup
    | InTransit | Delivered | Cancelled | RefundRequested | Refunded

  datatype PayStatus = Pending | Authorized | Settled | Failed | PaymentRefunded

  datatype Aggregator = Sslcommerz | Shurjopay | BkashGateway | NagadGateway

  /** (aggregator, aggregator_ref): the idempotency key of a webhook. */
  datatype Ref = Ref(aggregator: Aggregator, ref: string)

  datatype User = User(phone: string, language: string)

  datatype OrderRow = OrderRow(
    customer: Id, merchantRole: Id, location: Id, status: OrderStatus, paymentMethod: Method,
    subtotalBdt: string, feeBdt: string, totalBdt: string, advanceBdt: string, capBdt: string,
    isEscrow: bool, allItemsReady: bool, isSameCity: bool,
    advancePaidAt: Option<int>, deadlineAt: Option<int>)

  datatype ItemRow = ItemRow(listingId: Id, quantity: int, unitPriceBdt: string, readyToShip: bool)

  datatype EventRow = EventRow(fromStatus: Option<OrderStatus>, toStatus: OrderStatus, noteKey: string)

  datatype PayRow = PayRow(
    orderId: Id, paymentMethod: Method, amountBdt: string, status: PayStatus,
    ref: Option<Ref>, isAdvance: bool, settledAt: Option<int>)

  datatype Channel = Push | Sms

  datatype Event = Otp | OrderConfirmed | PaymentReceived | PaymentFailed | OutForDelivery | DeliveredEvent

  datatype Delivery = Queued | Sent | Abandoned

  datatype OutboxRow = OutboxRow(
    userId: Id, phone: string, language: string, channel: Channel, templateKey: string,
    params: map<string, string>, orderId: Id, delivery: Delivery, attempts: nat)

  /**
   * What a dedupe_key says. The column holds KeyText of it; KeyTextDecodes and
   * TextTableInsert show that a table keyed by the texts is the same table.
   */
  datatype Key =
    | SettleKey(ref: Ref, event: Event, channel: Channel)
    | CreatedKey(order: Id, channel: Channel)

  /** One row per primary key; items and events are kept per order, oldest first; outbox by dedupe key. */
  datatype Db = Db(
    users: map<Id, User>, orders: map<Id, OrderRow>, items: map<Id, seq<ItemRow>>, events: map<Id, seq<EventRow>>,
    payments: map<Id, PayRow>, outbox: map<Key, OutboxRow>)

  function EventsOf(events: map<Id, seq<EventRow>>, o: Id): seq<EventRow> {
    if o in events then events[o] else []
  }

  // ---- notification policy ---------------------------------------------

  predicate UsesPush(e: Event) {
    e != Otp
  }

  predicate UsesSms(e: Event) {
    true
  }

  function ChannelsFor(e: Event): seq<Channel> {
    (if UsesPush(e) then [Push] else []) + (if UsesSms(e) then [Sms] else [])
  }

  function TemplateKeyFor(e: Event): string {
    match e
    case Otp => "notification.otp"
    case OrderConfirmed => "notification.order.confirmed"
    case PaymentReceived => "notification.payment.received"
    case PaymentFailed => "notification.payment.failed"
    case OutForDelivery => "notification.delivery.out_for_delivery"
    case DeliveredEvent => "notification.delivery.delivered"
  }

  // ---- dedupe keys -----------------------------------------------------

  function AggregatorText(a: Aggregator): string {
    match a
    case Sslcommerz => "sslcommerz"
    case Shurjopay => "shurjopay"
    case BkashGateway => "bkash"
    case NagadGateway => "nagad"
  }

  function EventText(e: Event): string {
    match e
    case Otp => "otp"
    case OrderConfirmed => "order_confirmed"
    case PaymentReceived => "payment_received"
    case PaymentFailed => "payment_failed"
    case OutForDelivery => "out_for_delivery"
    case DeliveredEvent => "delivered"
  }

  function ChannelText(c: Channel): string {
    match c
    case Push => "push"
    case Sms => "sms"
  }

  function SettleBase(r: Ref, e: Event): string {
    "settle:" + AggregatorText(r.aggregator) + ":" + r.ref + ":" + EventText(e)
  }

  function CreatedBase(o: Id): string {
    "order-created:" + o
  }

  /** The base key the caller composes, scoped by channel. */
  function KeyText(k: Key): string {
    match k
    case SettleKey(r, e, c) => SettleBase(r, e) + ":" + ChannelText(c)
    case CreatedKey(o, c) => CreatedBase(o) + ":" + ChannelText(c)
  }

  predicate ColonFree(s: string) {
    ':' !in s
  }

  function FirstColon(s: string): (i: nat)
    ensures i <= |s|
  {
    if s == [] || s[0] == ':' then 0 else 1 + FirstColon(s[1..])
  }

  function LastColon(s: string): (i: int)
    ensures -1 <= i < |s|
  {
    if s == [] || s[|s| - 1] == ':' then |s| - 1 else LastColon(s[..|s| - 1])
  }

  lemma {:induction false} FirstColonAt(a: string, x: string)
    requires ColonFree(a)
    ensures FirstColon(a + ":" + x) == |a|
  {
    if a != [] {
      FirstColonAt(a[1..], x);
      assert (a + ":" + x)[1..] == a[1..] + ":" + x;
    }
  }

  lemma {:induction false} LastColonAt(x: string, a: string)
    requires ColonFree(a)
    ensures LastColon(x + ":" + a) == |x|
  {
    var s := x + ":" + a;
    if a != [] {
      LastColonAt(x, a[..|a| - 1]);
      assert s[..|s| - 1] == x + ":" + a[..|a| - 1];
      assert s[|s| - 1] == a[|a| - 1];
    }
  }

  /** The first colon splits a string whose left part has none. */
  lemma SplitFirst(a: string, x: string, b: string, y: string)
    requires ColonFree(a) && ColonFree(b) && a + ":" + x == b + ":" + y
    ensures a == b && x == y
  {
    FirstColonAt(a, x);
    FirstColonAt(b, y);
    assert a == (a + ":" + x)[..|a|] && b == (b + ":" + y)[..|a|];
    assert x == (a + ":" + x)[|a| + 1..] && y == (b + ":" + y)[|a| + 1..];
  }

  /** The last colon splits a string whose right part has none. */
  lemma SplitLast(x: string, a: string, y: string, b: string)
    requires ColonFree(a) && ColonFree(b) && x + ":" + a == y + ":" + b
    ensures x == y && a == b
  {
    LastColonAt(x, a);
    LastColonAt(y, b);
    assert x == (x + ":" + a)[..|x|] && y == (y + ":" + b)[..|x|];
    assert a == (x + ":" + a)[|x| + 1..] && b == (y + ":" + b)[|x| + 1..];
  }

  lemma TextsInjective(a: Aggregator, b: Aggregator, e: Event, f: Event, c: Channel, d: Channel)
    ensures ColonFree(AggregatorText(a)) && ColonFree(EventText(e)) && ColonFree(ChannelText(c))
    ensures AggregatorText(a) == AggregatorText(b) ==> a == b
    ensures EventText(e) == EventText(f) ==> e == f
    ensures ChannelText(c) == ChannelText(d) ==> c == d
  {
    assert |EventText(Otp)| == 3 && |EventText(OrderConfirmed)| == 15 && |EventText(PaymentReceived)| == 16;
    assert |EventText(PaymentFailed)| == 14 && EventText(OutForDelivery)[0] == 'o' && EventText(DeliveredEvent)[0] == 'd';
    assert EventText(OutForDelivery)[1] == 'u' && EventText(OrderConfirmed)[1] == 'r' && |EventText(OutForDelivery)| == 16;
    assert EventText(PaymentReceived)[0] == 'p';
    assert AggregatorText(Sslcommerz)[1] == 's' && AggregatorText(Shurjopay)[1] == 'h' && AggregatorText(BkashGateway)[0] == 'b';
    assert AggregatorText(NagadGateway)[0] == 'n' && AggregatorText(Sslcommerz)[0] == 's' && AggregatorText(Shurjopay)[0] == 's';
    assert |ChannelText(Push)| == 4 && |ChannelText(Sms)| == 3;
  }

  /** Without channel and event, what is left of a settlement key decodes too. */
  lemma RefTextDecodes(a: Aggregator, x: string, b: Aggregator, y: string)
    requires "settle:" + AggregatorText(a) + ":" + x == "settle:" + AggregatorText(b) + ":" + y
    ensures a == b && x == y
  {
    TextsInjective(a, b, Otp, Otp, Sms, Sms);
    TextsInjective(b, a, Otp, Otp, Sms, Sms);
    var s, t := "settle:" + AggregatorText(a) + ":" + x, "settle:" + AggregatorText(b) + ":" + y;
    assert s[7..] == AggregatorText(a) + ":" + x && t[7..] == AggregatorText(b) + ":" + y;
    SplitFirst(AggregatorText(a), x, AggregatorText(b), y);
  }

  lemma BaseDecodes(r: Ref, e: Event, r': Ref, e': Event)
    requires SettleBase(r, e) == SettleBase(r', e')
    ensures r == r' && e == e'
  {
    TextsInjective(r.aggregator, r.aggregator, e, e', Sms, Sms);
    TextsInjective(r.aggregator, r.aggregator, e', e, Sms, Sms);
    SplitLast("settle:" + AggregatorText(r.aggregator) + ":" + r.ref, EventText(e),
              "settle:" + AggregatorText(r'.aggregator) + ":" + r'.ref, EventText(e'));
    RefTextDecodes(r.aggregator, r.ref, r'.aggregator, r'.ref);
  }

  lemma KeyInitial(k: Key)
    ensures KeyText(k) != "" && KeyText(k)[0] == if k.SettleKey? then 's' else 'o'
  {
  }

  /** A dedupe key decodes to one meaning, even when the aggregator's reference holds colons. */
  lemma KeyTextDecodes(k: Key, m: Key)
    requires KeyText(k) == KeyText(m)
    ensures k == m
  {
    TextsInjective(Sslcommerz, Sslcommerz, Otp, Otp, k.channel, m.channel);
    TextsInjective(Sslcommerz, Sslcommerz, Otp, Otp, m.channel, k.channel);
    match (k, m)
    case (SettleKey(r, e, c), SettleKey(r', e', c')) =>
      SplitLast(SettleBase(r, e), ChannelText(c), SettleBase(r', e'), ChannelText(c'));
      BaseDecodes(r, e, r', e');
    case (CreatedKey(o, c), CreatedKey(o', c')) =>
      SplitLast(CreatedBase(o), ChannelText(c), CreatedBase(o'), ChannelText(c'));
      assert CreatedBase(o)[|"order-created:"|..] == o && CreatedBase(o')[|"order-created:"|..] == o';
    case (SettleKey(_, _, _), CreatedKey(_, _)) => KeyInitial(k); KeyInitial(m);
    case (CreatedKey(_, _), SettleKey(_, _, _)) => KeyInitial(k); KeyInitial(m);
  }

  /** INSERT ... ON CONFLICT (dedupe_key) DO NOTHING. */
  function InsertNotice<K>(outbox: map<K, OutboxRow>, key: K, row: OutboxRow): map<K, OutboxRow> {
    if key in outbox then outbox else outbox[key := row]
  }

  /** Whatever a dispatcher does to a row: its delivery status and attempts change, and nothing else. */
  function Dispatched(outbox: map<Key, OutboxRow>, key: Key, delivery: Delivery, attempts: nat): map<Key, OutboxRow> {
    if key in outbox then outbox[key := outbox[key].(delivery := delivery, attempts := attempts)] else outbox
  }

  /** t is the table of the same rows, keyed by their texts. */
  ghost predicate IsTextTable(t: map<string, OutboxRow>, outbox: map<Key, OutboxRow>) {
    && (forall k :: k in outbox ==> KeyText(k) in t && t[KeyText(k)] == outbox[k])
    && (forall s :: s in t ==> exists k :: k in outbox && KeyText(k) == s)
  }

  /** Inserting by text does to the table of texts what inserting by meaning does to the table of meanings. */
  lemma TextTableInsert(t: map<string, OutboxRow>, outbox: map<Key, OutboxRow>, key: Key, row: OutboxRow)
    requires IsTextTable(t, outbox)
    ensures KeyText(key) in t <==> key in outbox
    ensures IsTextTable(InsertNotice(t, KeyText(key), row), InsertNotice(outbox, key, row))
  {
    if KeyText(key) in t {
      var k :| k in outbox && KeyText(k) == KeyText(key);
      KeyTextDecodes(k, key);
    } else {
      var t', outbox' := t[KeyText(key) := row], outbox[key := row];
      forall s | s in t' ensures exists k :: k in outbox' && KeyText(k) == s {
        if s in t {
          var k :| k in outbox && KeyText(k) == s;
          assert k in outbox';
        } else {
          assert key in outbox' && KeyText(key) == s;
        }
      }
    }
  }
}
