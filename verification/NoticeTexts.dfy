/**
 * The notification policy and the dedupe keys, in the words and texts the
 * outbox holds.
 */
module NoticeTexts {
  import opened Tables
  import opened Splitting
  import opened StoreLemmas

  /** A one-time password goes by SMS alone; every other event goes by push and by SMS. */
  lemma PolicyIs(e: Event)
    ensures ChannelsFor(e) == if e == Otp then [Sms] else [Push, Sms]
    ensures TemplateKeyFor(e) == match e
                                 case Otp => "notification.otp"
                                 case OrderConfirmed => "notification.order.confirmed"
                                 case PaymentReceived => "notification.payment.received"
                                 case PaymentFailed => "notification.payment.failed"
                                 case OutForDelivery => "notification.delivery.out_for_delivery"
                                 case DeliveredEvent => "notification.delivery.delivered"
  {
  }

  /** The text of a key, part after part between colons. */
  function Parts(k: Key): seq<string> {
    match k
    case SettleKey(r, e, c) =>
      ["settle",
       (match r.aggregator case Sslcommerz => "sslcommerz" case Shurjopay => "shurjopay" case BkashGateway => "bkash" case NagadGateway => "nagad"),
       r.ref,
       (match e
        case Otp => "otp" case OrderConfirmed => "order_confirmed" case PaymentReceived => "payment_received"
        case PaymentFailed => "payment_failed" case OutForDelivery => "out_for_delivery" case DeliveredEvent => "delivered"),
       if c == Push then "push" else "sms"]
    case CreatedKey(o, c) => ["order-created", o, if c == Push then "push" else "sms"]
  }

  function ColonJoined(parts: seq<string>): string
    requires parts != []
  {
    if |parts| == 1 then parts[0] else parts[0] + ":" + ColonJoined(parts[1..])
  }

  lemma {:induction false} JoinedSplits(parts: seq<string>)
    requires parts != [] && forall part :: part in parts ==> ':' !in part
    ensures SplitOn(ColonJoined(parts), ':') == parts
  {
    if |parts| == 1 {
      NoneToSplit(parts[0], ':');
    } else {
      JoinedSplits(parts[1..]);
      SplitAtFirst(parts[0], ':', ColonJoined(parts[1..]));
      assert [parts[0]] + parts[1..] == parts;
    }
  }

  /**
   * A dedupe key is its parts with colons between them: what happened to which
   * reference or order, and the channel. A reference or order without a colon
   * can be read off by splitting the key.
   */
  lemma KeyTextExactly(k: Key)
    ensures KeyText(k) == ColonJoined(Parts(k))
    ensures (match k case SettleKey(r, _, _) => ':' !in r.ref case CreatedKey(o, _) => ':' !in o) ==> SplitOn(KeyText(k), ':') == Parts(k)
  {
    match k {
      case SettleKey(r, e, c) => SettleKeyText(r, e, c);
      case CreatedKey(o, c) => CreatedKeyText(o, c);
    }
    PartsColonFree(k);
    if match k case SettleKey(r, _, _) => ':' !in r.ref case CreatedKey(o, _) => ':' !in o {
      JoinedSplits(Parts(k));
    }
  }

  lemma PartsColonFree(k: Key)
    ensures (match k case SettleKey(r, _, _) => ':' !in r.ref case CreatedKey(o, _) => ':' !in o) ==>
              forall part :: part in Parts(k) ==> ':' !in part
  {
  }

  lemma FiveParts(a: string, b: string, c: string, d: string, e: string)
    ensures ColonJoined([a, b, c, d, e]) == a + ":" + b + ":" + c + ":" + d + ":" + e
  {
    assert [a, b, c, d, e][1..] == [b, c, d, e] && [b, c, d, e][1..] == [c, d, e] && [c, d, e][1..] == [d, e] && [d, e][1..] == [e];
    assert ColonJoined([d, e]) == d + ":" + e;
    assert ColonJoined([c, d, e]) == c + ":" + ColonJoined([d, e]);
    assert ColonJoined([b, c, d, e]) == b + ":" + ColonJoined([c, d, e]);
    assert ColonJoined([a, b, c, d, e]) == a + ":" + ColonJoined([b, c, d, e]);
  }

  lemma SettleParts(r: Ref, e: Event, c: Channel)
    ensures Parts(SettleKey(r, e, c)) == ["settle", AggregatorText(r.aggregator), r.ref, EventText(e), ChannelText(c)]
  {
  }

  lemma SettleKeyText(r: Ref, e: Event, c: Channel)
    ensures KeyText(SettleKey(r, e, c)) == ColonJoined(Parts(SettleKey(r, e, c)))
  {
    hide AggregatorText, EventText, ChannelText, Parts, ColonJoined;
    SettleParts(r, e, c);
    FiveParts("settle", AggregatorText(r.aggregator), r.ref, EventText(e), ChannelText(c));
    assert "settle" + ":" == "settle:";
  }

  lemma CreatedKeyText(o: Id, c: Channel)
    ensures KeyText(CreatedKey(o, c)) == ColonJoined(Parts(CreatedKey(o, c)))
  {
    var channel := ChannelText(c);
    assert Parts(CreatedKey(o, c)) == ["order-created", o, channel];
    hide ChannelText, Parts;
    assert ["order-created", o, channel][1..] == [o, channel] && [o, channel][1..] == [channel];
    assert ColonJoined([o, channel]) == o + ":" + channel;
    assert "order-created" + ":" == "order-created:";
  }

  // ---- what a request puts into the outbox -----------------------------------

  /** The key of a request on a channel: about a settlement its reference and event, about a new order the order. */
  function KeyOn(request: Request, c: Channel): Key {
    match request.base
    case SettleBase(r) => SettleKey(r, request.event, c)
    case CreatedBase => CreatedKey(request.orderId, c)
  }

  /** The channels an event goes by. */
  predicate GoesBy(e: Event, c: Channel) {
    c == Sms || e != Otp
  }

  /**
   * Every channel of the event has a row under its key: the one that was there,
   * or a new one to the user's number and in the user's language, in the
   * event's template, queued and not yet tried. No other row is touched.
   */
  lemma EnqueuedExactly(outbox: map<Key, OutboxRow>, request: Request, user: User)
    ensures var after := Enqueued(outbox, request, user, ChannelsFor(request.event));
            && (forall k :: k in after <==> k in outbox || exists c :: GoesBy(request.event, c) && k == KeyOn(request, c))
            && (forall k :: k in outbox ==> k in after && after[k] == outbox[k])
            && (forall c :: GoesBy(request.event, c) && KeyOn(request, c) !in outbox ==>
                  && KeyOn(request, c) in after
                  && after[KeyOn(request, c)]
                     == OutboxRow(request.userId, user.phone, user.language, c, TemplateKeyFor(request.event), request.params,
                                  request.orderId, Queued, 0))
  {
    hide TemplateKeyFor, Enqueued;
    PolicyIs(request.event);
    if request.event == Otp { OneRow(outbox, request, user); } else { TwoRows(outbox, request, user); }
    assert request.KeyFor(Push) == KeyOn(request, Push) != KeyOn(request, Sms) == request.KeyFor(Sms);
    forall c ensures GoesBy(request.event, c) ==> c == Push || c == Sms {}
  }

  lemma OneRow(outbox: map<Key, OutboxRow>, request: Request, user: User)
    ensures Enqueued(outbox, request, user, [Sms]) == InsertNotice(outbox, request.KeyFor(Sms), request.RowFor(user, Sms))
  {
    hide InsertNotice;
    assert [Sms][1..] == [];
    var one := InsertNotice(outbox, request.KeyFor(Sms), request.RowFor(user, Sms));
    assert Enqueued(one, request, user, []) == one;
  }
}
