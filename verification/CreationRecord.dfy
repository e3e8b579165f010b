/**
 * createOrder told over the catalog and the request alone: which requests are
 * refused and how, and what an accepted one writes, field by field.
 */
module CreationRecord {
  import opened Outcomes
  import opened Tables
  import opened OrderPricing
  import opened OrderCreation
  import opened SerialFacts
  import Money

  // ---- what is asked of the catalog ---------------------------------------

  /** The listing may be ordered from this merchant in this quantity. */
  predicate Sellable(row: ListingRow, line: RequestedLine, merchantRole: Id) {
    && row.isActive && !row.restricted && !row.needsLicence && row.ownerRole == merchantRole
    && (row.stock.None? || line.quantity <= row.stock.value) && line.quantity >= 1
  }

  /** The first thing that is wrong with a listing, in the order it is looked at. */
  function Refusal(row: ListingRow, line: RequestedLine, merchantRole: Id): (e: Option<CreateError>)
    ensures e.None? <==> Sellable(row, line, merchantRole)
  {
    if !row.isActive then Some(ListingUnavailable)
    else if row.restricted then Some(CategoryProhibited)
    else if row.needsLicence then Some(CategoryNeedsLicence)
    else if row.ownerRole != merchantRole then Some(MultipleMerchants)
    else if row.stock.Some? && row.stock.value < line.quantity then Some(InsufficientStock)
    else if line.quantity <= 0 then Some(InvalidQuantity)
    else None
  }

  predicate Listed(catalog: map<Id, ListingRow>, lines: seq<RequestedLine>) {
    forall i :: 0 <= i < |lines| ==> lines[i].listingId in catalog && Money.TakaToPoisha(catalog[lines[i].listingId].priceBdt).Ok?
  }

  function UnitPrice(catalog: map<Id, ListingRow>, line: RequestedLine): int
    requires line.listingId in catalog && Money.TakaToPoisha(catalog[line.listingId].priceBdt).Ok?
  {
    Money.TakaToPoisha(catalog[line.listingId].priceBdt).value
  }

  function Subtotal(catalog: map<Id, ListingRow>, lines: seq<RequestedLine>): int
    requires Listed(catalog, lines)
  {
    if lines == [] then 0 else UnitPrice(catalog, lines[0]) * lines[0].quantity + Subtotal(catalog, lines[1..])
  }

  predicate ReadyAll(catalog: map<Id, ListingRow>, lines: seq<RequestedLine>)
    requires Listed(catalog, lines)
  {
    forall i :: 0 <= i < |lines| ==> catalog[lines[i].listingId].readyToShip
  }

  /** The most that may be asked in advance. */
  function Cap(catalog: map<Id, ListingRow>, cmd: Command, ctx: Context): int
    requires Listed(catalog, cmd.lines)
  {
    var total := Subtotal(catalog, cmd.lines) + cmd.deliveryFee;
    if (cmd.paymentMethod == Escrow && ctx.escrowEnabled) || ReadyAll(catalog, cmd.lines) then total else total / 10
  }

  /** NUMERIC(12,2), in poisha. */
  predicate InRange(p: int) {
    -999999999999 <= p <= 999999999999
  }

  predicate PricesInRange(catalog: map<Id, ListingRow>, lines: seq<RequestedLine>)
    requires Listed(catalog, lines)
  {
    forall i :: 0 <= i < |lines| ==> InRange(UnitPrice(catalog, lines[i]))
  }

  predicate AmountsInRange(catalog: map<Id, ListingRow>, cmd: Command, ctx: Context)
    requires Listed(catalog, cmd.lines)
  {
    var subtotal := Subtotal(catalog, cmd.lines);
    InRange(subtotal) && InRange(cmd.deliveryFee) && InRange(subtotal + cmd.deliveryFee) && InRange(cmd.requestedAdvance)
    && InRange(Cap(catalog, cmd, ctx))
  }

  /** Everything a request has to meet, over the rows of the catalog and the tables. */
  predicate Accepts(db: Db, catalog: map<Id, ListingRow>, cmd: Command, ctx: Context) {
    && cmd.lines != [] && Listed(catalog, cmd.lines)
    && (forall i :: 0 <= i < |cmd.lines| ==> Sellable(catalog[cmd.lines[i].listingId], cmd.lines[i], cmd.merchantRole))
    && ctx.merchant.isActive && ctx.merchant.kycVerified && ctx.merchant.hasPickup
    && 0 <= cmd.requestedAdvance <= Cap(catalog, cmd, ctx) && (cmd.paymentMethod == Cod ==> cmd.requestedAdvance == 0)
    && AmountsInRange(catalog, cmd, ctx) && PricesInRange(catalog, cmd.lines)
    && Subtotal(catalog, cmd.lines) >= 0 && (forall i :: 0 <= i < |cmd.lines| ==> cmd.lines[i].quantity <= 2147483647)
    && ctx.orderId !in db.orders && ctx.payId !in db.payments && cmd.customer in db.users
  }

  // ---- which refusal ---------------------------------------------------------

  /** The first line without a listing, or with an unreadable price. */
  function Unlisted(catalog: map<Id, ListingRow>, lines: seq<RequestedLine>): (e: Option<CreateError>)
    ensures e.None? <==> Listed(catalog, lines)
  {
    if lines == [] then None
    else if lines[0].listingId !in catalog then Some(ListingNotFound)
    else if Money.TakaToPoisha(catalog[lines[0].listingId].priceBdt).Err? then Some(BadPrice)
    else
      var e := Unlisted(catalog, lines[1..]);
      assert e.None? <==> forall i :: 1 <= i < |lines| ==>
        lines[i].listingId in catalog && Money.TakaToPoisha(catalog[lines[i].listingId].priceBdt).Ok? by {
        assert forall i :: 1 <= i < |lines| ==> lines[i] == lines[1..][i - 1];
      }
      e
  }

  /** The first refusal among the lines. */
  function FirstRefusal(catalog: map<Id, ListingRow>, lines: seq<RequestedLine>, merchantRole: Id): Option<CreateError>
    requires Listed(catalog, lines)
  {
    if lines == [] then None
    else
      var e := Refusal(catalog[lines[0].listingId], lines[0], merchantRole);
      if e.Some? then e else FirstRefusal(catalog, lines[1..], merchantRole)
  }

  /** What a request is refused with; None accepts it. */
  function Verdict(db: Db, catalog: map<Id, ListingRow>, cmd: Command, ctx: Context): Option<CreateError> {
    if cmd.lines == [] then Some(EmptyOrder)
    else if Unlisted(catalog, cmd.lines).Some? then Unlisted(catalog, cmd.lines)
    else if FirstRefusal(catalog, cmd.lines, cmd.merchantRole).Some? then FirstRefusal(catalog, cmd.lines, cmd.merchantRole)
    else if !ctx.merchant.isActive then Some(MerchantUnavailable)
    else if !ctx.merchant.kycVerified then Some(MerchantNotVerified)
    else if !ctx.merchant.hasPickup then Some(MerchantWithoutPickup)
    else if cmd.requestedAdvance < 0 then Some(Pricing(NegativeAdvance))
    else if cmd.requestedAdvance > Cap(catalog, cmd, ctx) then Some(Pricing(AdvanceExceedsCap))
    else if cmd.paymentMethod == Cod && cmd.requestedAdvance != 0 then Some(Pricing(CodWithAdvance))
    else if !AmountsInRange(catalog, cmd, ctx) then Some(Pricing(BadMoney(Money.ExceedsNumeric)))
    else if !PricesInRange(catalog, cmd.lines) then Some(BadPrice)
    else if Subtotal(catalog, cmd.lines) < 0 then Some(CheckViolation)
    else if ctx.orderId in db.orders then Some(KeyViolation)
    else if cmd.customer !in db.users then Some(UnknownCustomer)
    else if exists i :: 0 <= i < |cmd.lines| && cmd.lines[i].quantity > 2147483647 then Some(QuantityOutOfRange)
    else if ctx.payId in db.payments then Some(KeyViolation)
    else None
  }

  // ---- the resolved cart is the catalog's --------------------------------------

  /** A resolved line carries its listing's row and the requested quantity. */
  predicate Carries(r: ResolvedLine, row: ListingRow, quantity: int) {
    && r.listingId == row.id && r.quantity == quantity && Money.TakaToPoisha(row.priceBdt) == Ok(r.unitPrice)
    && r.readyToShip == row.readyToShip && r.merchantRole == row.ownerRole && r.restricted == row.restricted
    && r.needsLicence == row.needsLicence && r.stock == row.stock && r.isActive == row.isActive
  }

  predicate CarriesAll(rs: seq<ResolvedLine>, catalog: map<Id, ListingRow>, lines: seq<RequestedLine>)
    requires Listed(catalog, lines)
  {
    |rs| == |lines| && forall i :: 0 <= i < |lines| ==> Carries(rs[i], catalog[lines[i].listingId], lines[i].quantity)
  }

  /** Each line resolves to its own listing, or to the first error. */
  lemma {:induction false} ResolvedExactly(catalog: map<Id, ListingRow>, lines: seq<RequestedLine>)
    ensures match ResolveAll(catalog, lines)
            case Err(e) => Unlisted(catalog, lines) == Some(e)
            case Ok(rs) => Listed(catalog, lines) && CarriesAll(rs, catalog, lines)
    decreases |lines|
  {
    hide Money.TakaToPoisha;
    if lines != [] {
      ResolvedExactly(catalog, lines[1..]);
      assert forall i :: 1 <= i < |lines| ==> lines[i] == lines[1..][i - 1];
    }
  }

  lemma {:induction false} RefusedExactly(rs: seq<ResolvedLine>, catalog: map<Id, ListingRow>, lines: seq<RequestedLine>, merchantRole: Id)
    requires Listed(catalog, lines) && CarriesAll(rs, catalog, lines)
    ensures CartProblem(rs, merchantRole) == FirstRefusal(catalog, lines, merchantRole)
    ensures FirstRefusal(catalog, lines, merchantRole).None? <==>
            forall i :: 0 <= i < |lines| ==> Sellable(catalog[lines[i].listingId], lines[i], merchantRole)
    decreases |lines|
  {
    hide Money.TakaToPoisha;
    if lines != [] {
      assert forall i :: 1 <= i < |lines| ==> lines[i] == lines[1..][i - 1] && rs[i] == rs[1..][i - 1];
      RefusedExactly(rs[1..], catalog, lines[1..], merchantRole);
      assert Carries(rs[0], catalog[lines[0].listingId], lines[0].quantity);
    }
  }

  lemma {:induction false} SubtotalExactly(rs: seq<ResolvedLine>, catalog: map<Id, ListingRow>, lines: seq<RequestedLine>)
    requires Listed(catalog, lines) && CarriesAll(rs, catalog, lines)
    ensures CartSubtotal(CartLines(rs)) == Subtotal(catalog, lines)
    decreases |lines|
  {
    hide Money.TakaToPoisha, Money.Sum;
    var totals := LineTotals(CartLines(rs));
    if lines == [] {
      assert totals == [];
      Money.SumIsTotal([], []);
    } else {
      assert forall i :: 1 <= i < |lines| ==> lines[i] == lines[1..][i - 1] && rs[i] == rs[1..][i - 1];
      SubtotalExactly(rs[1..], catalog, lines[1..]);
      assert Carries(rs[0], catalog[lines[0].listingId], lines[0].quantity);
      assert totals == [rs[0].unitPrice * rs[0].quantity] + LineTotals(CartLines(rs[1..]));
      Money.SumIsTotal([rs[0].unitPrice * rs[0].quantity], LineTotals(CartLines(rs[1..])));
    }
  }

  lemma ReadyExactly(rs: seq<ResolvedLine>, catalog: map<Id, ListingRow>, lines: seq<RequestedLine>)
    requires Listed(catalog, lines) && CarriesAll(rs, catalog, lines)
    ensures AllReady(CartLines(rs)) <==> ReadyAll(catalog, lines)
    ensures AllPrintable(rs) <==> PricesInRange(catalog, lines)
    ensures QuantitiesFit(rs) <==> !exists i :: 0 <= i < |lines| && lines[i].quantity > 2147483647
  {
    hide Money.TakaToPoisha, Money.PoishaToTaka;
    AllPrintableExactly(rs);
    assert forall i :: 0 <= i < |lines| ==> Carries(rs[i], catalog[lines[i].listingId], lines[i].quantity);
    assert forall i :: 0 <= i < |lines| ==> CartLines(rs)[i].readyToShip == catalog[lines[i].listingId].readyToShip;
    if AllReady(CartLines(rs)) {
      forall i | 0 <= i < |lines| ensures catalog[lines[i].listingId].readyToShip { assert CartLines(rs)[i].readyToShip; }
    }
  }

  lemma CapAs(rs: seq<ResolvedLine>, catalog: map<Id, ListingRow>, cmd: Command, ctx: Context)
    requires cmd.lines != [] && Listed(catalog, cmd.lines) && CarriesAll(rs, catalog, cmd.lines)
    ensures CartSubtotal(CartLines(rs)) == Subtotal(catalog, cmd.lines)
    ensures var isEscrow := cmd.paymentMethod == Escrow && ctx.escrowEnabled;
            var answer := ComputeAdvanceCap(CartLines(rs), Subtotal(catalog, cmd.lines) + cmd.deliveryFee, isEscrow);
            && answer.Ok? && answer.value.cap == Cap(catalog, cmd, ctx)
            && (answer.value.reason == EscrowFull <==> isEscrow) && (answer.value.allItemsReady <==> ReadyAll(catalog, cmd.lines))
  {
    hide Money.TakaToPoisha, CartSubtotal, AllReady, ReadyAll, Subtotal;
    var total := Subtotal(catalog, cmd.lines) + cmd.deliveryFee;
    SubtotalExactly(rs, catalog, cmd.lines);
    ReadyExactly(rs, catalog, cmd.lines);
    FlooredAgainstRounded(total);
    CapExists(CartLines(rs), total, cmd.paymentMethod == Escrow && ctx.escrowEnabled);
  }

  /** Pricing, over the catalog. */
  lemma PricedAs(rs: seq<ResolvedLine>, catalog: map<Id, ListingRow>, cmd: Command, ctx: Context)
    requires cmd.lines != [] && Listed(catalog, cmd.lines) && CarriesAll(rs, catalog, cmd.lines)
    ensures var subtotal, cap := Subtotal(catalog, cmd.lines), Cap(catalog, cmd, ctx);
            match PriceOrder(CartLines(rs), cmd.deliveryFee, cmd.requestedAdvance, cmd.paymentMethod, ctx.escrowEnabled)
            case Err(e) =>
              e == if cmd.requestedAdvance < 0 then NegativeAdvance
                   else if cmd.requestedAdvance > cap then AdvanceExceedsCap
                   else if cmd.paymentMethod == Cod && cmd.requestedAdvance != 0 then CodWithAdvance
                   else BadMoney(Money.ExceedsNumeric)
            case Ok(p) =>
              && 0 <= cmd.requestedAdvance <= cap && (cmd.paymentMethod == Cod ==> cmd.requestedAdvance == 0)
              && AmountsInRange(catalog, cmd, ctx)
              && p.subtotal == subtotal && p.total == subtotal + cmd.deliveryFee && p.cap.cap == cap
              && (p.cap.reason == EscrowFull <==> cmd.paymentMethod == Escrow && ctx.escrowEnabled)
              && (p.cap.allItemsReady <==> ReadyAll(catalog, cmd.lines))
              && Money.PoishaToTaka(subtotal) == Ok(p.subtotalBdt) && Money.PoishaToTaka(cmd.deliveryFee) == Ok(p.feeBdt)
              && Money.PoishaToTaka(subtotal + cmd.deliveryFee) == Ok(p.totalBdt)
              && Money.PoishaToTaka(cmd.requestedAdvance) == Ok(p.advanceBdt) && Money.PoishaToTaka(cap) == Ok(p.capBdt)
    ensures PriceOrder(CartLines(rs), cmd.deliveryFee, cmd.requestedAdvance, cmd.paymentMethod, ctx.escrowEnabled).Ok? <==>
            && 0 <= cmd.requestedAdvance <= Cap(catalog, cmd, ctx) && (cmd.paymentMethod == Cod ==> cmd.requestedAdvance == 0)
            && AmountsInRange(catalog, cmd, ctx)
  {
    hide Money.TakaToPoisha, Money.PoishaToTaka, Money.Sum, CartSubtotal, ReadyAll, Subtotal, Cap, ComputeAdvanceCap, CarriesAll, Listed;
    var subtotal := Subtotal(catalog, cmd.lines);
    var total := subtotal + cmd.deliveryFee;
    SumOfTwo(subtotal, cmd.deliveryFee);
    var isEscrow := cmd.paymentMethod == Escrow && ctx.escrowEnabled;
    CapAs(rs, catalog, cmd, ctx);
    TextsExactly(subtotal, cmd.deliveryFee, total, cmd.requestedAdvance, ComputeAdvanceCap(CartLines(rs), total, isEscrow).value);
  }

  // ---- acceptance and refusal, exactly --------------------------------------------

  /** The cart resolves, and its prices are what it is refused for. */
  predicate PricedOut(rs: seq<ResolvedLine>, catalog: map<Id, ListingRow>, cmd: Command, ctx: Context, e: CreateError) {
    && Listed(catalog, cmd.lines) && CarriesAll(rs, catalog, cmd.lines)
    && var priced := PriceOrder(CartLines(rs), cmd.deliveryFee, cmd.requestedAdvance, cmd.paymentMethod, ctx.escrowEnabled);
       if priced.Err? then e == Pricing(priced.error) else e == BadPrice && !PricesInRange(catalog, cmd.lines)
  }

  lemma PlannedAs(catalog: map<Id, ListingRow>, cmd: Command, ctx: Context)
    requires ResolveCartLines(ctx.rows, cmd.lines) == ResolveAll(catalog, cmd.lines) && cmd.lines != []
    ensures match Plan(cmd, ctx)
            case Ok(plan) =>
              var (rs, p) := plan;
              && Listed(catalog, cmd.lines) && CarriesAll(rs, catalog, cmd.lines)
              && FirstRefusal(catalog, cmd.lines, cmd.merchantRole).None? && PricesInRange(catalog, cmd.lines)
              && ctx.merchant.isActive && ctx.merchant.kycVerified && ctx.merchant.hasPickup
              && PriceOrder(CartLines(rs), cmd.deliveryFee, cmd.requestedAdvance, cmd.paymentMethod, ctx.escrowEnabled) == Ok(p)
            case Err(e) =>
              if Unlisted(catalog, cmd.lines).Some? then Unlisted(catalog, cmd.lines) == Some(e)
              else if FirstRefusal(catalog, cmd.lines, cmd.merchantRole).Some? then FirstRefusal(catalog, cmd.lines, cmd.merchantRole) == Some(e)
              else if !ctx.merchant.isActive then e == MerchantUnavailable
              else if !ctx.merchant.kycVerified then e == MerchantNotVerified
              else if !ctx.merchant.hasPickup then e == MerchantWithoutPickup
              else exists rs :: PricedOut(rs, catalog, cmd, ctx, e)
  {
    hide PriceOrder, ResolveAll, ResolveCartLines, CartProblem, Money.TakaToPoisha, FirstRefusal, PricesInRange, AllPrintable, Sellable;
    ResolvedExactly(catalog, cmd.lines);
    if ResolveAll(catalog, cmd.lines).Ok? {
      var rs := ResolveAll(catalog, cmd.lines).value;
      RefusedExactly(rs, catalog, cmd.lines, cmd.merchantRole);
      ReadyExactly(rs, catalog, cmd.lines);
      if Plan(cmd, ctx).Err? && PricedOut(rs, catalog, cmd, ctx, Plan(cmd, ctx).error) {
        assert exists x :: PricedOut(x, catalog, cmd, ctx, Plan(cmd, ctx).error);
      }
    }
  }

  /**
   * Whatever order the listings query returns its rows in: a request is
   * accepted exactly when there is nothing to refuse it with, and refused with
   * exactly that.
   */
  lemma VerdictExactly(db: Db, catalog: map<Id, ListingRow>, cmd: Command, ctx: Context)
    requires Answers(ctx.rows, catalog, cmd.lines)
    ensures match CreateOrder(db, cmd, ctx)
            case Ok(_) => Verdict(db, catalog, cmd, ctx) == None
            case Err(e) => Verdict(db, catalog, cmd, ctx) == Some(e)
  {
    hide Plan, PriceOrder, ResolveAll, ResolveCartLines, FirstRefusal, PricesInRange, AmountsInRange, Subtotal, Cap, CarriesAll, Listed,
         QuantitiesFit, InsertAll, NewOrder, NewItems, PendingPayment, ConfirmationRow, Answers;
    RowOrderIrrelevant(ctx.rows, catalog, cmd.lines);
    if cmd.lines == [] {
      assert Plan(cmd, ctx) == Err(EmptyOrder) by { NoLines(cmd, ctx); }
    } else {
      PlannedAs(catalog, cmd, ctx);
      if Plan(cmd, ctx).Ok? {
        var (rs, p) := Plan(cmd, ctx).value;
        PricedAs(rs, catalog, cmd, ctx);
        ReadyExactly(rs, catalog, cmd.lines);
      } else if rs :| PricedOut(rs, catalog, cmd, ctx, Plan(cmd, ctx).error) {
        PricedAs(rs, catalog, cmd, ctx);
      }
    }
  }

  lemma NoLines(cmd: Command, ctx: Context)
    requires cmd.lines == []
    ensures Plan(cmd, ctx) == Err(EmptyOrder)
  {
  }

  /** An order is created exactly when the request, the catalog's rows and the tables meet all of this. */
  lemma AcceptedExactly(db: Db, catalog: map<Id, ListingRow>, cmd: Command, ctx: Context)
    requires Answers(ctx.rows, catalog, cmd.lines)
    ensures CreateOrder(db, cmd, ctx).Ok? <==> Accepts(db, catalog, cmd, ctx)
  {
    hide CreateOrder, FirstRefusal, PricesInRange, AmountsInRange, Subtotal, Cap, Sellable, Answers, Money.TakaToPoisha;
    VerdictExactly(db, catalog, cmd, ctx);
    if Listed(catalog, cmd.lines) { NoRefusal(catalog, cmd.lines, cmd.merchantRole); }
  }

  lemma {:induction false} NoRefusal(catalog: map<Id, ListingRow>, lines: seq<RequestedLine>, merchantRole: Id)
    requires Listed(catalog, lines)
    ensures FirstRefusal(catalog, lines, merchantRole).None? <==>
            forall i :: 0 <= i < |lines| ==> Sellable(catalog[lines[i].listingId], lines[i], merchantRole)
    decreases |lines|
  {
    hide Money.TakaToPoisha, Sellable;
    if lines != [] {
      assert forall i :: 1 <= i < |lines| ==> lines[i] == lines[1..][i - 1];
      NoRefusal(catalog, lines[1..], merchantRole);
    }
  }

  // ---- what an accepted request writes ----------------------------------------------

  predicate Says(text: string, amount: int) {
    Money.PoishaToTaka(amount) == Ok(text)
  }

  /** The order row. */
  predicate IsOrder(order: OrderRow, catalog: map<Id, ListingRow>, cmd: Command, ctx: Context)
    requires Listed(catalog, cmd.lines)
  {
    var subtotal := Subtotal(catalog, cmd.lines);
    && order.customer == cmd.customer && order.merchantRole == cmd.merchantRole && order.location == cmd.location
    && order.status == Created && order.paymentMethod == cmd.paymentMethod
    && Says(order.subtotalBdt, subtotal) && Says(order.feeBdt, cmd.deliveryFee) && Says(order.totalBdt, subtotal + cmd.deliveryFee)
    && Says(order.advanceBdt, cmd.requestedAdvance) && Says(order.capBdt, Cap(catalog, cmd, ctx))
    && (order.isEscrow <==> cmd.paymentMethod == Escrow && ctx.escrowEnabled)
    && (order.allItemsReady <==> ReadyAll(catalog, cmd.lines)) && order.isSameCity == ctx.sameCity
    && order.advancePaidAt == None && order.deadlineAt == None
  }

  /** The item rows, in request order. */
  predicate AreItems(items: seq<ItemRow>, catalog: map<Id, ListingRow>, lines: seq<RequestedLine>)
    requires Listed(catalog, lines)
  {
    && |items| == |lines|
    && forall i :: 0 <= i < |lines| ==>
         && items[i].listingId == catalog[lines[i].listingId].id && items[i].quantity == lines[i].quantity
         && Says(items[i].unitPriceBdt, UnitPrice(catalog, lines[i])) && items[i].readyToShip == catalog[lines[i].listingId].readyToShip
  }

  /** The pending payment: the total on delivery, else the advance. */
  predicate IsPayment(payment: PayRow, catalog: map<Id, ListingRow>, cmd: Command, orderId: Id)
    requires Listed(catalog, cmd.lines)
  {
    && payment.orderId == orderId && payment.paymentMethod == cmd.paymentMethod
    && Says(payment.amountBdt, if cmd.paymentMethod == Cod then Subtotal(catalog, cmd.lines) + cmd.deliveryFee else cmd.requestedAdvance)
    && payment.status == Pending && payment.ref == None && payment.settledAt == None
    && (payment.isAdvance <==> cmd.paymentMethod != Cod)
  }

  /** The confirmation on one channel. */
  predicate IsConfirmation(row: OutboxRow, cmd: Command, user: User, orderId: Id, c: Channel) {
    && row.userId == cmd.customer && row.phone == user.phone && row.language == user.language && row.channel == c
    && row.templateKey == "notification.order.confirmed" && row.orderId == orderId && row.delivery == Queued && row.attempts == 0
    && row.params == map["orderRef" := if |orderId| > 8 then orderId[..8] else orderId]
  }

  /** Every table after an accepted request. */
  predicate Wrote(db: Db, catalog: map<Id, ListingRow>, cmd: Command, ctx: Context, db': Db)
    requires Listed(catalog, cmd.lines)
  {
    var o, p := ctx.orderId, ctx.payId;
    && db'.users == db.users && cmd.customer in db.users
    && o in db'.orders && db'.orders == db.orders[o := db'.orders[o]] && IsOrder(db'.orders[o], catalog, cmd, ctx)
    && o in db'.items && db'.items == db.items[o := db'.items[o]] && AreItems(db'.items[o], catalog, cmd.lines)
    && db'.events == db.events[o := (if o in db.events then db.events[o] else []) + [EventRow(None, Created, "order.event.created")]]
    && p in db'.payments && db'.payments == db.payments[p := db'.payments[p]] && IsPayment(db'.payments[p], catalog, cmd, o)
    && db'.outbox.Keys == db.outbox.Keys + {CreatedKey(o, Push), CreatedKey(o, Sms)}
    && (forall k :: k in db.outbox ==> db'.outbox[k] == db.outbox[k])
    && forall c :: CreatedKey(o, c) !in db.outbox ==>
         CreatedKey(o, c) in db'.outbox && IsConfirmation(db'.outbox[CreatedKey(o, c)], cmd, db.users[cmd.customer], o, c)
  }

  lemma OrderIs(rs: seq<ResolvedLine>, p: Priced, catalog: map<Id, ListingRow>, cmd: Command, ctx: Context)
    requires cmd.lines != [] && Listed(catalog, cmd.lines) && CarriesAll(rs, catalog, cmd.lines)
    requires PriceOrder(CartLines(rs), cmd.deliveryFee, cmd.requestedAdvance, cmd.paymentMethod, ctx.escrowEnabled) == Ok(p)
    ensures IsOrder(NewOrder(cmd, ctx.sameCity, p), catalog, cmd, ctx)
    ensures IsPayment(PendingPayment(cmd, ctx.orderId, p), catalog, cmd, ctx.orderId)
  {
    hide PriceOrder, Subtotal, Cap, Money.PoishaToTaka, Money.TakaToPoisha, ReadyAll, AmountsInRange, CarriesAll;
    PricedAs(rs, catalog, cmd, ctx);
  }

  lemma ItemsAre(rs: seq<ResolvedLine>, catalog: map<Id, ListingRow>, lines: seq<RequestedLine>)
    requires Listed(catalog, lines) && CarriesAll(rs, catalog, lines) && AllPrintable(rs)
    ensures AreItems(NewItems(rs), catalog, lines)
  {
    hide Money.PoishaToTaka, Money.TakaToPoisha;
    forall i | 0 <= i < |lines|
      ensures Says(NewItems(rs)[i].unitPriceBdt, UnitPrice(catalog, lines[i])) && NewItems(rs)[i].listingId == catalog[lines[i].listingId].id
    {
      assert Carries(rs[i], catalog[lines[i].listingId], lines[i].quantity);
    }
  }

  lemma InsertedExactly(db: Db, o: Id, order: OrderRow, items: seq<ItemRow>, p: Id, payment: PayRow, push: OutboxRow, sms: OutboxRow)
    ensures var db' := InsertAll(db, o, order, items, p, payment, push, sms);
            && db'.users == db.users && db'.orders == db.orders[o := order] && db'.items == db.items[o := items]
            && db'.payments == db.payments[p := payment]
            && db'.events == db.events[o := (if o in db.events then db.events[o] else []) + [EventRow(None, Created, "order.event.created")]]
            && db'.outbox.Keys == db.outbox.Keys + {CreatedKey(o, Push), CreatedKey(o, Sms)}
            && (forall k :: k in db.outbox ==> db'.outbox[k] == db.outbox[k])
            && (CreatedKey(o, Push) !in db.outbox ==> db'.outbox[CreatedKey(o, Push)] == push)
            && (CreatedKey(o, Sms) !in db.outbox ==> db'.outbox[CreatedKey(o, Sms)] == sms)
  {
  }

  lemma ConfirmationIs(cmd: Command, user: User, orderId: Id, c: Channel)
    ensures IsConfirmation(ConfirmationRow(cmd, user, orderId, c), cmd, user, orderId, c)
  {
  }

  /** An accepted request writes exactly this. */
  lemma WroteExactly(db: Db, catalog: map<Id, ListingRow>, cmd: Command, ctx: Context)
    requires Answers(ctx.rows, catalog, cmd.lines) && CreateOrder(db, cmd, ctx).Ok?
    ensures Listed(catalog, cmd.lines) && Wrote(db, catalog, cmd, ctx, CreateOrder(db, cmd, ctx).value)
  {
    hide Plan, PriceOrder, ResolveAll, ResolveCartLines, FirstRefusal, PricesInRange, CarriesAll, Listed, InsertAll, NewOrder, NewItems,
         PendingPayment, ConfirmationRow, Answers, IsOrder, AreItems, IsPayment, IsConfirmation, CreateOrder;
    RowOrderIrrelevant(ctx.rows, catalog, cmd.lines);
    if cmd.lines == [] { NoLines(cmd, ctx); }
    CreatedParts(db, cmd, ctx);
    PlannedAs(catalog, cmd, ctx);
    var (rs, p) := Plan(cmd, ctx).value;
    var user, o := db.users[cmd.customer], ctx.orderId;
    OrderIs(rs, p, catalog, cmd, ctx);
    ItemsAre(rs, catalog, cmd.lines);
    ConfirmationIs(cmd, user, o, Push);
    ConfirmationIs(cmd, user, o, Sms);
    InsertedExactly(db, o, NewOrder(cmd, ctx.sameCity, p), NewItems(rs), ctx.payId, PendingPayment(cmd, o, p),
                    ConfirmationRow(cmd, user, o, Push), ConfirmationRow(cmd, user, o, Sms));
    var db' := CreateOrder(db, cmd, ctx).value;
    forall c | CreatedKey(o, c) !in db.outbox
      ensures CreatedKey(o, c) in db'.outbox && IsConfirmation(db'.outbox[CreatedKey(o, c)], cmd, user, o, c)
    {
      assert c == Push || c == Sms;
    }
  }
}
