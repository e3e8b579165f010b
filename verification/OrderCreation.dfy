/**
 * createOrder: resolve the cart, check it, price it, and write order, items,
 * first status event, pending payment and outbox rows in one transaction.
 */
module OrderCreation {
  import opened Outcomes
  import opened Tables
  import Money
  import opened OrderPricing

  datatype ListingRow = ListingRow(
    id: Id, ownerRole: Id, priceBdt: string, readyToShip: bool, stock: Option<int>, isActive: bool,
    restricted: bool, needsLicence: bool)

  datatype RequestedLine = RequestedLine(listingId: Id, quantity: int)

  datatype ResolvedLine = ResolvedLine(
    listingId: Id, quantity: int, unitPrice: int, readyToShip: bool, merchantRole: Id,
    restricted: bool, needsLicence: bool, stock: Option<int>, isActive: bool)

  datatype CreateError =
    | EmptyOrder | ListingNotFound | ListingUnavailable | CategoryProhibited | CategoryNeedsLicence | MultipleMerchants
    | InsufficientStock | InvalidQuantity | MerchantUnavailable | MerchantNotVerified | MerchantWithoutPickup
    | Pricing(error: PricingError) | BadPrice | CheckViolation | KeyViolation | UnknownCustomer | QuantityOutOfRange

  datatype Merchant = Merchant(isActive: bool, kycVerified: bool, hasPickup: bool)

  datatype Command = Command(
    customer: Id, merchantRole: Id, location: Id, paymentMethod: Method, lines: seq<RequestedLine>,
    requestedAdvance: int, deliveryFee: int)

  /** What the ports answer and the identifiers the database generates. */
  datatype Context = Context(
    rows: seq<ListingRow>, merchant: Merchant, sameCity: bool, escrowEnabled: bool, orderId: Id, payId: Id)

  // ---- resolving the cart ----------------------------------------------

  /** `new Map(rows.map(row => [row.id, row]))`. */
  function ById(rows: seq<ListingRow>): map<Id, ListingRow> {
    if rows == [] then map[] else ById(rows[..|rows| - 1])[rows[|rows| - 1].id := rows[|rows| - 1]]
  }

  function ResolveLine(byId: map<Id, ListingRow>, line: RequestedLine): Result<ResolvedLine, CreateError> {
    if line.listingId !in byId then Err(ListingNotFound)
    else
      var row := byId[line.listingId];
      match Money.TakaToPoisha(row.priceBdt)
      case Err(_) => Err(BadPrice)
      case Ok(price) =>
        Ok(ResolvedLine(row.id, line.quantity, price, row.readyToShip, row.ownerRole, row.restricted, row.needsLicence,
                        row.stock, row.isActive))
  }

  function ResolveAll(byId: map<Id, ListingRow>, lines: seq<RequestedLine>): Result<seq<ResolvedLine>, CreateError> {
    if lines == [] then Ok([])
    else match (ResolveLine(byId, lines[0]), ResolveAll(byId, lines[1..]))
      case (Err(e), _) => Err(e)
      case (Ok(_), Err(e)) => Err(e)
      case (Ok(first), Ok(rest)) => Ok([first] + rest)
  }

  function ResolveCartLines(rows: seq<ListingRow>, lines: seq<RequestedLine>): Result<seq<ResolvedLine>, CreateError> {
    ResolveAll(ById(rows), lines)
  }

  /** The rows a `WHERE id = ANY(ids)` query may return: the requested listings, each as catalogued, in any order. */
  ghost predicate Answers(rows: seq<ListingRow>, catalog: map<Id, ListingRow>, lines: seq<RequestedLine>) {
    && (forall i :: 0 <= i < |rows| ==> rows[i].id in catalog && catalog[rows[i].id] == rows[i])
    && (forall i :: 0 <= i < |lines| && lines[i].listingId in catalog ==>
          exists j :: 0 <= j < |rows| && rows[j].id == lines[i].listingId)
  }

  lemma {:induction false} ByIdFinds(rows: seq<ListingRow>, catalog: map<Id, ListingRow>)
    requires forall i :: 0 <= i < |rows| ==> rows[i].id in catalog && catalog[rows[i].id] == rows[i]
    ensures forall id :: id in ById(rows) <==> exists j :: 0 <= j < |rows| && rows[j].id == id
    ensures forall id :: id in ById(rows) ==> id in catalog && ById(rows)[id] == catalog[id]
  {
    if rows != [] {
      var init := rows[..|rows| - 1];
      ByIdFinds(init, catalog);
      forall id
        ensures id in ById(rows) <==> exists j :: 0 <= j < |rows| && rows[j].id == id
      {
        if id in ById(init) {
          var j :| 0 <= j < |init| && init[j].id == id;
          assert rows[j].id == id;
        }
        if j :| 0 <= j < |rows| && rows[j].id == id {
          if j < |init| { assert init[j].id == id; }
        }
      }
    }
  }

  /** Lines come back in request order, each carrying its own listing, whatever order the rows arrived in. */
  lemma {:induction false} ResolvedInOrder(byId: map<Id, ListingRow>, lines: seq<RequestedLine>)
    ensures ResolveAll(byId, lines).Ok? <==> forall i :: 0 <= i < |lines| ==> ResolveLine(byId, lines[i]).Ok?
    ensures ResolveAll(byId, lines).Ok? ==>
              && |ResolveAll(byId, lines).value| == |lines|
              && forall i :: 0 <= i < |lines| ==> ResolveLine(byId, lines[i]) == Ok(ResolveAll(byId, lines).value[i])
  {
    hide ResolveLine;
    if lines != [] {
      ResolvedInOrder(byId, lines[1..]);
      if forall i :: 0 <= i < |lines| ==> ResolveLine(byId, lines[i]).Ok? {
        forall i | 0 <= i < |lines[1..]| ensures ResolveLine(byId, lines[1..][i]).Ok? {
          assert lines[1..][i] == lines[i + 1];
        }
      }
      if ResolveAll(byId, lines).Ok? {
        forall i | 0 <= i < |lines|
          ensures ResolveLine(byId, lines[i]) == Ok(ResolveAll(byId, lines).value[i])
        {
          if i > 0 { assert lines[i] == lines[1..][i - 1]; }
        }
      }
    }
  }

  lemma {:induction false} ResolveDependsOnLookups(a: map<Id, ListingRow>, b: map<Id, ListingRow>, lines: seq<RequestedLine>)
    requires forall i :: 0 <= i < |lines| ==> ResolveLine(a, lines[i]) == ResolveLine(b, lines[i])
    ensures ResolveAll(a, lines) == ResolveAll(b, lines)
  {
    if lines != [] {
      forall i | 0 <= i < |lines[1..]| ensures ResolveLine(a, lines[1..][i]) == ResolveLine(b, lines[1..][i]) {
        assert lines[1..][i] == lines[i + 1];
      }
      ResolveDependsOnLookups(a, b, lines[1..]);
    }
  }

  /** Whatever order the database returns the rows in, the cart resolves as it would against the catalog itself. */
  lemma RowOrderIrrelevant(rows: seq<ListingRow>, catalog: map<Id, ListingRow>, lines: seq<RequestedLine>)
    requires Answers(rows, catalog, lines)
    ensures ResolveCartLines(rows, lines) == ResolveAll(catalog, lines)
  {
    ByIdFinds(rows, catalog);
    forall i | 0 <= i < |lines|
      ensures ResolveLine(ById(rows), lines[i]) == ResolveLine(catalog, lines[i])
    {
      if lines[i].listingId in catalog {
        assert lines[i].listingId in ById(rows);
      }
    }
    ResolveDependsOnLookups(ById(rows), catalog, lines);
  }

  // ---- checking the cart -----------------------------------------------

  function LineProblem(line: ResolvedLine, merchantRole: Id): Option<CreateError> {
    if !line.isActive then Some(ListingUnavailable)
    else if line.restricted then Some(CategoryProhibited)
    else if line.needsLicence then Some(CategoryNeedsLicence)
    else if line.merchantRole != merchantRole then Some(MultipleMerchants)
    else if line.stock.Some? && line.quantity > line.stock.value then Some(InsufficientStock)
    else if line.quantity < 1 then Some(InvalidQuantity)
    else None
  }

  function CartProblem(lines: seq<ResolvedLine>, merchantRole: Id): Option<CreateError> {
    if lines == [] then None
    else if LineProblem(lines[0], merchantRole).Some? then LineProblem(lines[0], merchantRole)
    else CartProblem(lines[1..], merchantRole)
  }

  /** The checking loop: it stops at the first line that has a problem, and answers that problem. */
  method AssertCartIsOrderable(lines: seq<ResolvedLine>, merchantRole: Id) returns (problem: Option<CreateError>)
    ensures problem == CartProblem(lines, merchantRole)
    ensures problem.None? <==> forall i :: 0 <= i < |lines| ==> LineProblem(lines[i], merchantRole).None?
  {
    var i := 0;
    while i < |lines|
      invariant 0 <= i <= |lines|
      invariant forall j :: 0 <= j < i ==> LineProblem(lines[j], merchantRole).None?
      invariant CartProblem(lines, merchantRole) == CartProblem(lines[i..], merchantRole)
    {
      var line := lines[i];
      if !line.isActive { return Some(ListingUnavailable); }
      if line.restricted { return Some(CategoryProhibited); }
      if line.needsLicence { return Some(CategoryNeedsLicence); }
      if line.merchantRole != merchantRole { return Some(MultipleMerchants); }
      if line.stock.Some? && line.quantity > line.stock.value { return Some(InsufficientStock); }
      if line.quantity < 1 { return Some(InvalidQuantity); }
      assert lines[i..][1..] == lines[i + 1..];
      i := i + 1;
    }
    problem := None;
  }

  lemma {:induction false} OrderableCart(lines: seq<ResolvedLine>, merchantRole: Id)
    requires CartProblem(lines, merchantRole).None?
    ensures forall i :: 0 <= i < |lines| ==> LineProblem(lines[i], merchantRole).None?
  {
    if lines != [] {
      OrderableCart(lines[1..], merchantRole);
      forall i | 0 <= i < |lines| ensures LineProblem(lines[i], merchantRole).None? {
        if i > 0 { assert lines[i] == lines[1..][i - 1]; }
      }
    }
  }

  // ---- the order -------------------------------------------------------

  function CartLines(lines: seq<ResolvedLine>): seq<CartLine> {
    seq(|lines|, i requires 0 <= i < |lines| =>
      CartLine(lines[i].listingId, lines[i].quantity, lines[i].unitPrice, lines[i].readyToShip))
  }

  /** Everything decided before the transaction opens. */
  function Plan(cmd: Command, ctx: Context): Result<(seq<ResolvedLine>, Priced), CreateError> {
    if cmd.lines == [] then Err(EmptyOrder)
    else match ResolveCartLines(ctx.rows, cmd.lines)
      case Err(e) => Err(e)
      case Ok(lines) =>
        if CartProblem(lines, cmd.merchantRole).Some? then Err(CartProblem(lines, cmd.merchantRole).value)
        else if !ctx.merchant.isActive then Err(MerchantUnavailable)
        else if !ctx.merchant.kycVerified then Err(MerchantNotVerified)
        else if !ctx.merchant.hasPickup then Err(MerchantWithoutPickup)
        else match PriceOrder(CartLines(lines), cmd.deliveryFee, cmd.requestedAdvance, cmd.paymentMethod, ctx.escrowEnabled)
          case Err(e) => Err(Pricing(e))
          case Ok(priced) => if AllPrintable(lines) then Ok((lines, priced)) else Err(BadPrice)
  }

  /** What an accepted plan stands on. */
  lemma PlanParts(cmd: Command, ctx: Context)
    requires Plan(cmd, ctx).Ok?
    ensures var (lines, p) := Plan(cmd, ctx).value;
            && ResolveCartLines(ctx.rows, cmd.lines) == Ok(lines)
            && CartProblem(lines, cmd.merchantRole).None?
            && PriceOrder(CartLines(lines), cmd.deliveryFee, cmd.requestedAdvance, cmd.paymentMethod, ctx.escrowEnabled) == Ok(p)
            && AllPrintable(lines)
  {
  }

  /** The largest INTEGER, the column type of order_item.quantity. */
  const MAX_INTEGER: int := 2147483647

  /** Every quantity fits its column. (That it is at least one is checked before.) */
  predicate QuantitiesFit(lines: seq<ResolvedLine>) {
    forall i :: 0 <= i < |lines| ==> lines[i].quantity <= MAX_INTEGER
  }

  predicate AllPrintable(lines: seq<ResolvedLine>) {
    forall i :: 0 <= i < |lines| ==> Money.PoishaToTaka(lines[i].unitPrice).Ok?
  }

  function NewItems(lines: seq<ResolvedLine>): seq<ItemRow>
    requires AllPrintable(lines)
  {
    seq(|lines|, i requires 0 <= i < |lines| =>
      ItemRow(lines[i].listingId, lines[i].quantity, Money.PoishaToTaka(lines[i].unitPrice).value, lines[i].readyToShip))
  }

  function NewOrder(cmd: Command, sameCity: bool, p: Priced): OrderRow {
    OrderRow(cmd.customer, cmd.merchantRole, cmd.location, Created, cmd.paymentMethod,
             p.subtotalBdt, p.feeBdt, p.totalBdt, p.advanceBdt, p.capBdt,
             p.cap.reason == EscrowFull, p.cap.allItemsReady, sameCity, None, None)
  }

  function PendingPayment(cmd: Command, orderId: Id, p: Priced): PayRow {
    PayRow(orderId, cmd.paymentMethod, if cmd.paymentMethod == Cod then p.totalBdt else p.advanceBdt, Pending, None,
           cmd.paymentMethod != Cod, None)
  }

  function ConfirmationRow(cmd: Command, user: User, orderId: Id, c: Channel): OutboxRow {
    OutboxRow(cmd.customer, user.phone, user.language, c, TemplateKeyFor(OrderConfirmed),
              map["orderRef" := if |orderId| <= 8 then orderId else orderId[..8]], orderId, Queued, 0)
  }

  /** The five inserts of one new order. */
  function InsertAll(db: Db, orderId: Id, order: OrderRow, items: seq<ItemRow>, payId: Id, payment: PayRow,
                     push: OutboxRow, sms: OutboxRow): Db
  {
    db.(orders := db.orders[orderId := order],
        items := db.items[orderId := items],
        events := db.events[orderId := EventsOf(db.events, orderId) + [EventRow(None, Created, "order.event.created")]],
        payments := db.payments[payId := payment],
        outbox := InsertNotice(InsertNotice(db.outbox, CreatedKey(orderId, Push), push), CreatedKey(orderId, Sms), sms))
  }

  /** The inserts fail in the order they are made: the order row, its items, its payment. Any failure rolls all of them back. */
  function CreateOrder(db: Db, cmd: Command, ctx: Context): Result<Db, CreateError> {
    match Plan(cmd, ctx)
    case Err(e) => Err(e)
    case Ok((lines, priced)) =>
      if priced.subtotal < 0 then Err(CheckViolation)
      else if ctx.orderId in db.orders then Err(KeyViolation)
      else if cmd.customer !in db.users then Err(UnknownCustomer)
      else if !QuantitiesFit(lines) then Err(QuantityOutOfRange)
      else if ctx.payId in db.payments then Err(KeyViolation)
      else
        var user := db.users[cmd.customer];
        Ok(InsertAll(db, ctx.orderId, NewOrder(cmd, ctx.sameCity, priced), NewItems(lines),
                     ctx.payId, PendingPayment(cmd, ctx.orderId, priced),
                     ConfirmationRow(cmd, user, ctx.orderId, Push), ConfirmationRow(cmd, user, ctx.orderId, Sms)))
  }

  /** A created order is its five inserts, on fresh keys, for a known customer. */
  lemma CreatedParts(db: Db, cmd: Command, ctx: Context)
    requires CreateOrder(db, cmd, ctx).Ok?
    ensures Plan(cmd, ctx).Ok? && AllPrintable(Plan(cmd, ctx).value.0)
    ensures ctx.orderId !in db.orders && ctx.payId !in db.payments && cmd.customer in db.users
    ensures var (lines, p) := Plan(cmd, ctx).value;
            var user := db.users[cmd.customer];
            CreateOrder(db, cmd, ctx).value
            == InsertAll(db, ctx.orderId, NewOrder(cmd, ctx.sameCity, p), NewItems(lines), ctx.payId, PendingPayment(cmd, ctx.orderId, p),
                         ConfirmationRow(cmd, user, ctx.orderId, Push), ConfirmationRow(cmd, user, ctx.orderId, Sms))
  {
    hide InsertAll, NewOrder, NewItems, PendingPayment, ConfirmationRow, QuantitiesFit;
    PlanParts(cmd, ctx);
  }

  // ---- what is accepted --------------------------------------------------

  /** A line that may be ordered from this merchant. */
  predicate LineFits(line: ResolvedLine, merchantRole: Id) {
    && line.isActive && !line.restricted && !line.needsLicence && line.merchantRole == merchantRole
    && line.quantity >= 1 && (line.stock.Some? ==> line.quantity <= line.stock.value)
  }

  lemma {:induction false} CartFits(lines: seq<ResolvedLine>, merchantRole: Id)
    ensures CartProblem(lines, merchantRole).None? <==> forall i :: 0 <= i < |lines| ==> LineFits(lines[i], merchantRole)
  {
    if lines != [] {
      CartFits(lines[1..], merchantRole);
      assert lines == [lines[0]] + lines[1..];
    }
  }

  lemma AllPrintableExactly(lines: seq<ResolvedLine>)
    ensures AllPrintable(lines) <==> forall i :: 0 <= i < |lines| ==> Printable(lines[i].unitPrice)
  {
    hide Money.PoishaToTaka, Money.IsCanonical, Money.TakaToPoisha;
    forall i | 0 <= i < |lines| ensures Money.PoishaToTaka(lines[i].unitPrice).Ok? <==> Printable(lines[i].unitPrice) {
      Money.PrintIsCanonical(lines[i].unitPrice);
    }
  }

  /** The part decided before the transaction opens. */
  ghost predicate Plannable(cmd: Command, ctx: Context, lines: seq<ResolvedLine>) {
    && cmd.lines != [] && ResolveCartLines(ctx.rows, cmd.lines) == Ok(lines)
    && (forall i :: 0 <= i < |lines| ==> LineFits(lines[i], cmd.merchantRole))
    && ctx.merchant.isActive && ctx.merchant.kycVerified && ctx.merchant.hasPickup
    && (exists cap :: Acceptable(cap, CartLines(lines), cmd.deliveryFee, cmd.requestedAdvance, cmd.paymentMethod,
                                 ctx.escrowEnabled))
    && (forall i :: 0 <= i < |lines| ==> Printable(lines[i].unitPrice))
  }

  lemma PlannedExactly(cmd: Command, ctx: Context)
    ensures Plan(cmd, ctx).Ok? <==> exists lines :: Plannable(cmd, ctx, lines)
    ensures Plan(cmd, ctx).Ok? ==>
              Plannable(cmd, ctx, Plan(cmd, ctx).value.0)
              && Plan(cmd, ctx).value.1.subtotal == CartSubtotal(CartLines(Plan(cmd, ctx).value.0))
  {
    hide ResolveCartLines, CartProblem, LineFits, PriceOrder, Acceptable, AllPrintable, Printable, CartSubtotal;
    if ResolveCartLines(ctx.rows, cmd.lines).Ok? {
      var lines := ResolveCartLines(ctx.rows, cmd.lines).value;
      CartFits(lines, cmd.merchantRole);
      AllPrintableExactly(lines);
      PricedExactly(CartLines(lines), cmd.deliveryFee, cmd.requestedAdvance, cmd.paymentMethod, ctx.escrowEnabled);
      if Plan(cmd, ctx).Ok? {
        assert Plannable(cmd, ctx, lines);
        SubtotalIs(CartLines(lines), cmd.deliveryFee, cmd.requestedAdvance, cmd.paymentMethod, ctx.escrowEnabled);
      }
    }
  }

  lemma SubtotalIs(lines: seq<CartLine>, fee: int, requested: int, paymentMethod: Method, escrowEnabled: bool)
    requires PriceOrder(lines, fee, requested, paymentMethod, escrowEnabled).Ok?
    ensures PriceOrder(lines, fee, requested, paymentMethod, escrowEnabled).value.subtotal == CartSubtotal(lines)
  {
    hide PriceOrder;
    PricedBasis(lines, fee, requested, paymentMethod, escrowEnabled);
  }

  /** An order is created exactly when all of this holds. */
  ghost predicate Orderable(db: Db, cmd: Command, ctx: Context, lines: seq<ResolvedLine>) {
    && Plannable(cmd, ctx, lines)
    && CartSubtotal(CartLines(lines)) >= 0
    && (forall i :: 0 <= i < |lines| ==> lines[i].quantity <= MAX_INTEGER)
    && ctx.orderId !in db.orders && ctx.payId !in db.payments && cmd.customer in db.users
  }

  lemma PlannableIsPlan(cmd: Command, ctx: Context, lines: seq<ResolvedLine>)
    requires Plannable(cmd, ctx, lines)
    ensures Plan(cmd, ctx).Ok? && Plan(cmd, ctx).value.0 == lines
  {
    hide LineFits, PriceOrder, Acceptable, AllPrintable, Printable, CartSubtotal, ResolveCartLines, CartProblem;
    PlannedExactly(cmd, ctx);
  }

  lemma OrderAcceptedExactly(db: Db, cmd: Command, ctx: Context)
    ensures CreateOrder(db, cmd, ctx).Ok? <==> exists lines :: Orderable(db, cmd, ctx, lines)
  {
    hide Plan, Plannable, InsertAll, CartSubtotal, NewOrder, NewItems, PendingPayment, ConfirmationRow;
    PlannedExactly(cmd, ctx);
    if CreateOrder(db, cmd, ctx).Ok? { assert Orderable(db, cmd, ctx, Plan(cmd, ctx).value.0); }
    if lines :| Orderable(db, cmd, ctx, lines) { PlannableIsPlan(cmd, ctx, lines); }
  }

  /**
   * A quantity the request accepts and the column does not: the order is
   * planned and priced, and its item insert fails.
   */
  lemma QuantityPastColumn(db: Db, cmd: Command, ctx: Context)
    requires Plan(cmd, ctx).Ok? && ctx.orderId !in db.orders && cmd.customer in db.users
    requires Plan(cmd, ctx).value.1.subtotal >= 0
    ensures CreateOrder(db, cmd, ctx) == Err(QuantityOutOfRange) <==> !QuantitiesFit(Plan(cmd, ctx).value.0)
  {
  }

  /** Two billion odd pieces of one listing at 0.01, stock untracked, cash on delivery. */
  function LargeCommand(customer: Id): Command {
    Command(customer, "merchant", "location", Cod, [RequestedLine("listing", MAX_INTEGER + 1)], 0, 0)
  }

  function LargeContext(orderId: Id, payId: Id): Context {
    Context([ListingRow("listing", "merchant", "0.01", true, None, true, false, false)], Merchant(true, true, true), true, false, orderId, payId)
  }

  const LARGE_LINE: ResolvedLine := ResolvedLine("listing", MAX_INTEGER + 1, 1, true, "merchant", false, false, None, true)

  lemma LargeResolves(customer: Id, orderId: Id, payId: Id)
    ensures ResolveCartLines(LargeContext(orderId, payId).rows, LargeCommand(customer).lines) == Ok([LARGE_LINE])
  {
    hide Money.TakaToPoisha;
    Money.OnePoisha();
    var rows, lines := LargeContext(orderId, payId).rows, LargeCommand(customer).lines;
    var row := ListingRow("listing", "merchant", "0.01", true, None, true, false, false);
    assert rows == [row] && rows[..0] == [] && ById(rows[..0]) == map[];
    assert ById(rows) == ById(rows[..0])[row.id := row];
    assert lines[0] == RequestedLine("listing", MAX_INTEGER + 1);
    assert ResolveLine(ById(rows), lines[0])
           == Ok(ResolvedLine("listing", MAX_INTEGER + 1, 1, true, "merchant", false, false, None, true));
    ResolvedInOrder(ById(rows), lines);
    assert |lines| == 1 && ResolveAll(ById(rows), lines).value == [LARGE_LINE];
  }

  lemma LargeCart()
    ensures CartLines([LARGE_LINE]) == [CartLine("listing", MAX_INTEGER + 1, 1, true)]
  {
  }

  lemma LargeSubtotal()
    ensures CartSubtotal(CartLines([LARGE_LINE])) == MAX_INTEGER + 1
  {
    LargeCart();
    var totals := LineTotals(CartLines([LARGE_LINE]));
    assert totals == [MAX_INTEGER + 1];
    assert totals[..|totals| - 1] == [] && Money.Sum([]) == 0;
  }

  /** Such an order is planned, and its item insert fails, on every database that knows the customer. */
  lemma LargeQuantityRefused(db: Db, customer: Id, orderId: Id, payId: Id)
    requires customer in db.users && orderId !in db.orders
    ensures var cmd, ctx := LargeCommand(customer), LargeContext(orderId, payId);
            Plan(cmd, ctx).Ok? && CreateOrder(db, cmd, ctx) == Err(QuantityOutOfRange)
  {
    hide Plan, ResolveCartLines, CartSubtotal, CartLines;
    var cmd, ctx := LargeCommand(customer), LargeContext(orderId, payId);
    var cap := AdvanceCap(MAX_INTEGER + 1, AllItemsReady, true);
    LargeResolves(customer, orderId, payId);
    LargeSubtotal();
    assert CartLines([LARGE_LINE]) == [CartLine("listing", MAX_INTEGER + 1, 1, true)] by { LargeCart(); }
    assert Acceptable(cap, CartLines([LARGE_LINE]), 0, 0, Cod, false);
    assert Plannable(cmd, ctx, [LARGE_LINE]);
    PlannableIsPlan(cmd, ctx, [LARGE_LINE]);
    PlannedExactly(cmd, ctx);
    assert !QuantitiesFit([LARGE_LINE]) by { assert [LARGE_LINE][0].quantity > MAX_INTEGER; }
  }
}
