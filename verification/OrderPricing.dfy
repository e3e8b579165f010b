/**
 * The money and compliance half of order creation: cart subtotal, the
 * advance-payment cap, and the guards a request passes before anything is
 * written. Amounts are exact integers of poisha here.
 */
module OrderPricing {
  import opened Outcomes
  import opened Money

  const STANDARD_ADVANCE_PERCENT: int := 10

  datatype Method = Bkash | Nagad | Cod | Escrow

  datatype CartLine = CartLine(listingId: string, quantity: int, unitPrice: int, readyToShip: bool)

  datatype CapReason = EscrowFull | AllItemsReady | StandardCap

  datatype AdvanceCap = AdvanceCap(cap: int, reason: CapReason, allItemsReady: bool)

  datatype PricingError = EmptyCart | NegativeAdvance | AdvanceExceedsCap | CodWithAdvance | BadMoney(error: MoneyError)

  /** What the order row and the pending payment row are filled from. */
  datatype Priced = Priced(
    subtotal: int, total: int, cap: AdvanceCap,
    subtotalBdt: string, feeBdt: string, totalBdt: string, advanceBdt: string, capBdt: string)

  function LineTotals(lines: seq<CartLine>): seq<int> {
    seq(|lines|, i requires 0 <= i < |lines| => lines[i].unitPrice * lines[i].quantity)
  }

  function CartSubtotal(lines: seq<CartLine>): int {
    Sum(LineTotals(lines))
  }

  predicate AllReady(lines: seq<CartLine>) {
    forall i :: 0 <= i < |lines| ==> lines[i].readyToShip
  }

  function ComputeAdvanceCap(lines: seq<CartLine>, total: int, isEscrow: bool): Result<AdvanceCap, PricingError> {
    if lines == [] then Err(EmptyCart)
    else if isEscrow then Ok(AdvanceCap(total, EscrowFull, AllReady(lines)))
    else if AllReady(lines) then Ok(AdvanceCap(total, AllItemsReady, true))
    else match PercentageOf(total, STANDARD_ADVANCE_PERCENT)
      case Ok(cap) => Ok(AdvanceCap(cap, StandardCap, false))
      case Err(e) => Err(BadMoney(e))
  }

  function CheckAdvance(requested: int, cap: AdvanceCap, paymentMethod: Method): Result<(), PricingError> {
    if requested < 0 then Err(NegativeAdvance)
    else if requested > cap.cap then Err(AdvanceExceedsCap)
    else if paymentMethod == Cod && requested != 0 then Err(CodWithAdvance)
    else Ok(())
  }

  /** The NUMERIC(12,2) texts of the record; any amount out of range stops the order. */
  function Texts(subtotal: int, fee: int, total: int, requested: int, cap: AdvanceCap): Result<Priced, PricingError> {
    match (PoishaToTaka(subtotal), PoishaToTaka(fee), PoishaToTaka(total), PoishaToTaka(requested), PoishaToTaka(cap.cap))
    case (Ok(s), Ok(f), Ok(t), Ok(a), Ok(c)) => Ok(Priced(subtotal, total, cap, s, f, t, a, c))
    case _ => Err(BadMoney(ExceedsNumeric))
  }

  /** Everything after the sums: cap, guards, texts. */
  function Decide(lines: seq<CartLine>, subtotal: int, fee: int, total: int, requested: int, paymentMethod: Method,
                  isEscrow: bool): Result<Priced, PricingError>
  {
    match ComputeAdvanceCap(lines, total, isEscrow)
    case Err(e) => Err(e)
    case Ok(cap) =>
      match CheckAdvance(requested, cap, paymentMethod)
      case Err(e) => Err(e)
      case Ok(_) => Texts(subtotal, fee, total, requested, cap)
  }

  function PriceOrder(lines: seq<CartLine>, fee: int, requested: int, paymentMethod: Method, escrowEnabled: bool)
    : Result<Priced, PricingError>
  {
    var subtotal := CartSubtotal(lines);
    var total := Sum([subtotal, fee]);
    Decide(lines, subtotal, fee, total, requested, paymentMethod, paymentMethod == Escrow && escrowEnabled)
  }

  lemma SumOfTwo(a: int, b: int)
    ensures Sum([a, b]) == a + b
  {
    assert [a, b][..1] == [a] && [a][..0] == [];
    assert Sum([a]) == Sum([a][..0]) + a;
  }

  /** What the cap is by law: everything, or the largest whole poisha not above ten percent. */
  ghost predicate IsLegalCap(cap: AdvanceCap, lines: seq<CartLine>, total: int, isEscrow: bool) {
    && (cap.allItemsReady <==> AllReady(lines))
    && (cap.reason == EscrowFull <==> isEscrow)
    && (if isEscrow || AllReady(lines) then cap.cap == total
        else 100 * cap.cap <= 10 * total < 100 * (cap.cap + 1))
  }

  lemma CapIsLegal(lines: seq<CartLine>, total: int, isEscrow: bool)
    requires ComputeAdvanceCap(lines, total, isEscrow).Ok?
    ensures lines != [] && IsLegalCap(ComputeAdvanceCap(lines, total, isEscrow).value, lines, total, isEscrow)
    ensures ComputeAdvanceCap(lines, total, isEscrow).value.reason
            == if isEscrow then EscrowFull else if AllReady(lines) then AllItemsReady else StandardCap
  {
  }

  /** `round(total * 0.10, 2)` of the schema's notes, in poisha: to the nearest, halves away from zero. */
  function RoundedTenth(total: int): int {
    if total >= 0 then (total + 5) / 10 else -((-total + 5) / 10)
  }

  /** The cap the schema's notes describe. */
  function DocumentedCap(lines: seq<CartLine>, total: int, isEscrow: bool): int {
    if isEscrow || AllReady(lines) then total else RoundedTenth(total)
  }

  /** The computed cap is the documented one exactly when the whole total is allowed, or its last digit does not round up. */
  lemma CapAsDocumentedExactly(lines: seq<CartLine>, total: int, isEscrow: bool)
    requires lines != []
    ensures ComputeAdvanceCap(lines, total, isEscrow).Ok?
    ensures ComputeAdvanceCap(lines, total, isEscrow).value.cap == DocumentedCap(lines, total, isEscrow) <==>
            isEscrow || AllReady(lines) || total % 10 < 5 || (total < 0 && total % 10 == 5)
    ensures ComputeAdvanceCap(lines, total, isEscrow).value.cap <= DocumentedCap(lines, total, isEscrow)
  {
    CapExists(lines, total, isEscrow);
    FlooredAgainstRounded(total);
  }

  lemma FlooredAgainstRounded(total: int)
    ensures total * STANDARD_ADVANCE_PERCENT / 100 == total / 10
    ensures total / 10 == RoundedTenth(total) <==> total % 10 < 5 || (total < 0 && total % 10 == 5)
    ensures total / 10 <= RoundedTenth(total)
  {
  }

  /** Five poisha that are not all ready: the code caps the advance at nothing, the notes at one poisha. */
  lemma CapFlooredNotRounded(line: CartLine)
    requires !line.readyToShip
    ensures ComputeAdvanceCap([line], 5, false).Ok?
    ensures ComputeAdvanceCap([line], 5, false).value.cap == 0 && DocumentedCap([line], 5, false) == 1
  {
    assert !AllReady([line]) by { assert !([line][0]).readyToShip; }
  }

  lemma TextsReadBack(subtotal: int, fee: int, total: int, requested: int, cap: AdvanceCap)
    requires Texts(subtotal, fee, total, requested, cap).Ok?
    ensures var p := Texts(subtotal, fee, total, requested, cap).value;
            && p.subtotal == subtotal && p.total == total && p.cap == cap
            && TakaToPoisha(p.subtotalBdt) == Ok(subtotal) && TakaToPoisha(p.feeBdt) == Ok(fee)
            && TakaToPoisha(p.totalBdt) == Ok(total) && TakaToPoisha(p.advanceBdt) == Ok(requested)
            && TakaToPoisha(p.capBdt) == Ok(cap.cap) && total <= MAX_POISHA
  {
    hide TakaToPoisha, PoishaToTaka, IsCanonical;
    PrintIsCanonical(subtotal);
    PrintIsCanonical(fee);
    PrintIsCanonical(total);
    PrintIsCanonical(requested);
    PrintIsCanonical(cap.cap);
  }

  /** Every accepted order stands on the legal basis, and its texts read back as its amounts. */
  lemma PricedBasis(lines: seq<CartLine>, fee: int, requested: int, paymentMethod: Method, escrowEnabled: bool)
    requires PriceOrder(lines, fee, requested, paymentMethod, escrowEnabled).Ok?
    ensures var p := PriceOrder(lines, fee, requested, paymentMethod, escrowEnabled).value;
            && lines != []
            && p.subtotal == CartSubtotal(lines) && p.total == p.subtotal + fee
            && IsLegalCap(p.cap, lines, p.total, paymentMethod == Escrow && escrowEnabled)
            && 0 <= requested <= p.cap.cap && p.cap.cap <= p.total
            && (paymentMethod == Cod ==> requested == 0)
            && TakaToPoisha(p.subtotalBdt) == Ok(p.subtotal) && TakaToPoisha(p.feeBdt) == Ok(fee)
            && TakaToPoisha(p.totalBdt) == Ok(p.total) && TakaToPoisha(p.advanceBdt) == Ok(requested)
            && TakaToPoisha(p.capBdt) == Ok(p.cap.cap) && 0 <= p.total <= MAX_POISHA
  {
    hide TakaToPoisha, Texts, ComputeAdvanceCap, CartSubtotal, Sum;
    var subtotal := CartSubtotal(lines);
    var isEscrow := paymentMethod == Escrow && escrowEnabled;
    SumOfTwo(subtotal, fee);
    CapIsLegal(lines, subtotal + fee, isEscrow);
    var cap := ComputeAdvanceCap(lines, subtotal + fee, isEscrow).value;
    TextsReadBack(subtotal, fee, subtotal + fee, requested, cap);
  }

  predicate Printable(p: int) {
    -MAX_POISHA <= p <= MAX_POISHA
  }

  lemma TextsExactly(subtotal: int, fee: int, total: int, requested: int, cap: AdvanceCap)
    ensures Texts(subtotal, fee, total, requested, cap).Ok? <==>
            Printable(subtotal) && Printable(fee) && Printable(total) && Printable(requested) && Printable(cap.cap)
  {
    hide PoishaToTaka, IsCanonical, TakaToPoisha;
    PrintIsCanonical(subtotal);
    PrintIsCanonical(fee);
    PrintIsCanonical(total);
    PrintIsCanonical(requested);
    PrintIsCanonical(cap.cap);
  }

  lemma LegalCapUnique(a: AdvanceCap, b: AdvanceCap, lines: seq<CartLine>, total: int, isEscrow: bool)
    requires IsLegalCap(a, lines, total, isEscrow) && IsLegalCap(b, lines, total, isEscrow)
    ensures a.cap == b.cap
  {
  }

  /** A request within the legal cap, on a cart that has lines, with every amount in range. */
  ghost predicate Acceptable(cap: AdvanceCap, lines: seq<CartLine>, fee: int, requested: int, paymentMethod: Method,
                             escrowEnabled: bool)
  {
    var total := CartSubtotal(lines) + fee;
    && lines != [] && IsLegalCap(cap, lines, total, paymentMethod == Escrow && escrowEnabled)
    && 0 <= requested <= cap.cap && (paymentMethod == Cod ==> requested == 0)
    && Printable(CartSubtotal(lines)) && Printable(fee) && Printable(total) && Printable(requested) && Printable(cap.cap)
  }

  /** An order is priced exactly when the law's cap for its cart allows the request and every amount fits NUMERIC(12,2). */
  lemma PricedExactly(lines: seq<CartLine>, fee: int, requested: int, paymentMethod: Method, escrowEnabled: bool)
    ensures PriceOrder(lines, fee, requested, paymentMethod, escrowEnabled).Ok? <==>
            exists cap :: Acceptable(cap, lines, fee, requested, paymentMethod, escrowEnabled)
  {
    hide CartSubtotal, Sum, Texts, IsLegalCap, AllReady;
    var subtotal, isEscrow := CartSubtotal(lines), paymentMethod == Escrow && escrowEnabled;
    SumOfTwo(subtotal, fee);
    if lines != [] {
      CapExists(lines, subtotal + fee, isEscrow);
      var c := ComputeAdvanceCap(lines, subtotal + fee, isEscrow).value;
      TextsExactly(subtotal, fee, subtotal + fee, requested, c);
      if PriceOrder(lines, fee, requested, paymentMethod, escrowEnabled).Ok? {
        assert Acceptable(c, lines, fee, requested, paymentMethod, escrowEnabled);
      }
      if cap :| Acceptable(cap, lines, fee, requested, paymentMethod, escrowEnabled) {
        LegalCapUnique(cap, c, lines, subtotal + fee, isEscrow);
      }
    }
  }

  lemma CapExists(lines: seq<CartLine>, total: int, isEscrow: bool)
    requires lines != []
    ensures ComputeAdvanceCap(lines, total, isEscrow).Ok?
    ensures IsLegalCap(ComputeAdvanceCap(lines, total, isEscrow).value, lines, total, isEscrow)
  {
    CapIsLegal(lines, total, isEscrow);
  }
}
