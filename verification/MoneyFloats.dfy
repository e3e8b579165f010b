/**
 * The same money code on IEEE-754 doubles. A double operation is the exact
 * real operation followed by a rounding function `rnd`, of which only three
 * facts are used: it is monotone, it is exact on the integers up to 2^53, and
 * its relative error is at most 2^-53 away from zero. Every refinement below
 * therefore holds for round-to-nearest-even and for any other such rounding.
 */
module MoneyFloats {
  import opened Outcomes
  import opened Decimal
  import opened Money
  import opened OrderPricing

  const TWO53: int := 9007199254740992

  ghost predicate IsRounding(rnd: real -> real) {
    && (forall x, y :: Monotone(rnd, x, y))
    && (forall x :: ExactOnSmallIntegers(rnd, x))
    && (forall x :: RelativeError(rnd, x))
  }

  predicate Monotone(rnd: real -> real, x: real, y: real) {
    x <= y ==> rnd(x) <= rnd(y)
  }

  predicate ExactOnSmallIntegers(rnd: real -> real, x: real) {
    IsInteger(x) && -9007199254740992 as real <= x <= 9007199254740992 as real ==> rnd(x) == x
  }

  predicate RelativeError(rnd: real -> real, x: real) {
    x >= 0.001 || x <= -0.001 ==> rnd(x) - x <= AbsF(x) / 9007199254740992 as real
  }

  /** `Number.isInteger`. */
  predicate IsInteger(x: real) {
    x == x.Floor as real
  }

  function Cut(x: real): real {
    x.Floor as real
  }

  /** What is asked of rounding is met by functions that do round, such as cutting off every fraction. */
  lemma CuttingOffRounds()
    ensures IsRounding(Cut)
  {
    hide Cut, Monotone, ExactOnSmallIntegers, RelativeError;
    forall x ensures ExactOnSmallIntegers(Cut, x) && RelativeError(Cut, x) { CutAt(x); }
    forall x, y ensures Monotone(Cut, x, y) { CutInOrder(x, y); }
  }

  lemma CutInOrder(x: real, y: real)
    ensures Monotone(Cut, x, y)
  {
    if x <= y { FloorsInOrder(x, y); }
  }

  lemma FloorsInOrder(x: real, y: real)
    requires x <= y
    ensures x.Floor as real <= y.Floor as real
  {
    var i, j := x.Floor, y.Floor;
    assert i as real <= x && y < (j + 1) as real;
    assert (i as real) < (j + 1) as real;
    assert i < j + 1;
  }

  lemma CutAt(x: real)
    ensures ExactOnSmallIntegers(Cut, x) && RelativeError(Cut, x)
  {
    assert Cut(x) <= x;
    NonNegativePart(AbsF(x));
    hide AbsF;
  }

  lemma NonNegativePart(x: real)
    requires x >= 0.0
    ensures x / 9007199254740992 as real >= 0.0
  {
  }

  // ---- money.ts on doubles ---------------------------------------------

  function TakaToPoishaF(rnd: real -> real, amount: string): Result<int, MoneyError> {
    var t := Trim(amount);
    if !WellFormed(t) then Err(NotAnAmount)
    else if !NoSubPoisha(FractionPart(t)) then Err(SubPoisha)
    else
      var whole := rnd(DigitsValue(WholePart(t)) as real);
      var poisha := rnd(rnd(whole * 100.0) + DigitsValue(PaddedFraction(FractionPart(t))) as real);
      if !IsInteger(poisha) || poisha > MAX_SAFE as real || poisha < -MAX_SAFE as real then Err(OutOfSafeRange)
      else Ok(if IsNegative(t) then -poisha.Floor else poisha.Floor)
  }

  function AbsF(x: real): real {
    if x < 0.0 then -x else x
  }

  function PoishaToTakaF(rnd: real -> real, poisha: real): Result<string, MoneyError> {
    if !IsInteger(poisha) then Err(NotInteger)
    else
      var whole := rnd(AbsF(poisha) / 100.0).Floor;
      if whole < 0 || whole > MAX_WHOLE then Err(ExceedsNumeric)
      else Ok((if poisha < 0.0 then "-" else "") + NatText(whole) + "." + TwoDigits(AbsF(poisha).Floor % 100))
  }

  function PercentageOfF(rnd: real -> real, amount: real, percent: int): Result<int, MoneyError> {
    if !IsInteger(amount) then Err(NotInteger)
    else if !(0 <= percent <= 100) then Err(BadPercent)
    else Ok(Hundredths(rnd, Times(amount, percent as real)))
  }

  function Times(x: real, y: real): real {
    x * y
  }

  /** `Math.floor(x / 100)` of the rounded product. */
  function Hundredths(rnd: real -> real, x: real): int {
    rnd(rnd(x) / 100.0).Floor
  }

  /** `reduce` over the amounts, oldest first; `|amounts|` steps done. */
  function SumF(rnd: real -> real, amounts: seq<real>): Result<real, MoneyError> {
    if amounts == [] then Ok(0.0)
    else match SumF(rnd, amounts[..|amounts| - 1])
      case Err(e) => Err(e)
      case Ok(total) =>
        var amount := amounts[|amounts| - 1];
        if !IsInteger(amount) then Err(NotInteger) else Ok(rnd(total + amount))
  }

  function LineTotalsF(rnd: real -> real, lines: seq<CartLine>): seq<real> {
    seq(|lines|, i requires 0 <= i < |lines| => rnd(lines[i].unitPrice as real * lines[i].quantity as real))
  }

  function ComputeAdvanceCapF(rnd: real -> real, lines: seq<CartLine>, total: real, isEscrow: bool)
    : Result<(real, CapReason, bool), PricingError>
  {
    if lines == [] then Err(EmptyCart)
    else if isEscrow then Ok((total, EscrowFull, AllReady(lines)))
    else if AllReady(lines) then Ok((total, AllItemsReady, true))
    else match PercentageOfF(rnd, total, STANDARD_ADVANCE_PERCENT)
      case Ok(cap) => Ok((cap as real, StandardCap, false))
      case Err(e) => Err(BadMoney(e))
  }

  function CheckAdvanceF(requested: int, cap: real, paymentMethod: Method): Result<(), PricingError> {
    if requested < 0 then Err(NegativeAdvance)
    else if requested as real > cap then Err(AdvanceExceedsCap)
    else if paymentMethod == Cod && requested != 0 then Err(CodWithAdvance)
    else Ok(())
  }

  function TextsF(rnd: real -> real, subtotal: real, fee: int, total: real, requested: int, cap: (real, CapReason, bool))
    : Result<Priced, PricingError>
  {
    match (PoishaToTakaF(rnd, subtotal), PoishaToTakaF(rnd, fee as real), PoishaToTakaF(rnd, total),
           PoishaToTakaF(rnd, requested as real), PoishaToTakaF(rnd, cap.0))
    case (Ok(s), Ok(f), Ok(t), Ok(a), Ok(c)) =>
      Ok(Priced(subtotal.Floor, total.Floor, AdvanceCap(cap.0.Floor, cap.1, cap.2), s, f, t, a, c))
    case _ => Err(BadMoney(ExceedsNumeric))
  }

  function DecideF(rnd: real -> real, lines: seq<CartLine>, subtotal: real, fee: int, total: real, requested: int,
                   paymentMethod: Method, isEscrow: bool): Result<Priced, PricingError>
  {
    match ComputeAdvanceCapF(rnd, lines, total, isEscrow)
    case Err(e) => Err(e)
    case Ok(cap) =>
      match CheckAdvanceF(requested, cap.0, paymentMethod)
      case Err(e) => Err(e)
      case Ok(_) => TextsF(rnd, subtotal, fee, total, requested, cap)
  }

  function PriceOrderF(rnd: real -> real, lines: seq<CartLine>, fee: int, requested: int, paymentMethod: Method,
                       escrowEnabled: bool): Result<Priced, PricingError>
  {
    match SumF(rnd, LineTotalsF(rnd, lines))
    case Err(e) => Err(BadMoney(e))
    case Ok(subtotal) =>
      match SumF(rnd, [subtotal, fee as real])
      case Err(e) => Err(BadMoney(e))
      case Ok(total) =>
        DecideF(rnd, lines, subtotal, fee, total, requested, paymentMethod, paymentMethod == Escrow && escrowEnabled)
  }

  // ---- when a double is the integer it stands for -----------------------

  /** x is the integer n, or n is past 2^53 and x is at least 2^53. */
  ghost predicate Agrees(x: real, n: int) {
    if n <= 9007199254740992 then x == n as real else x >= 9007199254740992 as real
  }

  /** Rounding a non-negative value that agrees with n keeps agreeing with n. */
  lemma RoundAgrees(rnd: real -> real, x: real, n: int)
    requires IsRounding(rnd) && Agrees(x, n) && n >= 0
    ensures Agrees(rnd(x), n)
  {
    assert ExactOnSmallIntegers(rnd, x);
    assert ExactOnSmallIntegers(rnd, TWO53 as real);
    assert Monotone(rnd, TWO53 as real, x);
  }

  lemma AddAgrees(rnd: real -> real, x: real, m: int, y: real, n: int)
    requires IsRounding(rnd) && Agrees(x, m) && Agrees(y, n) && m >= 0 && n >= 0
    ensures Agrees(rnd(x + y), m + n)
  {
    if m <= TWO53 && n <= TWO53 {
      assert x + y == (m + n) as real;
    }
    RoundAgrees(rnd, x + y, m + n);
  }

  lemma {:induction false} RealProduct(a: int, b: int)
    requires b >= 0
    ensures a as real * b as real == (a * b) as real
  {
    if b > 0 {
      RealProduct(a, b - 1);
      assert a * b == a * (b - 1) + a;
      assert a as real * b as real == a as real * (b - 1) as real + a as real;
    }
  }

  /** The exact quotient of an integer below 2^53 by 100, rounded and floored, is the integer quotient. */
  lemma FloorOfHundredths(rnd: real -> real, a: int)
    requires IsRounding(rnd) && -TWO53 < a < TWO53
    ensures rnd(a as real / 100.0).Floor == a / 100
  {
    var k, x := a / 100, a as real / 100.0;
    assert k as real <= x <= k as real + 0.99 by {
      assert 100 * k <= a <= 100 * k + 99;
    }
    assert Monotone(rnd, k as real, x) && ExactOnSmallIntegers(rnd, k as real);
    assert RelativeError(rnd, x);
    if a != 0 {
      assert AbsF(x) >= 0.001;
      assert AbsF(x) < TWO53 as real / 100.0;
      assert AbsF(x) / TWO53 as real < 0.01;
    } else {
      assert x == 0.0 && IsInteger(x);
    }
    assert rnd(x) < (k + 1) as real;
  }

  /** takaToPoisha on doubles answers what it answers on exact integers, for every string. */
  lemma ParseRefines(rnd: real -> real, amount: string)
    requires IsRounding(rnd)
    ensures TakaToPoishaF(rnd, amount) == TakaToPoisha(amount)
  {
    var t := Trim(amount);
    if WellFormed(t) && NoSubPoisha(FractionPart(t)) {
      var w, f := DigitsValue(WholePart(t)), DigitsValue(PaddedFraction(FractionPart(t)));
      RoundAgrees(rnd, w as real, w);
      var whole := rnd(w as real);
      DigitsValueBound(PaddedFraction(FractionPart(t)));
      if w <= TWO53 {
        assert whole * 100.0 == (w * 100) as real;
      }
      assert Agrees(whole * 100.0, w * 100);
      RoundAgrees(rnd, whole * 100.0, w * 100);
      assert f < 100 by { assert Pow10(1) == 10 * Pow10(0) && Pow10(2) == 10 * Pow10(1); }
      AddAgrees(rnd, rnd(whole * 100.0), w * 100, f as real, f);
      assert Magnitude(WholePart(t), FractionPart(t)) == w * 100 + f;
    }
  }

  /** poishaToTaka on doubles: a value that agrees with n prints as n does, or neither prints. */
  lemma PrintRefines(rnd: real -> real, x: real, n: int)
    requires IsRounding(rnd) && Agrees(x, n) && n >= 0
    ensures PoishaToTakaF(rnd, x).Ok? <==> PoishaToTaka(n).Ok?
    ensures PoishaToTaka(n).Ok? ==> n <= MAX_POISHA && x == n as real && PoishaToTakaF(rnd, x) == PoishaToTaka(n)
  {
    if n <= MAX_POISHA {
      FloorOfHundredths(rnd, n);
    } else {
      assert Monotone(rnd, 10000000000 as real, x / 100.0) && ExactOnSmallIntegers(rnd, 10000000000 as real);
      assert x >= (MAX_POISHA + 1) as real;
      assert x / 100.0 >= 10000000000 as real;
    }
  }

  /** The printer on doubles prints every safe amount, negative ones too, as the exact printer does. */
  lemma SignedPrintRefines(rnd: real -> real, p: int)
    requires IsRounding(rnd) && -TWO53 <= p <= TWO53
    ensures PoishaToTakaF(rnd, p as real).Ok? <==> PoishaToTaka(p).Ok?
    ensures PoishaToTaka(p).Ok? ==> PoishaToTakaF(rnd, p as real) == PoishaToTaka(p)
  {
    hide IsRounding, NatText, TwoDigits;
    PrintRefines(rnd, Abs(p) as real, Abs(p));
    assert IsInteger(p as real) && IsInteger(Abs(p) as real);
    assert AbsF(p as real) == Abs(p) as real == AbsF(Abs(p) as real);
    assert PoishaToTaka(p).Ok? <==> PoishaToTaka(Abs(p)).Ok?;
    if PoishaToTaka(p).Ok? {
      assert rnd(Abs(p) as real / 100.0).Floor == Abs(p) / 100 by { FloorOfHundredths(rnd, Abs(p)); }
    }
  }

  /** On doubles, parsing inverts printing for every amount the schema can hold. */
  lemma FloatRoundTrip(rnd: real -> real, p: int)
    requires IsRounding(rnd) && -999999999999 <= p <= 999999999999
    ensures PoishaToTakaF(rnd, p as real).Ok? && TakaToPoishaF(rnd, PoishaToTakaF(rnd, p as real).value) == Ok(p)
  {
    hide IsRounding, TakaToPoisha, TakaToPoishaF, PoishaToTaka, PoishaToTakaF;
    SignedPrintRefines(rnd, p);
    RoundTrip(p);
    ParseRefines(rnd, PoishaToTaka(p).value);
  }

  /** percentageOf on doubles is the exact integer floor, of negative amounts too, while the product stays below 2^53. */
  lemma PercentageRefines(rnd: real -> real, amount: int, percent: int)
    requires IsRounding(rnd) && -9007199254740992 < amount * percent < 9007199254740992
    ensures PercentageOfF(rnd, amount as real, percent) == PercentageOf(amount, percent)
  {
    hide IsRounding, Hundredths, Times;
    assert IsInteger(amount as real);
    if 0 <= percent <= 100 {
      assert Times(amount as real, percent as real) == (amount * percent) as real by { RealTimes(amount, percent); }
      RoundedPercentage(rnd, (amount * percent) as real, amount * percent);
    }
  }

  lemma RealTimes(a: int, b: int)
    requires b >= 0
    ensures Times(a as real, b as real) == (a * b) as real
  {
    RealProduct(a, b);
  }

  lemma RoundedPercentage(rnd: real -> real, x: real, product: int)
    requires IsRounding(rnd) && x == product as real && -TWO53 < product < TWO53
    ensures Hundredths(rnd, x) == product / 100
  {
    assert ExactOnSmallIntegers(rnd, x);
    FloorOfHundredths(rnd, product);
  }

  // ---- the whole pricing path ------------------------------------------

  ghost predicate SumAgrees(r: Result<real, MoneyError>, n: int) {
    match r
    case Ok(x) => Agrees(x, n)
    case Err(_) => n > TWO53
  }

  lemma {:induction false} SumRefines(rnd: real -> real, xs: seq<real>, ns: seq<int>)
    requires IsRounding(rnd) && |xs| == |ns|
    requires forall i :: 0 <= i < |ns| ==> ns[i] >= 0 && Agrees(xs[i], ns[i])
    ensures Sum(ns) >= 0 && SumAgrees(SumF(rnd, xs), Sum(ns))
  {
    if xs != [] {
      var k := |xs| - 1;
      SumRefines(rnd, xs[..k], ns[..k]);
      if SumF(rnd, xs[..k]).Ok? {
        AddAgrees(rnd, SumF(rnd, xs[..k]).value, Sum(ns[..k]), xs[k], ns[k]);
      }
      if ns[k] <= TWO53 { assert IsInteger(xs[k]); }
    }
  }

  lemma LineTotalsAgree(rnd: real -> real, lines: seq<CartLine>)
    requires IsRounding(rnd)
    requires forall i :: 0 <= i < |lines| ==> lines[i].unitPrice >= 0 && lines[i].quantity >= 1
    ensures forall i :: 0 <= i < |lines| ==> LineTotals(lines)[i] >= 0 && Agrees(LineTotalsF(rnd, lines)[i], LineTotals(lines)[i])
  {
    forall i | 0 <= i < |lines|
      ensures LineTotals(lines)[i] >= 0 && Agrees(LineTotalsF(rnd, lines)[i], LineTotals(lines)[i])
    {
      var p, q := lines[i].unitPrice, lines[i].quantity;
      assert p * q >= 0;
      RealProduct(p, q);
      RoundAgrees(rnd, (p * q) as real, p * q);
    }
  }

  /** The cap and the guards, once subtotal and total are known to be exact and in range. */
  lemma CapRefines(rnd: real -> real, lines: seq<CartLine>, total: int, isEscrow: bool)
    requires IsRounding(rnd) && 0 <= total <= MAX_POISHA
    ensures match (ComputeAdvanceCapF(rnd, lines, total as real, isEscrow), ComputeAdvanceCap(lines, total, isEscrow))
            case (Ok(f), Ok(c)) => f == (c.cap as real, c.reason, c.allItemsReady)
            case (Err(f), Err(c)) => f == c
            case _ => false
  {
    PercentageRefines(rnd, total, STANDARD_ADVANCE_PERCENT);
  }

  lemma TextsRefine(rnd: real -> real, subtotal: int, fee: int, total: int, requested: int, cap: AdvanceCap)
    requires IsRounding(rnd) && subtotal >= 0 && fee >= 0 && total >= 0 && requested >= 0 && cap.cap >= 0
    requires subtotal <= TWO53 && fee <= TWO53 && total <= TWO53 && requested <= TWO53 && cap.cap <= TWO53
    ensures TextsF(rnd, subtotal as real, fee, total as real, requested, (cap.cap as real, cap.reason, cap.allItemsReady))
            == Texts(subtotal, fee, total, requested, cap)
  {
    PrintRefines(rnd, subtotal as real, subtotal);
    PrintRefines(rnd, fee as real, fee);
    PrintRefines(rnd, total as real, total);
    PrintRefines(rnd, requested as real, requested);
    PrintRefines(rnd, cap.cap as real, cap.cap);
  }

  lemma CapLegalRange(lines: seq<CartLine>, total: int, isEscrow: bool)
    requires 0 <= total && ComputeAdvanceCap(lines, total, isEscrow).Ok?
    ensures 0 <= ComputeAdvanceCap(lines, total, isEscrow).value.cap <= total
  {
    CapIsLegal(lines, total, isEscrow);
  }

  lemma DecideRefines(rnd: real -> real, lines: seq<CartLine>, subtotal: int, fee: int, requested: int,
                      paymentMethod: Method, isEscrow: bool)
    requires IsRounding(rnd) && 0 <= subtotal && 0 <= fee && subtotal + fee <= MAX_POISHA
    ensures DecideF(rnd, lines, subtotal as real, fee, (subtotal + fee) as real, requested, paymentMethod, isEscrow)
            == Decide(lines, subtotal, fee, subtotal + fee, requested, paymentMethod, isEscrow)
  {
    hide IsRounding, ComputeAdvanceCap, ComputeAdvanceCapF, Texts, TextsF;
    var total := subtotal + fee;
    CapRefines(rnd, lines, total, isEscrow);
    if ComputeAdvanceCap(lines, total, isEscrow).Ok? {
      CapLegalRange(lines, total, isEscrow);
      var cap := ComputeAdvanceCap(lines, total, isEscrow).value;
      var capF := ComputeAdvanceCapF(rnd, lines, total as real, isEscrow).value;
      assert CheckAdvanceF(requested, capF.0, paymentMethod) == CheckAdvance(requested, cap, paymentMethod);
      if CheckAdvance(requested, cap, paymentMethod).Ok? {
        TextsRefine(rnd, subtotal, fee, total, requested, cap);
        var texts := Texts(subtotal, fee, total, requested, cap);
        assert Decide(lines, subtotal, fee, total, requested, paymentMethod, isEscrow) == texts;
        assert DecideF(rnd, lines, subtotal as real, fee, total as real, requested, paymentMethod, isEscrow) == texts;
      }
    }
  }

  /** A total out of range stops the order on either arithmetic. */
  lemma OutOfRangeRejected(rnd: real -> real, lines: seq<CartLine>, x: real, fee: int, y: real, total: int,
                           requested: int, paymentMethod: Method, isEscrow: bool)
    requires IsRounding(rnd) && total > MAX_POISHA && Agrees(y, total)
    ensures DecideF(rnd, lines, x, fee, y, requested, paymentMethod, isEscrow).Err?
  {
    PrintRefines(rnd, y, total);
  }

  lemma ExactOutOfRangeRejected(lines: seq<CartLine>, subtotal: int, fee: int, total: int, requested: int,
                                paymentMethod: Method, isEscrow: bool)
    requires total > MAX_POISHA
    ensures Decide(lines, subtotal, fee, total, requested, paymentMethod, isEscrow).Err?
  {
    PrintIsCanonical(total);
  }

  lemma InRangeSums(rnd: real -> real, lines: seq<CartLine>, fee: int)
    requires IsRounding(rnd) && fee >= 0 && CartSubtotal(lines) + fee <= MAX_POISHA
    requires forall i :: 0 <= i < |lines| ==> lines[i].unitPrice >= 0 && lines[i].quantity >= 1
    ensures CartSubtotal(lines) >= 0
    ensures SumF(rnd, LineTotalsF(rnd, lines)) == Ok(CartSubtotal(lines) as real)
    ensures SumF(rnd, [CartSubtotal(lines) as real, fee as real]) == Ok((CartSubtotal(lines) + fee) as real)
  {
    LineTotalsAgree(rnd, lines);
    SumRefines(rnd, LineTotalsF(rnd, lines), LineTotals(lines));
    var s := CartSubtotal(lines);
    SumOfTwo(s, fee);
    SumRefines(rnd, [s as real, fee as real], [s, fee]);
  }

  lemma OutOfRange(rnd: real -> real, lines: seq<CartLine>, fee: int, requested: int, paymentMethod: Method,
                   escrowEnabled: bool)
    requires IsRounding(rnd) && 0 <= fee <= TWO53 && CartSubtotal(lines) + fee > MAX_POISHA
    requires forall i :: 0 <= i < |lines| ==> lines[i].unitPrice >= 0 && lines[i].quantity >= 1
    ensures PriceOrderF(rnd, lines, fee, requested, paymentMethod, escrowEnabled).Err?
  {
    LineTotalsAgree(rnd, lines);
    SumRefines(rnd, LineTotalsF(rnd, lines), LineTotals(lines));
    var s := CartSubtotal(lines);
    if SumF(rnd, LineTotalsF(rnd, lines)).Ok? {
      var x := SumF(rnd, LineTotalsF(rnd, lines)).value;
      SumOfTwo(s, fee);
      SumRefines(rnd, [x, fee as real], [s, fee]);
      if SumF(rnd, [x, fee as real]).Ok? {
        var y := SumF(rnd, [x, fee as real]).value;
        OutOfRangeRejected(rnd, lines, x, fee, y, s + fee, requested, paymentMethod, paymentMethod == Escrow && escrowEnabled);
      }
    }
  }

  /**
   * An order is accepted on doubles exactly when it is accepted on exact
   * integers, and then every amount, cap and text is the exact one: the
   * NUMERIC(12,2) guard turns away every order in which a partial result left
   * the range where doubles are exact.
   */
  lemma PricingIsExact(rnd: real -> real, lines: seq<CartLine>, fee: int, requested: int, paymentMethod: Method,
                       escrowEnabled: bool)
    requires IsRounding(rnd)
    requires forall i :: 0 <= i < |lines| ==> lines[i].unitPrice >= 0 && lines[i].quantity >= 1
    requires 0 <= fee <= 9007199254740992
    ensures PriceOrderF(rnd, lines, fee, requested, paymentMethod, escrowEnabled).Ok?
            <==> PriceOrder(lines, fee, requested, paymentMethod, escrowEnabled).Ok?
    ensures PriceOrder(lines, fee, requested, paymentMethod, escrowEnabled).Ok? ==>
              PriceOrderF(rnd, lines, fee, requested, paymentMethod, escrowEnabled)
              == PriceOrder(lines, fee, requested, paymentMethod, escrowEnabled)
  {
    hide IsRounding, Decide, DecideF, CartSubtotal, SumF, Sum, LineTotalsF;
    var s := CartSubtotal(lines);
    SumOfTwo(s, fee);
    var isEscrow := paymentMethod == Escrow && escrowEnabled;
    if s + fee <= MAX_POISHA {
      InRangeSums(rnd, lines, fee);
      DecideRefines(rnd, lines, s, fee, requested, paymentMethod, isEscrow);
    } else {
      OutOfRange(rnd, lines, fee, requested, paymentMethod, escrowEnabled);
      ExactOutOfRangeRejected(lines, s, fee, s + fee, requested, paymentMethod, isEscrow);
    }
  }

  /** A double that is not an integer is no amount, wherever it is asked about. */
  lemma FractionsRefused(rnd: real -> real, x: real, percent: int, others: seq<real>)
    requires !IsInteger(x)
    ensures PoishaToTakaF(rnd, x) == Err(NotInteger) && PercentageOfF(rnd, x, percent) == Err(NotInteger)
    ensures SumF(rnd, others + [x]).Err?
  {
    assert (others + [x])[..|others|] == others;
  }
}
