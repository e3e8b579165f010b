/**
 * BDT amounts: the decimal text the NUMERIC(12,2) columns carry and the
 * integer poisha the code computes with. This module is exact integer
 * arithmetic; module MoneyFloats shows that the IEEE doubles the program runs
 * on compute the same answers.
 */
module Money {
  import opened Outcomes
  import opened Decimal

  /** `Number.MAX_SAFE_INTEGER`. */
  const MAX_SAFE: int := 9007199254740991

  /** The largest whole-taka part NUMERIC(12,2) holds. */
  const MAX_WHOLE: int := 9999999999

  /** The largest amount NUMERIC(12,2) holds, in poisha. */
  const MAX_POISHA: int := 999999999999

  datatype MoneyError = NotAnAmount | SubPoisha | OutOfSafeRange | NotInteger | ExceedsNumeric | BadPercent

  /** The code points `String.prototype.trim` removes. */
  predicate IsSpace(c: char) {
    c in {'\t', '\n', '\r', ' ', '\U{000B}', '\U{000C}', '\U{00A0}', '\U{1680}', '\U{2028}', '\U{2029}',
          '\U{202F}', '\U{205F}', '\U{3000}', '\U{FEFF}'}
    || '\U{2000}' <= c <= '\U{200A}'
  }

  function TrimLeft(s: string): string {
    if s != [] && IsSpace(s[0]) then TrimLeft(s[1..]) else s
  }

  function TrimRight(s: string): string {
    if s != [] && IsSpace(s[|s| - 1]) then TrimRight(s[..|s| - 1]) else s
  }

  function Trim(s: string): string {
    TrimRight(TrimLeft(s))
  }

  /** Index of the first '.', or the length when there is none. */
  function DotIndex(s: string): (i: nat)
    ensures i <= |s|
    ensures i < |s| ==> s[i] == '.'
    ensures forall j :: 0 <= j < i ==> s[j] != '.'
  {
    if s == [] || s[0] == '.' then 0 else 1 + DotIndex(s[1..])
  }

  predicate IsNegative(t: string) {
    t != [] && t[0] == '-'
  }

  function Unsigned(t: string): string {
    if IsNegative(t) then t[1..] else t
  }

  function WholePart(t: string): string {
    Unsigned(t)[..DotIndex(Unsigned(t))]
  }

  function FractionPart(t: string): string {
    var b := Unsigned(t);
    if DotIndex(b) < |b| then b[DotIndex(b) + 1..] else ""
  }

  /** The regular expression of takaToPoisha: an optional minus, digits, and optionally a dot and digits. */
  predicate WellFormed(t: string) {
    && WholePart(t) != "" && AllDigits(WholePart(t)) && AllDigits(FractionPart(t))
    && (DotIndex(Unsigned(t)) < |Unsigned(t)| ==> FractionPart(t) != "")
  }

  /** `fraction.padEnd(2, '0').slice(0, 2)`. */
  function PaddedFraction(f: string): (p: string)
    ensures |p| == 2
  {
    if |f| == 0 then "00" else if |f| == 1 then f + "0" else f[..2]
  }

  /** Nothing but zeros after the second decimal. */
  predicate NoSubPoisha(f: string)
    requires AllDigits(f)
  {
    |f| <= 2 || AllZeros(f[2..])
  }

  /** The amount without its sign, in poisha; decimals past the second are not looked at. */
  function Magnitude(w: string, f: string): nat
    requires AllDigits(w) && AllDigits(f)
  {
    DigitsValue(w) * 100 + DigitsValue(PaddedFraction(f))
  }

  function TakaToPoisha(amount: string): Result<int, MoneyError> {
    var t := Trim(amount);
    if !WellFormed(t) then Err(NotAnAmount)
    else if !NoSubPoisha(FractionPart(t)) then Err(SubPoisha)
    else
      var poisha: int := Magnitude(WholePart(t), FractionPart(t));
      if poisha > MAX_SAFE then Err(OutOfSafeRange)
      else Ok(if IsNegative(t) then -poisha else poisha)
  }

  function Abs(p: int): nat {
    if p < 0 then -p else p
  }

  function TwoDigits(n: nat): string
    requires n < 100
  {
    [DigitChar(n / 10), DigitChar(n % 10)]
  }

  function PoishaToTaka(poisha: int): Result<string, MoneyError> {
    var whole := Abs(poisha) / 100;
    if whole > MAX_WHOLE then Err(ExceedsNumeric)
    else Ok((if poisha < 0 then "-" else "") + NatText(whole) + "." + TwoDigits(Abs(poisha) % 100))
  }

  function PercentageOf(amount: int, percent: int): Result<int, MoneyError> {
    if !(0 <= percent <= 100) then Err(BadPercent) else Ok(amount * percent / 100)
  }

  function Sum(amounts: seq<int>): int {
    if amounts == [] then 0 else Sum(amounts[..|amounts| - 1]) + amounts[|amounts| - 1]
  }

  /** Sums add up: of one amount it is the amount, of two lists the sum of their sums. */
  lemma {:induction false} SumIsTotal(a: seq<int>, b: seq<int>)
    ensures Sum([]) == 0 && Sum(a + b) == Sum(a) + Sum(b)
    ensures forall x :: Sum([x]) == x
    decreases |b|
  {
    forall x ensures Sum([x]) == x { assert [x][..0] == []; }
    if b == [] {
      assert a + b == a;
    } else {
      var k := |b| - 1;
      SumIsTotal(a, b[..k]);
      assert (a + b)[..|a + b| - 1] == a + b[..k];
    }
  }

  // ---- what takaToPoisha accepts, and what it answers -------------------

  /** All the digits of the amount, read as one number. */
  function AllTheDigits(t: string): string {
    WholePart(t) + FractionPart(t)
  }

  /** p poisha are exactly the decimal amount t: p * 10^decimals == 100 * (digits of t, signed). */
  predicate Denotes(t: string, p: int)
    requires WellFormed(t)
  {
    DigitsOfParts(t);
    var digits: int := DigitsValue(AllTheDigits(t));
    p * Pow10(|FractionPart(t)|) == 100 * (if IsNegative(t) then -digits else digits)
  }

  lemma DigitsOfParts(t: string)
    requires WellFormed(t)
    ensures AllDigits(AllTheDigits(t))
  {
    DigitsValueConcat(WholePart(t), FractionPart(t));
  }

  /**
   * takaToPoisha accepts a string exactly when, trimmed, it is a well-formed
   * decimal that is a whole, safe number of poisha, and answers that number.
   */
  lemma ParseExactly(amount: string, p: int)
    ensures TakaToPoisha(amount) == Ok(p) <==>
            var t := Trim(amount); WellFormed(t) && Denotes(t, p) && -9007199254740991 <= p <= 9007199254740991
  {
    var t := Trim(amount);
    if WellFormed(t) {
      var w, f := WholePart(t), FractionPart(t);
      var m := if IsNegative(t) then -p else p;
      DenotesMagnitude(t, p);
      ScaledMagnitude(w, f, m);
      assert TakaToPoisha(amount) == Ok(p) <==> NoSubPoisha(f) && m == Magnitude(w, f) <= MAX_SAFE;
    }
  }

  lemma DenotesMagnitude(t: string, p: int)
    requires WellFormed(t)
    ensures AllDigits(AllTheDigits(t))
    ensures var m := if IsNegative(t) then -p else p;
            Denotes(t, p) <==> m * Pow10(|FractionPart(t)|) == 100 * DigitsValue(AllTheDigits(t))
  {
    DigitsOfParts(t);
    var scale := Pow10(|FractionPart(t)|);
    assert (-p) * scale == -(p * scale);
  }

  /** The heart of ParseExactly, on magnitudes. */
  lemma ScaledMagnitude(w: string, f: string, m: int)
    requires AllDigits(w) && AllDigits(f)
    ensures AllDigits(w + f)
    ensures m * Pow10(|f|) == 100 * DigitsValue(w + f) <==> NoSubPoisha(f) && m == Magnitude(w, f)
  {
    DigitsValueConcat(w, f);
    if |f| <= 2 { ShortScaled(w, f, m); } else { LongScaled(w, f, m); }
  }

  lemma ShortScaled(w: string, f: string, m: int)
    requires AllDigits(w) && AllDigits(f) && |f| <= 2
    ensures m * Pow10(|f|) == 100 * (DigitsValue(w) * Pow10(|f|) + DigitsValue(f)) <==> m == Magnitude(w, f)
  {
    ShortFraction(f);
    SmallScale(m, DigitsValue(w), DigitsValue(f), DigitsValue(PaddedFraction(f)), Pow10(|f|));
  }

  lemma SmallScale(m: int, wv: int, v: int, padded: int, scale: int)
    requires scale in {1, 10, 100} && padded * scale == 100 * v
    ensures m * scale == 100 * (wv * scale + v) <==> m == wv * 100 + padded
  {
    if scale == 1 {
    } else if scale == 10 {
    } else {
      assert scale == 100;
    }
  }

  lemma LongScaled(w: string, f: string, m: int)
    requires AllDigits(w) && AllDigits(f) && |f| > 2
    ensures m * Pow10(|f|) == 100 * (DigitsValue(w) * Pow10(|f|) + DigitsValue(f)) <==> NoSubPoisha(f) && m == Magnitude(w, f)
  {
    var head, rest := f[..2], f[2..];
    assert f == head + rest;
    DigitsValueConcat(head, rest);
    DigitsValueBound(rest);
    DigitsValueZero(rest);
    TenPowers(2, |rest|);
    assert Pow10(2) == 100 by { assert Pow10(1) == 10 && Pow10(2) == 10 * Pow10(1); }
    WholeQuotient(m, DigitsValue(w), DigitsValue(head), DigitsValue(rest), Pow10(|rest|));
  }

  /** m hundredths of k-ths are wv, hv and rv put together only when rv is nothing. */
  lemma WholeQuotient(m: int, wv: nat, hv: nat, rv: nat, k: int)
    requires 0 <= rv < k
    ensures m * (100 * k) == 100 * (wv * (100 * k) + (hv * k + rv)) <==> rv == 0 && m == wv * 100 + hv
  {
    var q := m - (wv * 100 + hv);
    assert m * (100 * k) - 100 * (wv * (100 * k) + (hv * k + rv)) == 100 * (q * k - rv) by {
      assert m * (100 * k) == 100 * (m * k);
      assert m * k == q * k + (wv * 100 + hv) * k;
      assert (wv * 100 + hv) * k == wv * (100 * k) + hv * k by { assert wv * (100 * k) == 100 * (wv * k); }
    }
    if q >= 1 { assert q * k >= k; }
    if q <= -1 { assert q * k <= -k; }
  }

  lemma ShortFraction(f: string)
    requires AllDigits(f) && |f| <= 2
    ensures AllDigits(PaddedFraction(f))
    ensures DigitsValue(PaddedFraction(f)) * Pow10(|f|) == 100 * DigitsValue(f)
    ensures Pow10(|f|) in {1, 10, 100}
  {
    assert Pow10(0) == 1 && Pow10(1) == 10 * Pow10(0) && Pow10(2) == 10 * Pow10(1);
    var p := PaddedFraction(f);
    if |f| == 0 {
      ValueOfTwo(p);
    } else if |f| == 1 {
      ValueOfTwo(p);
      ValueOfOne(f);
    } else {
      assert p == f;
    }
  }

  // ---- the printer -----------------------------------------------------

  /** The one text of an amount: no spaces, no leading zeros, two decimals, no minus zero. */
  predicate IsCanonical(s: string) {
    && WellFormed(s)
    && NoLeadingZero(WholePart(s)) && |WholePart(s)| <= 10
    && |FractionPart(s)| == 2
    && (IsNegative(s) ==> !(AllZeros(WholePart(s)) && AllZeros(FractionPart(s))))
  }

  lemma Parts(sign: string, w: string, f: string)
    requires sign in {"", "-"} && AllDigits(w) && w != "" && AllDigits(f) && f != ""
    ensures var s := sign + w + "." + f;
            WholePart(s) == w && FractionPart(s) == f && (IsNegative(s) <==> sign == "-") && WellFormed(s)
  {
    var s := sign + w + "." + f;
    assert IsNegative(s) <==> sign == "-";
    assert Unsigned(s) == w + "." + f;
    assert (w + "." + f)[|w|] == '.';
    assert forall j :: 0 <= j < |w| ==> (w + "." + f)[j] == w[j];
    assert DotIndex(w + "." + f) == |w|;
  }

  /** Well-formed amounts neither start nor end with a space. */
  lemma TrimWellFormed(s: string)
    requires WellFormed(s)
    ensures Trim(s) == s
  {
    hide DotIndex;
    var b := Unsigned(s);
    var last := s[|s| - 1];
    assert last == b[|b| - 1];
    if DotIndex(b) < |b| {
      assert last == FractionPart(s)[|FractionPart(s)| - 1];
    } else {
      assert WholePart(s) == b;
    }
    assert IsDigit(last);
    assert s[0] == '-' || s[0] == WholePart(s)[0];
  }

  /** What poishaToTaka prints is canonical, and it prints exactly the amounts NUMERIC(12,2) holds. */
  lemma PrintIsCanonical(p: int)
    ensures PoishaToTaka(p).Ok? <==> -999999999999 <= p <= 999999999999
    ensures PoishaToTaka(p).Ok? ==> IsCanonical(PoishaToTaka(p).value)
    ensures PoishaToTaka(p).Ok? ==> TakaToPoisha(PoishaToTaka(p).value) == Ok(p)
  {
    hide IsCanonical, TakaToPoisha, NatText, TwoDigits;
    var whole, cents := Abs(p) / 100, Abs(p) % 100;
    assert whole <= MAX_WHOLE <==> Abs(p) <= MAX_POISHA;
    if whole <= MAX_WHOLE {
      var sign := if p < 0 then "-" else "";
      var s := sign + NatText(whole) + "." + TwoDigits(cents);
      assert PoishaToTaka(p) == Ok(s);
      Assembled(sign, whole, cents);
      assert whole * 100 + cents == Abs(p);
    }
  }

  /** Sign, whole taka and poisha put together as text. */
  lemma Assembled(sign: string, whole: nat, cents: nat)
    requires sign in {"", "-"} && whole <= MAX_WHOLE && cents < 100
    requires sign == "-" ==> whole * 100 + cents > 0
    ensures var s, m := sign + NatText(whole) + "." + TwoDigits(cents), whole * 100 + cents;
            IsCanonical(s) && TakaToPoisha(s) == Ok(if sign == "-" then -m else m)
  {
    hide NatText, DigitsValue, Trim, Unsigned, DotIndex, NoLeadingZero;
    var w, f := NatText(whole), TwoDigits(cents);
    var s := sign + w + "." + f;
    ReadNatText(whole);
    TwoDigitsValue(cents);
    Parts(sign, w, f);
    AssembledShape(whole, cents);
    assert IsCanonical(s);
    TrimWellFormed(s);
    assert PaddedFraction(f) == f;
    assert Magnitude(w, f) == whole * 100 + cents;
  }

  lemma AssembledShape(whole: nat, cents: nat)
    requires whole <= MAX_WHOLE && cents < 100
    ensures NoLeadingZero(NatText(whole)) && |NatText(whole)| <= 10
    ensures AllZeros(NatText(whole)) && AllZeros(TwoDigits(cents)) ==> whole * 100 + cents == 0
  {
    ReadNatText(whole);
    TenToTheTenth();
    NatTextLength(whole, 10);
    TwoDigitsValue(cents);
    DigitsValueZero(NatText(whole));
    DigitsValueZero(TwoDigits(cents));
  }

  lemma TenToTheTenth()
    ensures Pow10(10) == 10000000000
  {
    TenPowers(5, 5);
    assert Pow10(2) == 10 * Pow10(1) && Pow10(3) == 10 * Pow10(2) && Pow10(4) == 10 * Pow10(3) && Pow10(5) == 10 * Pow10(4);
  }

  lemma TwoDigitsValue(n: nat)
    requires n < 100
    ensures AllDigits(TwoDigits(n)) && DigitsValue(TwoDigits(n)) == n
  {
    ValueOfTwo(TwoDigits(n));
  }

  lemma ValueOfOne(s: string)
    requires AllDigits(s) && |s| == 1
    ensures DigitsValue(s) == s[0] as int - '0' as int
  {
    assert s[..0] == [];
  }

  lemma ValueOfTwo(s: string)
    requires AllDigits(s) && |s| == 2
    ensures DigitsValue(s) == (s[0] as int - '0' as int) * 10 + (s[1] as int - '0' as int)
  {
    assert s[..1] == [s[0]] && s[..1][..0] == [];
    assert DigitsValue(s[..1]) == s[0] as int - '0' as int;
  }

  /** Parsing inverts printing on every amount the schema can hold. */
  lemma RoundTrip(p: int)
    requires -999999999999 <= p <= 999999999999
    ensures PoishaToTaka(p).Ok? && TakaToPoisha(PoishaToTaka(p).value) == Ok(p)
  {
    PrintIsCanonical(p);
  }

  /** The smallest price. */
  lemma OnePoisha()
    ensures TakaToPoisha("0.01") == Ok(1)
  {
    hide TakaToPoisha;
    RoundTrip(1);
    assert Abs(1) / 100 == 0 && Abs(1) % 100 == 1;
    assert NatText(0) == "0" && TwoDigits(1) == "01";
    assert "" + "0" + "." + "01" == "0.01";
    assert PoishaToTaka(1) == Ok("0.01");
  }

  /** Printing inverts parsing on every canonical text. */
  lemma CanonicalRoundTrip(s: string)
    requires IsCanonical(s)
    ensures TakaToPoisha(s).Ok? && PoishaToTaka(TakaToPoisha(s).value) == Ok(s)
  {
    hide NatText, TwoDigits, DigitsValue, AllDigits, Trim, Unsigned, DotIndex, NoLeadingZero, AllZeros;
    var w, f := WholePart(s), FractionPart(s);
    CanonicalParts(w, f);
    TrimWellFormed(s);
    assert PaddedFraction(f) == f;
    DigitsValueZero(w);
    DigitsValueZero(f);
    Reassemble(s);
    var m: int := Magnitude(w, f);
    var p := if IsNegative(s) then -m else m;
    assert TakaToPoisha(s) == Ok(p);
    assert Abs(p) == m && (p < 0 <==> IsNegative(s));
  }

  lemma Reassemble(s: string)
    requires WellFormed(s) && FractionPart(s) != ""
    ensures s == (if IsNegative(s) then "-" else "") + WholePart(s) + "." + FractionPart(s)
  {
    hide DotIndex, AllDigits, AllZeros;
    var b := Unsigned(s);
    var k := DotIndex(b);
    assert k < |b|;
    SplitAtDot(b, k);
    SignSplits(s, b);
    assert WholePart(s) == b[..k] && FractionPart(s) == b[k + 1..];
    hide WholePart, FractionPart, Unsigned, IsNegative, WellFormed;
    var sign := if IsNegative(s) then "-" else "";
    assert sign + (b[..k] + "." + b[k + 1..]) == sign + b[..k] + "." + b[k + 1..];
  }

  lemma SplitAtDot(b: string, k: nat)
    requires k < |b| && b[k] == '.'
    ensures b == b[..k] + "." + b[k + 1..]
  {
  }

  lemma SignSplits(s: string, b: string)
    requires b == Unsigned(s)
    ensures s == (if IsNegative(s) then "-" else "") + b
  {
  }

  lemma CanonicalParts(w: string, f: string)
    requires AllDigits(w) && NoLeadingZero(w) && |w| <= 10 && AllDigits(f) && |f| == 2
    ensures var m := DigitsValue(w) * 100 + DigitsValue(f);
            m / 100 <= MAX_WHOLE && NatText(m / 100) == w && TwoDigits(m % 100) == f
  {
    hide NatText, Pow10, DigitsValue, AllDigits, NoLeadingZero, TwoDigits;
    TwoDigitsText(f);
    PrintDigits(w);
    DigitsValueBound(w);
    PowMonotone(|w|, 10);
    TenToTheTenth();
    var wv, fv := DigitsValue(w), DigitsValue(f);
    Hundreds(wv, fv);
  }

  lemma Hundreds(q: nat, r: nat)
    requires r < 100
    ensures (q * 100 + r) / 100 == q && (q * 100 + r) % 100 == r
  {
  }

  lemma {:induction false} PowMonotone(a: nat, b: nat)
    requires a <= b
    ensures Pow10(a) <= Pow10(b)
    decreases b
  {
    Pow10Positive(b);
    if a < b { PowMonotone(a, b - 1); Pow10Positive(b - 1); }
  }

  lemma TwoDigitsText(f: string)
    requires AllDigits(f) && |f| == 2
    ensures DigitsValue(f) < 100 && TwoDigits(DigitsValue(f)) == f
  {
    ValueOfTwo(f);
    var a, b := f[0] as int - '0' as int, f[1] as int - '0' as int;
    assert (a * 10 + b) / 10 == a && (a * 10 + b) % 10 == b;
    assert f == [DigitChar(a), DigitChar(b)];
  }

  /**
   * Printing what was parsed is the canonical form of the input: a canonical
   * text of the same value, and the only one.
   */
  lemma PrintAfterParse(amount: string, s: string)
    requires TakaToPoisha(amount).Ok? && -999999999999 <= TakaToPoisha(amount).value <= 999999999999
    ensures PoishaToTaka(TakaToPoisha(amount).value) == Ok(s) <==>
            IsCanonical(s) && TakaToPoisha(s) == TakaToPoisha(amount)
  {
    PrintIsCanonical(TakaToPoisha(amount).value);
    if IsCanonical(s) { CanonicalRoundTrip(s); }
  }
}
