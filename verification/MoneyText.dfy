/**
 * The texts of amounts, character by character: what trimming takes, what a
 * decimal is, which number its digits say, and how refusals are told apart.
 */
module MoneyText {
  import opened Outcomes
  import opened Decimal
  import opened Money

  /** The characters `trim` removes, by their numbers. */
  lemma SpacesAre(c: char)
    ensures IsSpace(c) <==>
            || c as int in {9, 10, 11, 12, 13, 32, 160, 5760, 8232, 8233, 8239, 8287, 12288, 65279}
            || 8192 <= c as int <= 8202
  {
  }

  predicate AllSpaces(s: string) {
    forall i :: 0 <= i < |s| ==> IsSpace(s[i])
  }

  lemma {:induction false} LeftTrimmed(s: string) returns (before: string)
    ensures s == before + TrimLeft(s) && AllSpaces(before)
    ensures TrimLeft(s) != [] ==> !IsSpace(TrimLeft(s)[0])
  {
    hide IsSpace;
    before := [];
    if s != [] && IsSpace(s[0]) {
      var more := LeftTrimmed(s[1..]);
      before := [s[0]] + more;
      assert s == [s[0]] + s[1..];
    }
  }

  lemma {:induction false} RightTrimmed(s: string) returns (after: string)
    ensures s == TrimRight(s) + after && AllSpaces(after)
    ensures TrimRight(s) != [] ==> !IsSpace(TrimRight(s)[|TrimRight(s)| - 1])
  {
    hide IsSpace;
    after := [];
    if s != [] && IsSpace(s[|s| - 1]) {
      var more := RightTrimmed(s[..|s| - 1]);
      after := more + [s[|s| - 1]];
      assert s == s[..|s| - 1] + [s[|s| - 1]];
    }
  }

  /** Trimming takes the whitespace at both ends, and all of it. */
  lemma Trimmed(s: string) returns (before: string, after: string)
    ensures s == before + Trim(s) + after && AllSpaces(before) && AllSpaces(after)
    ensures Trim(s) != [] ==> !IsSpace(Trim(s)[0]) && !IsSpace(Trim(s)[|Trim(s)| - 1])
  {
    hide IsSpace, TrimLeft, TrimRight;
    before := LeftTrimmed(s);
    after := RightTrimmed(TrimLeft(s));
    if Trim(s) != [] { assert Trim(s)[0] == TrimLeft(s)[0]; }
  }

  predicate Digits(s: string) {
    |s| > 0 && forall i :: 0 <= i < |s| ==> '0' <= s[i] <= '9'
  }

  /** A sign or none, digits, and a point with digits or none. */
  predicate IsDecimal(t: string, minus: bool, whole: string, fraction: string) {
    && t == (if minus then "-" else "") + whole + (if fraction == "" then "" else "." + fraction)
    && Digits(whole) && (fraction == "" || Digits(fraction))
  }

  lemma DecimalParts(t: string, minus: bool, whole: string, fraction: string)
    requires IsDecimal(t, minus, whole, fraction)
    ensures WellFormed(t) && IsNegative(t) == minus && WholePart(t) == whole && FractionPart(t) == fraction
  {
    var sign := if minus then "-" else "";
    if fraction == "" {
      assert t == sign + whole;
      assert IsNegative(t) <==> minus;
      assert Unsigned(t) == whole;
      assert DotIndex(whole) == |whole|;
    } else {
      assert t == sign + whole + "." + fraction;
      Parts(sign, whole, fraction);
    }
  }

  lemma OwnParts(t: string)
    requires WellFormed(t)
    ensures IsDecimal(t, IsNegative(t), WholePart(t), FractionPart(t))
  {
    hide DotIndex;
    if FractionPart(t) != "" {
      Reassemble(t);
    } else {
      assert DotIndex(Unsigned(t)) == |Unsigned(t)|;
      SignSplits(t, Unsigned(t));
      assert WholePart(t) == Unsigned(t);
    }
  }

  /** The texts the parser looks further at are the decimals, each with its own parts. */
  lemma WellFormedExactly(t: string)
    ensures WellFormed(t) <==> exists minus, whole, fraction :: IsDecimal(t, minus, whole, fraction)
    ensures WellFormed(t) ==> IsDecimal(t, IsNegative(t), WholePart(t), FractionPart(t))
  {
    hide WellFormed, IsDecimal, WholePart, FractionPart, IsNegative;
    if WellFormed(t) {
      OwnParts(t);
    }
    if minus, whole, fraction :| IsDecimal(t, minus, whole, fraction) { DecimalParts(t, minus, whole, fraction); }
  }

  /** Digits are read as a number in base ten, the first the most significant. */
  lemma DigitsSay(s: string, c: char)
    requires AllDigits(s) && '0' <= c <= '9'
    ensures DigitsValue("") == 0 && DigitsValue([c]) == c as int - 48
    ensures AllDigits(s + [c]) && DigitsValue(s + [c]) == 10 * DigitsValue(s) + DigitsValue([c])
    ensures Pow10(0) == 1 && Pow10(|s| + 1) == 10 * Pow10(|s|)
  {
    ValueOfOne([c]);
    assert (s + [c])[..|s|] == s;
  }

  /** Why a text is refused: it is no decimal, it has a digit other than zero past the second decimal, or it is past the safe integers. */
  lemma RefusedExactly(amount: string)
    ensures TakaToPoisha(amount) == Err(NotAnAmount) <==> forall minus, whole, fraction :: !IsDecimal(Trim(amount), minus, whole, fraction)
    ensures TakaToPoisha(amount) == Err(SubPoisha) <==>
            exists minus, whole, fraction ::
              IsDecimal(Trim(amount), minus, whole, fraction) && exists i :: 2 <= i < |fraction| && fraction[i] != '0'
    ensures TakaToPoisha(amount).Err? ==> TakaToPoisha(amount).error in {NotAnAmount, SubPoisha, OutOfSafeRange}
  {
    hide Trim, DigitsValue, IsDecimal;
    var t := Trim(amount);
    WellFormedExactly(t);
    if WellFormed(t) {
      var f := FractionPart(t);
      assert AllDigits(f);
      assert NoSubPoisha(f) <==> !exists i :: 2 <= i < |f| && f[i] != '0' by {
        if |f| > 2 {
          forall i | 2 <= i < |f| ensures f[i] == f[2..][i - 2] {}
          forall i | 0 <= i < |f| - 2 ensures f[2..][i] == f[i + 2] {}
        }
      }
      forall minus, whole, fraction | IsDecimal(t, minus, whole, fraction) ensures fraction == f { DecimalParts(t, minus, whole, fraction); }
    }
  }

  /** A percentage is rounded down, and asked for only between nothing and all. */
  lemma PercentageExactly(amount: int, percent: int, part: int)
    ensures PercentageOf(amount, percent) == Ok(part) <==> 0 <= percent <= 100 && 100 * part <= amount * percent < 100 * (part + 1)
    ensures PercentageOf(amount, percent).Err? ==> PercentageOf(amount, percent) == Err(BadPercent)
  {
    var product := amount * percent;
    assert product == 100 * (product / 100) + product % 100;
  }
}
