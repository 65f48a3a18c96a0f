/**
 USDC amounts as text: the parser and the total printer of the task-batch linter.
 Text is a sequence of characters; base units are unbounded, as bigint is.
 */
module Decimal {
  import opened Wrappers

  const DECIMALS: nat := 6
  const UNIT: nat := 1_000_000

  predicate IsDigit(c: char) { '0' <= c <= '9' }

  predicate AllDigits(s: string) { forall i :: 0 <= i < |s| ==> IsDigit(s[i]) }

  function DigitOf(n: nat): (c: char)
    requires n < 10
    ensures IsDigit(c)
  {
    ['0', '1', '2', '3', '4', '5', '6', '7', '8', '9'][n]
  }

  function ValueOfDigit(c: char): (n: nat)
    requires IsDigit(c)
    ensures n < 10 && DigitOf(n) == c
  {
    (c as int) - ('0' as int)
  }

  /** The number a string of decimal digits denotes; BigInt of it. */
  function Number(s: string): nat
    requires AllDigits(s)
  {
    if s == [] then 0 else 10 * Number(s[..|s| - 1]) + ValueOfDigit(s[|s| - 1])
  }

  /** bigint.toString() */
  function Digits(n: nat): (s: string)
    ensures AllDigits(s) && s != []
  {
    if n < 10 then [DigitOf(n)] else Digits(n / 10) + [DigitOf(n % 10)]
  }

  function Pow10(k: nat): (p: nat)
    ensures p > 0
  {
    if k == 0 then 1 else 10 * Pow10(k - 1)
  }

  function Zeros(k: nat): (s: string)
    ensures |s| == k && AllDigits(s) && forall i :: 0 <= i < k ==> s[i] == '0'
  {
    seq(k, _ => '0')
  }

  function PadStart(s: string, width: nat): string {
    if |s| >= width then s else Zeros(width - |s|) + s
  }

  function PadEnd(s: string, width: nat): string {
    if |s| >= width then s else s + Zeros(width - |s|)
  }

  /** s.replace(/0+$/, '') */
  function StripTrailingZeros(s: string): string {
    if s != [] && s[|s| - 1] == '0' then StripTrailingZeros(s[..|s| - 1]) else s
  }

  // ---- The parser ---------------------------------------------------------------------------

  /** Where the first '.' of `s` is, or its length. */
  function DotIndex(s: string): (k: nat)
    ensures k <= |s| && (k < |s| ==> s[k] == '.') && '.' !in s[..k]
  {
    if s == [] || s[0] == '.' then 0
    else
      var k := 1 + DotIndex(s[1..]);
      assert s[..k] == [s[0]] + s[1..][..k - 1];
      k
  }

  /** The amount in base units, or None for text that is not an amount with at most six decimals. */
  function ToRaw(amount: string): Option<nat> {
    var k := DotIndex(amount);
    var whole := amount[..k];
    if whole == [] || !AllDigits(whole) then None
    else if k == |amount| then Some(Number(whole) * UNIT + Number(Zeros(DECIMALS)))
    else
      var frac := amount[k + 1..];
      if frac == [] || !AllDigits(frac) || |frac| > DECIMALS then None
      else
        assert AllDigits(PadEnd(frac, DECIMALS));
        Some(Number(whole) * UNIT + Number(PadEnd(frac, DECIMALS)))
  }

  /** Text the linter takes for an amount: digits, and optionally a point and one to six more digits. */
  ghost predicate IsAmount(s: string, whole: string, frac: string) {
    && whole != [] && AllDigits(whole)
    && AllDigits(frac) && |frac| <= DECIMALS
    && s == (if frac == [] then whole else whole + ['.'] + frac)
  }

  /**
   The parser accepts exactly the amounts, and the value it returns is the exact one: in units
   of the last decimal written, whole part and fraction read as one number.
   */
  lemma ToRawIsExact(s: string)
    ensures ToRaw(s).Some? <==> exists whole, frac :: IsAmount(s, whole, frac)
    ensures forall whole, frac :: IsAmount(s, whole, frac)
              ==> AllDigits(whole + frac)
                  && ToRaw(s).Some?
                  && ToRaw(s).value * Pow10(|frac|) == Number(whole + frac) * UNIT
  {
    if ToRaw(s).Some? {
      var k := DotIndex(s);
      if k == |s| {
        assert s[..k] == s;
        assert IsAmount(s, s[..k], []);
      } else {
        assert s == s[..k] + ['.'] + s[k + 1..];
        assert IsAmount(s, s[..k], s[k + 1..]);
      }
    }
    forall whole, frac | IsAmount(s, whole, frac)
      ensures AllDigits(whole + frac)
      ensures ToRaw(s).Some? && ToRaw(s).value * Pow10(|frac|) == Number(whole + frac) * UNIT
    {
      AmountValue(s, whole, frac);
    }
  }

  lemma {:induction false} DotIndexOfAmount(whole: string, rest: string)
    requires AllDigits(whole) && (rest == [] || rest[0] == '.')
    ensures DotIndex(whole + rest) == |whole|
  {
    if whole == [] {
      assert whole + rest == rest;
    } else {
      DotIndexOfAmount(whole[1..], rest);
      assert (whole + rest)[1..] == whole[1..] + rest;
    }
  }

  lemma AmountValue(s: string, whole: string, frac: string)
    requires IsAmount(s, whole, frac)
    ensures AllDigits(whole + frac)
    ensures ToRaw(s).Some? && ToRaw(s).value * Pow10(|frac|) == Number(whole + frac) * UNIT
  {
    SplitsAmount(s, whole, frac);
    var pad := Zeros(DECIMALS - |frac|);
    assert AllDigits(frac + pad);
    NumberOfConcat(whole, frac);
    NumberOfConcat(frac, pad);
    NumberOfZeros(|pad|);
    PowersOfSix(|frac|);
    Rescale(ToRaw(s).value, Number(whole + frac), Number(whole), Number(frac), Pow10(|frac|), Pow10(|pad|));
  }

  lemma SplitsAmount(s: string, whole: string, frac: string)
    requires IsAmount(s, whole, frac)
    ensures var padded := frac + Zeros(DECIMALS - |frac|);
            AllDigits(padded) && ToRaw(s) == Some(Number(whole) * UNIT + Number(padded))
  {
    var rest := if frac == [] then [] else ['.'] + frac;
    assert s == whole + rest;
    DotIndexOfAmount(whole, rest);
    assert s[..|whole|] == whole;
    if frac == [] {
      assert Zeros(DECIMALS) == frac + Zeros(DECIMALS);
    } else {
      assert s[|whole| + 1..] == frac;
      assert PadEnd(frac, DECIMALS) == frac + Zeros(DECIMALS - |frac|);
    }
  }

  lemma Rescale(raw: nat, written: nat, w: nat, f: nat, p: nat, q: nat)
    requires p * q == UNIT
    requires raw == w * UNIT + f * q && written == w * p + f
    ensures raw * p == written * UNIT
  {
    assert f * q * p == f * (p * q);
    assert w * UNIT * p == w * p * UNIT;
  }

  lemma PowersOfSix(k: nat)
    requires k <= DECIMALS
    ensures Pow10(k) * Pow10(DECIMALS - k) == UNIT
  {
    PowSum(k, DECIMALS - k);
    assert Pow10(6) == 10 * Pow10(5) == 100 * Pow10(4) == 1000 * Pow10(3) == 10_000 * Pow10(2) == 100_000 * Pow10(1);
  }

  lemma {:induction false} PowSum(a: nat, b: nat)
    ensures Pow10(a + b) == Pow10(a) * Pow10(b)
  {
    if a == 0 {
    } else {
      PowSum(a - 1, b);
    }
  }

  lemma {:induction false} NumberOfConcat(a: string, b: string)
    requires AllDigits(a) && AllDigits(b)
    ensures AllDigits(a + b) && Number(a + b) == Number(a) * Pow10(|b|) + Number(b)
  {
    if b == [] {
      assert a + b == a;
    } else {
      var last := |b| - 1;
      var front, c := b[..last], b[last];
      NumberOfConcat(a, front);
      assert a + b == (a + front) + [c] && b == front + [c];
      NumberOfAppend(a + front, c);
      NumberOfAppend(front, c);
      OneDigitMore(Number(a), Pow10(last), Number(front), ValueOfDigit(c));
    }
  }

  lemma NumberOfAppend(s: string, c: char)
    requires AllDigits(s) && IsDigit(c)
    ensures AllDigits(s + [c]) && Number(s + [c]) == 10 * Number(s) + ValueOfDigit(c)
  {
    assert (s + [c])[..|s|] == s;
  }

  lemma OneDigitMore(x: nat, p: nat, y: nat, d: nat)
    ensures 10 * (x * p + y) + d == x * (10 * p) + (10 * y + d)
  {
  }

  lemma {:induction false} NumberOfZeros(k: nat)
    ensures Number(Zeros(k)) == 0
  {
    if k == 0 {
    } else {
      NumberOfZeros(k - 1);
      assert Zeros(k)[..k - 1] == Zeros(k - 1);
    }
  }

  // ---- The printer --------------------------------------------------------------------------

  /** The total as the linter prints it: at most six decimals, no trailing zeros, no bare point. */
  function Print(total: nat): string {
    var whole := Digits(total / UNIT);
    var frac := StripTrailingZeros(PadStart(Digits(total % UNIT), DECIMALS));
    if frac == [] then whole else whole + ['.'] + frac
  }

  lemma {:induction false} NumberOfDigits(n: nat)
    ensures Number(Digits(n)) == n
    ensures forall k :: k > 0 && n < Pow10(k) ==> |Digits(n)| <= k
  {
    if n >= 10 {
      NumberOfDigits(n / 10);
      assert Digits(n)[..|Digits(n)| - 1] == Digits(n / 10);
      forall k | k > 0 && n < Pow10(k)
        ensures |Digits(n)| <= k
      {
        assert Pow10(1) == 10 * Pow10(0);
        assert k > 1;
        assert n / 10 < Pow10(k - 1);
      }
    }
  }

  /** Different numbers have different digits. */
  lemma DigitsDiffer(m: nat, n: nat)
    requires Digits(m) == Digits(n)
    ensures m == n
  {
    NumberOfDigits(m);
    NumberOfDigits(n);
  }

  /** Stripping trailing zeros and padding them back gives the same digits. */
  lemma {:induction false} StripThenPad(s: string, width: nat)
    requires AllDigits(s) && |s| <= width
    ensures var t := StripTrailingZeros(s);
            && AllDigits(t) && |t| <= |s|
            && t + Zeros(width - |t|) == s + Zeros(width - |s|)
            && (t != [] ==> t[|t| - 1] != '0')
  {
    if s != [] && s[|s| - 1] == '0' {
      StripThenPad(s[..|s| - 1], width);
      assert s[..|s| - 1] + Zeros(width - |s| + 1) == s + Zeros(width - |s|);
    }
  }

  /** Printing any total and reading it back gives the total. */
  lemma PrintThenToRaw(total: nat)
    ensures ToRaw(Print(total)) == Some(total)
  {
    var whole, digits := Digits(total / UNIT), Digits(total % UNIT);
    NumberOfDigits(total / UNIT);
    NumberOfDigits(total % UNIT);
    PowersOfSix(DECIMALS);
    assert |digits| <= DECIMALS;
    var padded := Zeros(DECIMALS - |digits|) + digits;
    NumberOfPadded(digits);
    StripThenPad(padded, DECIMALS);
    var frac := StripTrailingZeros(padded);
    assert padded + Zeros(0) == padded;
    assert IsAmount(Print(total), whole, frac);
    SplitsAmount(Print(total), whole, frac);
  }

  /** A number's digits begin with 0 only when it is 0. */
  lemma {:induction false} NoLeadingZero(n: nat)
    ensures Digits(n)[0] == '0' ==> n == 0
    ensures n < 10 ==> |Digits(n)| == 1
  {
    if n >= 10 {
      NoLeadingZero(n / 10);
    }
  }

  /** As few digits as will do: no 0 before another digit of the whole part, and none at the end of the fraction. */
  ghost predicate IsPlain(s: string, whole: string, frac: string) {
    IsAmount(s, whole, frac) && (|whole| > 1 ==> whole[0] != '0') && (frac != [] ==> frac[|frac| - 1] != '0')
  }

  /** A total is printed as plainly as it can be. */
  lemma PrintIsPlain(total: nat)
    ensures exists whole, frac :: IsPlain(Print(total), whole, frac)
  {
    var whole, digits := Digits(total / UNIT), Digits(total % UNIT);
    NumberOfDigits(total % UNIT);
    PowersOfSix(DECIMALS);
    NoLeadingZero(total / UNIT);
    NumberOfPadded(digits);
    var padded := Zeros(DECIMALS - |digits|) + digits;
    StripThenPad(padded, DECIMALS);
    assert IsPlain(Print(total), whole, StripTrailingZeros(padded));
  }

  lemma NumberOfPadded(digits: string)
    requires AllDigits(digits) && |digits| <= DECIMALS
    ensures var padded := Zeros(DECIMALS - |digits|) + digits;
            AllDigits(padded) && Number(padded) == Number(digits) && padded == PadStart(digits, DECIMALS)
  {
    NumberOfConcat(Zeros(DECIMALS - |digits|), digits);
    NumberOfZeros(DECIMALS - |digits|);
    if |digits| == DECIMALS {
      assert Zeros(0) + digits == digits;
    }
  }
}
