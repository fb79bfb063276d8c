/**
 * The Luhn mod-10 check character of Annex B of ISO/IEC 7812-1. The card panel
 * uses `generateCheckDigit` to compute a generated number's last digit; its
 * `luhnCheck` is defined beside it but nothing in the application calls it.
 *
 * `LuhnSum` is the reference definition, read left to right: a digit is doubled
 * when its distance from the right end is odd (the check-digit position has
 * distance 0). The methods `LuhnCheck` and `GenerateCheckDigit` follow the
 * panel's own loops, which walk right to left toggling a flag.
 */
module Luhn {
  import opened Text

  /** A digit's contribution: a doubled digit above 9 loses 9 (the sum of the product's digits). */
  function Weigh(d: nat, doubled: bool): (w: nat)
    requires d < 10
    ensures w < 10
    ensures !doubled ==> w == d
    ensures doubled ==> w % 9 == (2 * d) % 9 && (w == 0 <==> d == 0)
  {
    if !doubled then d else if 2 * d > 9 then 2 * d - 9 else 2 * d
  }

  /**
   * Luhn total of `s`. Without `shift`, the digit at odd distance from the right end is
   * doubled; with `shift`, the digit at even distance is (the weighting of a partial number
   * whose check digit is still to be appended).
   */
  function LuhnSum(s: string, shift: bool): nat
    requires IsDigits(s)
  {
    if |s| == 0 then 0
    else Weigh(DigitVal(s[0]), ((|s| - 1) % 2 == 1) != shift) + LuhnSum(s[1..], shift)
  }

  /** A number passes the Luhn check when its total is a multiple of 10. */
  predicate LuhnValid(s: string) {
    IsDigits(s) && LuhnSum(s, false) % 10 == 0
  }

  /** Appending a digit shifts the weighting of every earlier digit by one place. */
  lemma {:induction false} LuhnSumAppend(s: string, c: char)
    requires IsDigits(s) && IsDigit(c)
    ensures IsDigits(s + [c])
    ensures LuhnSum(s + [c], false) == LuhnSum(s, true) + DigitVal(c)
  {
    if |s| > 0 {
      assert (s + [c])[1..] == s[1..] + [c];
      LuhnSumAppend(s[1..], c);
    }
  }

  /**
   * The check digit of a partial number: the one digit whose appending makes the
   * whole number pass the Luhn check.
   */
  function CheckDigit(s: string): (d: nat)
    requires IsDigits(s)
    ensures d < 10
    ensures LuhnValid(s + [DigitChar(d)])
    ensures forall e :: 0 <= e < 10 && LuhnValid(s + [DigitChar(e)]) ==> e == d
  {
    var d := (10 - LuhnSum(s, true) % 10) % 10;
    CheckDigitUnique(s, d);
    d
  }

  lemma CheckDigitUnique(s: string, d: nat)
    requires IsDigits(s) && d == (10 - LuhnSum(s, true) % 10) % 10
    ensures LuhnValid(s + [DigitChar(d)])
    ensures forall e :: 0 <= e < 10 && LuhnValid(s + [DigitChar(e)]) ==> e == d
  {
    forall e | 0 <= e < 10
      ensures LuhnValid(s + [DigitChar(e)]) <==> e == d
    {
      LuhnSumAppend(s, DigitChar(e));
      CompletesToTen(LuhnSum(s, true), e);
    }
  }

  /** Adding a digit e to a total t reaches a multiple of 10 for exactly one e. */
  lemma CompletesToTen(t: nat, e: nat)
    requires e < 10
    ensures (t + e) % 10 == 0 <==> e == (10 - t % 10) % 10
  {
    var m := t % 10;
    assert t == 10 * (t / 10) + m;
    assert (t + e) % 10 == (m + e) % 10;
  }

  /** Swapping one term below 10 for a different one moves a multiple of 10 off it. */
  lemma SwapBreaksMultiple(a: int, w: nat, v: nat)
    requires w < 10 && v < 10 && w != v && (a + w) % 10 == 0
    ensures (a + v) % 10 != 0
  {
    var k := (a + w) / 10;
    assert a + v == 10 * k + (v - w);
  }

  /**
   * Validation and generation agree: a number passes the Luhn check exactly
   * when its last digit is the check digit of the digits before it.
   */
  lemma ValidIffCheckDigit(s: string)
    requires IsDigits(s) && |s| >= 1
    ensures LuhnValid(s) <==> DigitVal(s[|s| - 1]) == CheckDigit(s[..|s| - 1])
  {
    var p := s[..|s| - 1];
    assert s == p + [s[|s| - 1]];
    var d := DigitVal(s[|s| - 1]);
    assert DigitChar(d) == s[|s| - 1];
  }

  /** Changing one digit at position `i` changes the Luhn total by the difference of its two weights. */
  lemma {:induction false} LuhnSumOneChange(s: string, t: string, i: nat, shift: bool)
    requires IsDigits(s) && IsDigits(t) && |s| == |t| && i < |s|
    requires forall j :: 0 <= j < |s| && j != i ==> s[j] == t[j]
    ensures var db := ((|s| - 1 - i) % 2 == 1) != shift;
      LuhnSum(s, shift) - Weigh(DigitVal(s[i]), db) == LuhnSum(t, shift) - Weigh(DigitVal(t[i]), db)
  {
    if i == 0 {
      assert s[1..] == t[1..];
    } else {
      assert s[0] == t[0];
      assert |s[1..]| - 1 - (i - 1) == |s| - 1 - i;
      assert forall j :: 0 <= j < |s| - 1 && j != i - 1 ==> s[1..][j] == t[1..][j];
      LuhnSumOneChange(s[1..], t[1..], i - 1, shift);
    }
  }

  /** Doubling-and-folding keeps distinct digits distinct. */
  lemma WeighInjective(a: nat, b: nat, doubled: bool)
    requires a < 10 && b < 10 && a != b
    ensures Weigh(a, doubled) != Weigh(b, doubled)
  {
  }

  /** The Luhn check detects every single-digit substitution. */
  lemma SingleDigitErrorDetected(s: string, t: string, i: nat)
    requires LuhnValid(s) && IsDigits(t) && |s| == |t| && i < |s| && s[i] != t[i]
    requires forall j :: 0 <= j < |s| && j != i ==> s[j] == t[j]
    ensures !LuhnValid(t)
  {
    var db := (|s| - 1 - i) % 2 == 1;
    LuhnSumOneChange(s, t, i, false);
    assert DigitVal(s[i]) != DigitVal(t[i]);
    WeighInjective(DigitVal(s[i]), DigitVal(t[i]), db);
    var ws := Weigh(DigitVal(s[i]), db);
    var wt := Weigh(DigitVal(t[i]), db);
    SwapBreaksMultiple(LuhnSum(s, false) - ws, ws, wt);
  }

  /** One step of the right-to-left loops: the total from `i` is the weighted digit at `i` plus the total after it. */
  lemma LuhnSumStep(s: string, i: nat, shift: bool)
    requires IsDigits(s) && i < |s|
    ensures IsDigits(s[i..]) && IsDigits(s[i + 1..])
    ensures LuhnSum(s[i..], shift) == Weigh(DigitVal(s[i]), ((|s| - 1 - i) % 2 == 1) != shift) + LuhnSum(s[i + 1..], shift)
  {
    assert s[i..][0] == s[i] && s[i..][1..] == s[i + 1..];
  }

  /** `luhnCheck`: the panel's right-to-left loop, with the doubling flag starting off. */
  method LuhnCheck(cardNumber: string) returns (valid: bool)
    requires IsDigits(cardNumber)
    ensures valid <==> LuhnValid(cardNumber)
  {
    var sum := 0;
    var isEven := false;
    var i := |cardNumber| - 1;
    while i >= 0
      invariant -1 <= i < |cardNumber|
      invariant sum == LuhnSum(cardNumber[i + 1..], false)
      invariant isEven <==> (|cardNumber| - 1 - i) % 2 == 1
    {
      var digit := DigitVal(cardNumber[i]);
      if isEven {
        digit := digit * 2;
        if digit > 9 {
          digit := digit - 9;
        }
      }
      LuhnSumStep(cardNumber, i, false);
      sum := sum + digit;
      isEven := !isEven;
      i := i - 1;
    }
    assert cardNumber[0..] == cardNumber;
    valid := sum % 10 == 0;
  }

  /** `generateCheckDigit`: the same loop with the doubling flag starting on. */
  method GenerateCheckDigit(cardNumber: string) returns (checkDigit: nat)
    requires IsDigits(cardNumber)
    ensures checkDigit == CheckDigit(cardNumber)
  {
    var sum := 0;
    var isEven := true;
    var i := |cardNumber| - 1;
    while i >= 0
      invariant -1 <= i < |cardNumber|
      invariant sum == LuhnSum(cardNumber[i + 1..], true)
      invariant isEven <==> (|cardNumber| - 1 - i) % 2 == 0
    {
      var digit := DigitVal(cardNumber[i]);
      if isEven {
        digit := digit * 2;
        if digit > 9 {
          digit := digit - 9;
        }
      }
      LuhnSumStep(cardNumber, i, true);
      sum := sum + digit;
      isEven := !isEven;
      i := i - 1;
    }
    assert cardNumber[0..] == cardNumber;
    checkDigit := (10 - sum % 10) % 10;
  }

  /** Round trip of the two loops: a number completed by `GenerateCheckDigit` passes `LuhnCheck`. */
  method CompleteAndCheck(partial: string) returns (number: string, valid: bool)
    requires IsDigits(partial)
    ensures IsPrefix(partial, number) && |number| == |partial| + 1
    ensures valid
  {
    var d := GenerateCheckDigit(partial);
    number := partial + [DigitChar(d)];
    valid := LuhnCheck(number);
  }
}
