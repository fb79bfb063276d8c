/**
 * Card network classification by leading digits (`getCardType`): four rules tried
 * in order, the first that matches wins.
 */
module Networks {
  import opened Text
  import opened Outcomes

  datatype Network = Amex | Visa | Mastercard | Other

  /** Total card-number length for a network: 15 for amex, 16 otherwise. */
  function CardLength(n: Network): nat {
    if n == Amex then 15 else 16
  }

  /** Length of a generated security code: 4 for amex, 3 otherwise. */
  function CvvLength(n: Network): nat {
    if n == Amex then 4 else 3
  }

  /** `s.substring(0, n)`: the first n characters, or all of a shorter string. */
  function Head(s: string, n: nat): (r: string)
    ensures |r| <= n && IsPrefix(r, s)
    ensures |s| >= n ==> |r| == n
  {
    if |s| <= n then s else s[..n]
  }

  /** `parseInt` of a digit string: NaN (here `None`) for the empty string. */
  function ParseDigits(s: string): Option<nat>
    requires IsDigits(s)
  {
    if |s| == 0 then None else Some(DecimalValue(s))
  }

  /** A comparison `lo <= v && v <= hi` in which NaN compares false. */
  predicate InRange(v: Option<nat>, lo: nat, hi: nat) {
    v.Some? && lo <= v.value <= hi
  }

  /** The four rules, each stated on its own. */
  predicate AmexRule(bin: string) {
    |bin| >= 2 && bin[0] == '3' && (bin[1] == '4' || bin[1] == '7')
  }

  predicate VisaRule(bin: string) {
    |bin| >= 1 && bin[0] == '4'
  }

  predicate MastercardRule(bin: string)
    requires IsDigits(bin)
  {
    (|bin| >= 2 && 51 <= DecimalValue(bin[..2]) <= 55)
    || (|bin| >= 4 && 2221 <= DecimalValue(bin[..4]) <= 2720)
  }

  /** A mastercard prefix starts with 5 (range 51-55) or 2 (range 2221-2720). */
  lemma MastercardLeadingDigit(bin: string)
    requires IsDigits(bin) && MastercardRule(bin)
    ensures bin[0] == '5' || bin[0] == '2'
  {
    if |bin| >= 2 && 51 <= DecimalValue(bin[..2]) <= 55 {
      LeadingDigitValue(bin[..2]);
      ValueBelowPow10(bin[..2][1..]);
      assert Pow10(1) == 10;
    } else {
      LeadingDigitValue(bin[..4]);
      ValueBelowPow10(bin[..4][1..]);
      assert Pow10(3) == 1000;
    }
  }

  /** At most one rule fires, so the order in which they are tried never matters. */
  lemma RulesDisjoint(bin: string)
    requires IsDigits(bin)
    ensures !(AmexRule(bin) && VisaRule(bin))
    ensures !(AmexRule(bin) && MastercardRule(bin))
    ensures !(VisaRule(bin) && MastercardRule(bin))
  {
    if MastercardRule(bin) {
      MastercardLeadingDigit(bin);
    }
  }

  /** `getCardType`, written as the panel does it: substrings, `parseInt`, first match wins. */
  function GetCardType(bin: string): (r: Network)
    requires IsDigits(bin)
    ensures r == Amex <==> AmexRule(bin)
    ensures r == Visa <==> VisaRule(bin)
    ensures r == Mastercard <==> MastercardRule(bin)
    ensures r == Other <==> !AmexRule(bin) && !VisaRule(bin) && !MastercardRule(bin)
  {
    var firstTwo := Head(bin, 2);
    var firstFour := Head(bin, 4);
    ClassifierShape(bin, firstTwo, firstFour);
    RulesDisjoint(bin);
    if firstTwo == "34" || firstTwo == "37" then Amex
    else if |bin| > 0 && bin[0] == '4' then Visa
    else if InRange(ParseDigits(firstTwo), 51, 55) then Mastercard
    else if InRange(ParseDigits(firstFour), 2221, 2720) then Mastercard
    else Other
  }

  /** The substring tests of `getCardType` are the rules above. */
  lemma ClassifierShape(bin: string, firstTwo: string, firstFour: string)
    requires IsDigits(bin) && firstTwo == Head(bin, 2) && firstFour == Head(bin, 4)
    ensures IsDigits(firstTwo) && IsDigits(firstFour)
    ensures (firstTwo == "34" || firstTwo == "37") <==> AmexRule(bin)
    ensures (|bin| > 0 && bin[0] == '4') <==> VisaRule(bin)
    ensures (InRange(ParseDigits(firstTwo), 51, 55) || InRange(ParseDigits(firstFour), 2221, 2720))
            <==> MastercardRule(bin)
  {
    RulesDisjoint(bin);
    if |bin| < 2 {
      ValueBelowPow10(firstTwo);
      assert Pow10(|firstTwo|) <= 10 by { if |firstTwo| == 1 { assert Pow10(1) == 10; } }
    }
    if |bin| < 4 {
      ValueBelowPow10(firstFour);
      assert Pow10(|firstFour|) <= 1000 by {
        assert Pow10(1) == 10;
        assert Pow10(2) == 100;
        assert Pow10(3) == 1000;
      }
    }
  }
}
