/**
 * Synthesis of one card record from a prefix (BIN): the number padded with random
 * digits and completed with its Luhn check digit, a random or chosen expiry month
 * and year, and a random or chosen security code.
 *
 * `Math.random()` is replaced by an oracle: the k-th call returns `o(k)`, and
 * `Math.floor(Math.random() * n)` becomes `o(k) % n`, so every value in `[0, n)` can
 * occur. Each function takes the index of its first draw and reports the index of
 * the next unused one. Nothing is claimed about distribution.
 */
module Generator {
  import opened Text
  import opened Outcomes
  import opened Luhn
  import opened Networks

  type Oracle = nat -> nat

  /** `Math.floor(Math.random() * n)` on draw k. */
  function Draw(o: Oracle, k: nat, n: nat): (v: nat)
    requires n > 0
    ensures v < n
  {
    o(k) % n
  }

  /** A generated value together with the index of the next unused draw. */
  datatype Drawn<T> = Drawn(value: T, next: nat)

  /** The padding loop of `generateCardFromBIN`: one random digit per draw until `target` characters. */
  function PadDigits(s: string, target: nat, o: Oracle, k: nat): (r: Drawn<string>)
    requires IsDigits(s)
    ensures IsDigits(r.value) && IsPrefix(s, r.value)
    ensures |r.value| == if |s| >= target then |s| else target
    ensures r.next == k + (|r.value| - |s|)
    ensures forall j :: |s| <= j < |r.value| ==> r.value[j] == DigitChar(Draw(o, k + (j - |s|), 10))
    decreases target - |s|
  {
    if |s| >= target then Drawn(s, k)
    else
      var t := s + [DigitChar(Draw(o, k, 10))];
      var r := PadDigits(t, target, o, k + 1);
      assert r.value[..|s|] == r.value[..|t|][..|s|];
      r
  }

  function Max(a: nat, b: nat): nat {
    if a >= b then a else b
  }

  /** The properties every number generated from `bin` has. */
  predicate NumberFrom(number: string, bin: string)
    requires IsDigits(bin)
  {
    && IsDigits(number)
    && IsPrefix(bin, number)
    && LuhnValid(number)
    && |number| == Max(|bin|, CardLength(GetCardType(bin)) - 1) + 1
  }

  /**
   * `generateCardFromBIN`: pad `bin` to one short of the network's length (never
   * truncating a longer one) and append the check digit.
   */
  function GenerateCardFromBin(bin: string, o: Oracle, k: nat): (r: Drawn<string>)
    requires IsDigits(bin)
    ensures NumberFrom(r.value, bin)
    ensures DigitVal(r.value[|r.value| - 1]) == CheckDigit(r.value[..|r.value| - 1])
    ensures r.next == k + (|r.value| - 1 - |bin|)
  {
    var cardLength := CardLength(GetCardType(bin));
    var padded := PadDigits(bin, cardLength - 1, o, k);
    var number := padded.value + [DigitChar(CheckDigit(padded.value))];
    assert number[..|number| - 1] == padded.value;
    assert number[..|bin|] == padded.value[..|bin|];
    Drawn(number, padded.next)
  }

  /** A two-character month text "01" to "12". */
  predicate IsMonthText(m: string) {
    |m| == 2 && IsDigits(m) && 1 <= DecimalValue(m) <= 12
  }

  /** A four-digit year from 2025 to 2032. */
  predicate IsYearText(y: string) {
    |y| == 4 && IsDigits(y) && 2025 <= DecimalValue(y) <= 2032
  }

  /** `getRandomMonth`: `String(floor(random * 12) + 1).padStart(2, '0')`. */
  function RandomMonth(o: Oracle, k: nat): (r: Drawn<string>)
    ensures IsMonthText(r.value) && r.next == k + 1
  {
    assert Pow10(2) == 100;
    Drawn(ZeroPadded(Draw(o, k, 12) + 1, 2), k + 1)
  }

  /** The years `getRandomYear` picks from. */
  const Years: seq<nat> := [2025, 2026, 2027, 2028, 2029, 2030, 2031, 2032]

  /** `getRandomYear`: one of `Years`, printed in decimal. */
  function RandomYear(o: Oracle, k: nat): (r: Drawn<string>)
    ensures IsYearText(r.value) && r.next == k + 1
  {
    var y := Years[Draw(o, k, |Years|)];
    FourDigitText(y);
    Drawn(NatToString(y), k + 1)
  }

  lemma FourDigitText(n: nat)
    requires 1000 <= n < 10000
    ensures |NatToString(n)| == 4
  {
    assert Pow10(4) == 10000;
    NatToStringWidth(n, 4);
    var s := NatToString(n);
    ValueBelowPow10(s);
  }

  /** `getRandomCVV`: a random value below 10^len zero-padded to len, len 4 for amex and 3 otherwise. */
  function RandomCvv(bin: string, o: Oracle, k: nat): (r: Drawn<string>)
    requires IsDigits(bin)
    ensures |r.value| == CvvLength(GetCardType(bin)) && IsDigits(r.value)
    ensures r.next == k + 1
  {
    var length := CvvLength(GetCardType(bin));
    Drawn(ZeroPadded(Draw(o, k, Pow10(length)), length), k + 1)
  }

  /** One generated record, before it is written out as text. */
  datatype CardRecord = CardRecord(number: string, month: string, year: string, cvv: string)

  /** The text form of a record: `number|month|year|cvv`. */
  function Format(r: CardRecord): string {
    r.number + "|" + r.month + "|" + r.year + "|" + r.cvv
  }

  function FormatAll(rs: seq<CardRecord>): (lines: seq<string>)
    ensures |lines| == |rs|
    ensures forall i :: 0 <= i < |rs| ==> lines[i] == Format(rs[i])
  {
    if |rs| == 0 then [] else [Format(rs[0])] + FormatAll(rs[1..])
  }

  /** Reads a record back from its text form. */
  function ParseRecord(line: string): Option<CardRecord> {
    var parts := Split(line, '|');
    if |parts| == 4 then Some(CardRecord(parts[0], parts[1], parts[2], parts[3])) else None
  }

  /** The text form is lossless as long as no field contains the separator. */
  lemma FormatParse(r: CardRecord)
    requires NoChar(r.number, '|') && NoChar(r.month, '|') && NoChar(r.year, '|') && NoChar(r.cvv, '|')
    ensures ParseRecord(Format(r)) == Some(r)
  {
    var parts := [r.number, r.month, r.year, r.cvv];
    assert Join(parts, '|') == Format(r) by {
      assert parts[1..] == [r.month, r.year, r.cvv];
      assert parts[1..][1..] == [r.year, r.cvv];
      assert parts[1..][1..][1..] == [r.cvv];
      assert Join([r.year, r.cvv], '|') == r.year + "|" + r.cvv;
      assert Join([r.month, r.year, r.cvv], '|') == r.month + "|" + (r.year + "|" + r.cvv);
    }
    assert NoneContains(parts, '|') by {
      forall i, k | 0 <= i < 4 && 0 <= k < |parts[i]|
        ensures parts[i][k] != '|'
      {
        if i == 0 { } else if i == 1 { } else if i == 2 { } else { }
      }
    }
    SplitJoin(parts, '|');
  }

  /** A digit string never contains the separator. */
  lemma DigitsHaveNoBar(s: string)
    requires IsDigits(s)
    ensures NoChar(s, '|')
  {
  }
}
