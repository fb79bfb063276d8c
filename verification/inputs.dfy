/**
 * The card panel's input handlers, which keep its fields in the shape the
 * generator relies on: the BIN field holds only digits and `;` with at most 16
 * digits per BIN, the CVV field at most 4 digits, the quantity 1 to 130.
 */
module Inputs {
  import opened Text
  import opened Outcomes
  import opened Batch

  /**
   * `value.replace(/[^0-9;]/g, '')`: every digit and `;` of the input survives, as often
   * as it occurs, and nothing else does.
   */
  function KeepDigitsAndSemicolons(s: string): (r: string)
    ensures BinsField(r) && |r| <= |s|
    ensures forall c {:trigger multiset(r)[c]} :: IsDigit(c) || c == ';' ==> multiset(r)[c] == multiset(s)[c]
    ensures BinsField(s) ==> r == s
  {
    if |s| == 0 then ""
    else
      var rest := KeepDigitsAndSemicolons(s[1..]);
      assert s == [s[0]] + s[1..];
      (if IsDigit(s[0]) || s[0] == ';' then [s[0]] else []) + rest
  }

  /** The filter works character by character, so it keeps the input's order: filtering a concatenation concatenates the filtered parts. */
  lemma {:induction false} KeepDigitsAndSemicolonsConcat(a: string, b: string)
    ensures KeepDigitsAndSemicolons(a + b) == KeepDigitsAndSemicolons(a) + KeepDigitsAndSemicolons(b)
    decreases |a|
  {
    if |a| > 0 {
      assert (a + b)[0] == a[0] && (a + b)[1..] == a[1..] + b;
      KeepDigitsAndSemicolonsConcat(a[1..], b);
    } else {
      assert a + b == b;
    }
  }

  /**
   * `value.replace(/\D/g, '')`: every digit of the input survives, as often as it occurs,
   * and nothing else does.
   */
  function KeepDigits(s: string): (r: string)
    ensures IsDigits(r) && |r| <= |s|
    ensures forall c {:trigger multiset(r)[c]} :: IsDigit(c) ==> multiset(r)[c] == multiset(s)[c]
    ensures IsDigits(s) ==> r == s
  {
    if |s| == 0 then ""
    else
      var rest := KeepDigits(s[1..]);
      assert s == [s[0]] + s[1..];
      (if IsDigit(s[0]) then [s[0]] else []) + rest
  }

  /** Filtering a concatenation concatenates the filtered parts, so the digits keep their order. */
  lemma {:induction false} KeepDigitsConcat(a: string, b: string)
    ensures KeepDigits(a + b) == KeepDigits(a) + KeepDigits(b)
    decreases |a|
  {
    if |a| > 0 {
      assert (a + b)[0] == a[0] && (a + b)[1..] == a[1..] + b;
      KeepDigitsConcat(a[1..], b);
    } else {
      assert a + b == b;
    }
  }

  /** `bin.slice(0, 16)` on each piece. */
  function Truncate16(parts: seq<string>): (r: seq<string>)
    ensures |r| == |parts|
    ensures forall i :: 0 <= i < |parts| ==> |r[i]| <= 16 && IsPrefix(r[i], parts[i])
    ensures forall i :: 0 <= i < |parts| && |parts[i]| <= 16 ==> r[i] == parts[i]
  {
    if |parts| == 0 then []
    else [if |parts[0]| <= 16 then parts[0] else parts[0][..16]] + Truncate16(parts[1..])
  }

  /** Every piece between separators has at most 16 characters. */
  predicate ShortSegments(s: string) {
    forall i :: 0 <= i < |Split(s, ';')| ==> |Split(s, ';')[i]| <= 16
  }

  /** The BIN field's change handler. */
  function SanitizeBins(input: string): (r: string)
    ensures BinsField(r) && ShortSegments(r)
    ensures Split(r, ';') == Truncate16(Split(KeepDigitsAndSemicolons(input), ';'))
    ensures BinsField(input) && ShortSegments(input) ==> r == input
  {
    var value := KeepDigitsAndSemicolons(input);
    var parts := Split(value, ';');
    var short := Truncate16(parts);
    var r := Join(short, ';');
    SanitizeShape(value, parts, short, r);
    r
  }

  lemma SanitizeShape(value: string, parts: seq<string>, short: seq<string>, r: string)
    requires BinsField(value) && parts == Split(value, ';') && short == Truncate16(parts)
    requires r == Join(short, ';')
    ensures BinsField(r) && ShortSegments(r)
    ensures Split(r, ';') == short
    ensures ShortSegments(value) ==> r == value
  {
    assert NoneContains(short, ';') by {
      forall i, k | 0 <= i < |short| && 0 <= k < |short[i]| ensures short[i][k] != ';' {
        assert short[i][k] == parts[i][k];
      }
    }
    SplitJoin(short, ';');
    assert BinsField(r) by {
      JoinDigits(short);
      forall i, k | 0 <= i < |short| && 0 <= k < |short[i]|
        ensures IsDigit(short[i][k])
      {
        assert short[i][k] == parts[i][k];
        assert parts[i][k] in value;
      }
    }
    if ShortSegments(value) {
      assert short == parts;
      JoinSplit(value, ';');
    }
  }

  /** Joining digit-only pieces with `;` stays within the BIN field's alphabet. */
  lemma {:induction false} JoinDigits(parts: seq<string>)
    requires forall i, k :: 0 <= i < |parts| && 0 <= k < |parts[i]| ==> IsDigit(parts[i][k])
    ensures BinsField(Join(parts, ';'))
  {
    if |parts| > 1 {
      JoinDigits(parts[1..]);
    }
  }

  /** Sanitising the BIN field twice is sanitising it once. */
  lemma SanitizeBinsIdempotent(input: string)
    ensures SanitizeBins(SanitizeBins(input)) == SanitizeBins(input)
  {
  }

  /** The CVV field's change handler: keep the digits, ignore the edit when more than 4 remain. */
  function SanitizeCvv(current: string, input: string): (r: string)
    ensures IsDigits(current) && |current| <= 4 ==> IsDigits(r) && |r| <= 4
    ensures |KeepDigits(input)| <= 4 ==> r == KeepDigits(input)
    ensures |KeepDigits(input)| > 4 ==> r == current
  {
    var value := KeepDigits(input);
    if |value| <= 4 then value else current
  }

  /**
   * What the CVV field can hold, against `validateCVV`: a field kept to at most 4 digits
   * is refused by the generator exactly when it holds 1 or 2 digits.
   */
  lemma SanitizedCvvValidates(current: string, input: string)
    requires IsDigits(current) && |current| <= 4
    ensures ValidateCvv(SanitizeCvv(current, input)) <==>
              |SanitizeCvv(current, input)| != 1 && |SanitizeCvv(current, input)| != 2
  {
  }

  /**
   * The quantity field's change handler: `Math.min(130, Math.max(1, parseInt(v) || 1))`,
   * with `parsed` the result of `parseInt` (`None` for NaN).
   */
  function ClampQuantity(parsed: Option<int>): (q: int)
    ensures 1 <= q <= 130
    ensures parsed.Some? && 1 <= parsed.value <= 130 ==> q == parsed.value
    ensures parsed.None? ==> q == 1
    ensures parsed.Some? && parsed.value > 130 ==> q == 130
    ensures parsed.Some? && parsed.value < 1 ==> q == 1
  {
    var value := if parsed.None? || parsed.value == 0 then 1 else parsed.value;
    if value > 130 then 130 else if value < 1 then 1 else value
  }
}
