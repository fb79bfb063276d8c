/**
 * `handleGenerate`: validate the generation request, then produce `quantity`
 * records, each from a BIN drawn (with replacement) from the accepted list.
 */
module Batch {
  import opened Text
  import opened Outcomes
  import opened Networks
  import opened Generator

  /** The generator's input fields: `;`-separated BINs, month and year choices, CVV override, quantity. */
  datatype Request = Request(bins: string, month: string, year: string, cvv: string, quantity: int)

  /** Why a request produced no batch, in the order the checks run. */
  datatype GenError = NoBins | BadCvvLength | BadQuantity | NoValidBins

  /** The BIN field only ever holds digits and `;` (its input handler strips everything else). */
  predicate BinsField(s: string) {
    forall i :: 0 <= i < |s| ==> IsDigit(s[i]) || s[i] == ';'
  }

  /** `validateCVV`: an empty code is accepted (one is generated), otherwise 3 or 4 characters. */
  predicate ValidateCvv(cvv: string) {
    if cvv == "" then true else |cvv| == 3 || |cvv| == 4
  }

  /** `segs.map(b => b.trim())`. */
  function TrimAll(segs: seq<string>): (r: seq<string>)
    ensures |r| == |segs|
    ensures forall j :: 0 <= j < |segs| ==> r[j] == Trim(segs[j])
  {
    if |segs| == 0 then [] else [Trim(segs[0])] + TrimAll(segs[1..])
  }

  /**
   * `filter(b => b.length >= 6 && b.length <= 16)`: every piece of allowed length is kept,
   * as often as it occurs, and no other piece is.
   */
  function KeepBinLengths(ts: seq<string>): (r: seq<string>)
    ensures forall b :: b in r <==> b in ts && 6 <= |b| <= 16
    ensures forall b {:trigger multiset(r)[b]} :: 6 <= |b| <= 16 ==> multiset(r)[b] == multiset(ts)[b]
    ensures |r| <= |ts|
  {
    if |ts| == 0 then []
    else
      var rest := KeepBinLengths(ts[1..]);
      assert ts == [ts[0]] + ts[1..];
      (if 6 <= |ts[0]| <= 16 then [ts[0]] else []) + rest
  }

  /** The filter works piece by piece, so it keeps the pieces' order: filtering a concatenation concatenates the filtered parts. */
  lemma {:induction false} KeepBinLengthsConcat(a: seq<string>, b: seq<string>)
    ensures KeepBinLengths(a + b) == KeepBinLengths(a) + KeepBinLengths(b)
    decreases |a|
  {
    if |a| > 0 {
      assert (a + b)[0] == a[0] && (a + b)[1..] == a[1..] + b;
      KeepBinLengthsConcat(a[1..], b);
    } else {
      assert a + b == b;
    }
  }

  /** Digit-only segments are unchanged by trimming. */
  lemma TrimAllDigits(segs: seq<string>)
    requires forall j :: 0 <= j < |segs| ==> IsDigits(segs[j])
    ensures TrimAll(segs) == segs
  {
    forall j | 0 <= j < |segs| ensures TrimAll(segs)[j] == segs[j] {
      TrimDigitsOnly(segs[j]);
    }
  }

  /** The pieces of the BIN field between separators are digit strings. */
  lemma SegmentsAreDigits(bins: string)
    requires BinsField(bins)
    ensures forall j :: 0 <= j < |Split(bins, ';')| ==> IsDigits(Split(bins, ';')[j])
  {
    var segs := Split(bins, ';');
    forall j | 0 <= j < |segs| ensures IsDigits(segs[j]) {
      forall k | 0 <= k < |segs[j]| ensures IsDigit(segs[j][k]) {
        assert segs[j][k] in bins && segs[j][k] != ';';
      }
    }
  }

  /**
   * `bins.split(';').map(b => b.trim()).filter(b => b.length >= 6 && b.length <= 16)`:
   * on the BIN field, exactly the pieces between separators that have 6 to 16 digits,
   * each as often as it occurs (a repeated BIN is drawn more often).
   */
  function BinList(bins: string): (r: seq<string>)
    requires BinsField(bins)
    ensures forall b :: b in r <==> b in Split(bins, ';') && 6 <= |b| <= 16
    ensures forall b {:trigger multiset(r)[b]} :: 6 <= |b| <= 16 ==> multiset(r)[b] == multiset(Split(bins, ';'))[b]
    ensures forall i :: 0 <= i < |r| ==> IsDigits(r[i])
  {
    var segs := Split(bins, ';');
    BinListDigits(segs, bins);
    KeepBinLengths(TrimAll(segs))
  }

  lemma BinListDigits(segs: seq<string>, bins: string)
    requires BinsField(bins) && segs == Split(bins, ';')
    ensures TrimAll(segs) == segs
    ensures forall i :: 0 <= i < |KeepBinLengths(segs)| ==> IsDigits(KeepBinLengths(segs)[i])
  {
    SegmentsAreDigits(bins);
    TrimAllDigits(segs);
    var r := KeepBinLengths(segs);
    forall i | 0 <= i < |r| ensures IsDigits(r[i]) {
      assert r[i] in segs;
      var j :| 0 <= j < |segs| && segs[j] == r[i];
    }
  }

  /** What every record of a batch generated for `req` satisfies, given the BIN it was made from. */
  predicate FromBin(rec: CardRecord, bin: string, req: Request)
    requires IsDigits(bin)
  {
    && NumberFrom(rec.number, bin)
    && (if req.month == "random" then IsMonthText(rec.month) else rec.month == req.month)
    && (if req.year == "random" then IsYearText(rec.year) else rec.year == req.year)
    && (if req.cvv != "" then rec.cvv == req.cvv
        else |rec.cvv| == CvvLength(GetCardType(bin)) && IsDigits(rec.cvv))
  }

  /** A record made from one of the accepted BINs. */
  predicate FromSomeBin(rec: CardRecord, binList: seq<string>, req: Request)
    requires forall i :: 0 <= i < |binList| ==> IsDigits(binList[i])
  {
    exists j :: 0 <= j < |binList| && FromBin(rec, binList[j], req)
  }

  /** One iteration of the generation loop: pick a BIN, then number, month, year and code, in that order. */
  function NextRecord(binList: seq<string>, req: Request, o: Oracle, k: nat): (r: Drawn<CardRecord>)
    requires |binList| > 0 && forall i :: 0 <= i < |binList| ==> IsDigits(binList[i])
    ensures FromSomeBin(r.value, binList, req)
    ensures r.next > k
  {
    var j := Draw(o, k, |binList|);
    var bin := binList[j];
    var number := GenerateCardFromBin(bin, o, k + 1);
    var month := if req.month == "random" then RandomMonth(o, number.next) else Drawn(req.month, number.next);
    var year := if req.year == "random" then RandomYear(o, month.next) else Drawn(req.year, month.next);
    var cvv := if req.cvv != "" then Drawn(req.cvv, year.next) else RandomCvv(bin, o, year.next);
    var rec := CardRecord(number.value, month.value, year.value, cvv.value);
    assert FromBin(rec, binList[j], req);
    Drawn(rec, cvv.next)
  }

  /** The generation loop: `n` records, drawn one after another. */
  function GenerateRecords(n: nat, binList: seq<string>, req: Request, o: Oracle, k: nat): (r: Drawn<seq<CardRecord>>)
    requires |binList| > 0 && forall i :: 0 <= i < |binList| ==> IsDigits(binList[i])
    ensures |r.value| == n
    ensures forall i :: 0 <= i < n ==> FromSomeBin(r.value[i], binList, req)
  {
    if n == 0 then Drawn([], k)
    else
      var first := NextRecord(binList, req, o, k);
      var rest := GenerateRecords(n - 1, binList, req, o, first.next);
      var all := [first.value] + rest.value;
      ConsFromSomeBin(first.value, rest.value, binList, req);
      Drawn(all, rest.next)
  }

  lemma ConsFromSomeBin(x: CardRecord, xs: seq<CardRecord>, binList: seq<string>, req: Request)
    requires forall i :: 0 <= i < |binList| ==> IsDigits(binList[i])
    requires FromSomeBin(x, binList, req)
    requires forall i :: 0 <= i < |xs| ==> FromSomeBin(xs[i], binList, req)
    ensures forall i :: 0 <= i < |xs| + 1 ==> FromSomeBin(([x] + xs)[i], binList, req)
  {
    forall i | 0 <= i < |xs| + 1 ensures FromSomeBin(([x] + xs)[i], binList, req) {
      if i > 0 {
        assert ([x] + xs)[i] == xs[i - 1];
      }
    }
  }

  /**
   * A generated record's text line reads back as the record, provided the month, year
   * and CVV the request passes through hold no `|`; the month and year selects and the
   * digits-only CVV field never offer one.
   */
  lemma RecordParses(rec: CardRecord, binList: seq<string>, req: Request)
    requires forall i :: 0 <= i < |binList| ==> IsDigits(binList[i])
    requires FromSomeBin(rec, binList, req)
    requires NoChar(req.month, '|') && NoChar(req.year, '|') && NoChar(req.cvv, '|')
    ensures ParseRecord(Format(rec)) == Some(rec)
  {
    var j :| 0 <= j < |binList| && FromBin(rec, binList[j], req);
    DigitsHaveNoBar(rec.number);
    if req.month == "random" { DigitsHaveNoBar(rec.month); }
    if req.year == "random" { DigitsHaveNoBar(rec.year); }
    if req.cvv == "" { DigitsHaveNoBar(rec.cvv); }
    FormatParse(rec);
  }

  /** A text line that is the `|`-joined form of a record made from one of the accepted BINs. */
  ghost predicate LineFromSomeBin(line: string, binList: seq<string>, req: Request)
    requires forall i :: 0 <= i < |binList| ==> IsDigits(binList[i])
  {
    exists rec :: FromSomeBin(rec, binList, req) && line == Format(rec)
  }

  /** Every line of a formatted batch is the text of one of its records. */
  lemma FormattedLines(batch: seq<CardRecord>, binList: seq<string>, req: Request)
    requires forall i :: 0 <= i < |binList| ==> IsDigits(binList[i])
    requires forall i :: 0 <= i < |batch| ==> FromSomeBin(batch[i], binList, req)
    ensures forall i :: 0 <= i < |FormatAll(batch)| ==> LineFromSomeBin(FormatAll(batch)[i], binList, req)
  {
    forall i | 0 <= i < |FormatAll(batch)|
      ensures LineFromSomeBin(FormatAll(batch)[i], binList, req)
    {
      assert FromSomeBin(batch[i], binList, req) && FormatAll(batch)[i] == Format(batch[i]);
    }
  }

  /** A line from the generator splits back into the record it was written from. */
  lemma LineParses(line: string, binList: seq<string>, req: Request)
    requires forall i :: 0 <= i < |binList| ==> IsDigits(binList[i])
    requires LineFromSomeBin(line, binList, req)
    requires NoChar(req.month, '|') && NoChar(req.year, '|') && NoChar(req.cvv, '|')
    ensures ParseRecord(line).Some? && FromSomeBin(ParseRecord(line).value, binList, req)
  {
    var rec :| FromSomeBin(rec, binList, req) && line == Format(rec);
    RecordParses(rec, binList, req);
  }

  /** The four checks of `handleGenerate`, in order. */
  predicate BinsEntered(req: Request) {
    Trim(req.bins) != ""
  }

  predicate CvvAccepted(req: Request) {
    !(req.cvv != "" && !ValidateCvv(req.cvv))
  }

  predicate QuantityAccepted(req: Request) {
    1 <= req.quantity <= 130
  }

  /** `handleGenerate`: the first failing check decides the error; otherwise a batch of `quantity` records. */
  function HandleGenerate(req: Request, o: Oracle): (r: Result<seq<CardRecord>, GenError>)
    requires BinsField(req.bins)
    ensures r == Failure(NoBins) <==> !BinsEntered(req)
    ensures r == Failure(BadCvvLength) <==> BinsEntered(req) && !CvvAccepted(req)
    ensures r == Failure(BadQuantity) <==> BinsEntered(req) && CvvAccepted(req) && !QuantityAccepted(req)
    ensures r == Failure(NoValidBins) <==>
              BinsEntered(req) && CvvAccepted(req) && QuantityAccepted(req) && BinList(req.bins) == []
    ensures r.Success? ==> |r.value| == req.quantity
    ensures r.Success? ==> forall i :: 0 <= i < |r.value| ==> FromSomeBin(r.value[i], BinList(req.bins), req)
  {
    if !BinsEntered(req) then Failure(NoBins)
    else if req.cvv != "" && !ValidateCvv(req.cvv) then Failure(BadCvvLength)
    else if req.quantity < 1 || req.quantity > 130 then Failure(BadQuantity)
    else
      var binList := BinList(req.bins);
      if |binList| == 0 then Failure(NoValidBins)
      else Success(GenerateRecords(req.quantity, binList, req, o, 0).value)
  }

  /** On the BIN field, trimming changes nothing: the first check fails exactly on an empty field. */
  lemma NoBinsIffEmpty(req: Request)
    requires BinsField(req.bins)
    ensures !BinsEntered(req) <==> req.bins == ""
  {
    TrimDigitsOnly(req.bins);
  }
}
