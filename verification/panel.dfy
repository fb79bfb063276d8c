/**
 * The card panel's session state: the staging list `cards` (capped at 130 lines)
 * and the latest generated batch, changed only by generate, add and clear.
 */
module Panel {
  import opened Text
  import opened Outcomes
  import opened Generator
  import opened Batch

  /** The most lines the panel holds. */
  const Capacity: nat := 130

  /** `cards` is the staging list, `generated` the batch waiting to be added, both as text lines. */
  datatype Session = Session(cards: seq<string>, generated: seq<string>)

  /** What `handleAdd` reports. */
  datatype AddOutcome = NothingGenerated | PanelFull | Added(added: nat, remaining: nat)

  /** `handleGenerate` on the session: a successful request replaces the batch, a failing one changes nothing. */
  function GenerateStep(s: Session, req: Request, o: Oracle): (r: (Session, Option<GenError>))
    requires BinsField(req.bins)
    ensures r.0.cards == s.cards
    ensures r.1.Some? ==> r.0 == s
    ensures r.1.None? <==>
              BinsEntered(req) && CvvAccepted(req) && QuantityAccepted(req) && BinList(req.bins) != []
    ensures r.1.None? ==> |r.0.generated| == req.quantity && 1 <= req.quantity <= Capacity
    ensures r.1.None? ==> forall i :: 0 <= i < |r.0.generated| ==> LineFromSomeBin(r.0.generated[i], BinList(req.bins), req)
  {
    match HandleGenerate(req, o)
    case Failure(e) => (s, Some(e))
    case Success(batch) =>
      FormattedLines(batch, BinList(req.bins), req);
      (Session(s.cards, FormatAll(batch)), None)
  }

  /**
   * Each line of a successful batch splits back into a record made from one of the
   * accepted BINs, with the requested month, year and CVV or generated ones.
   */
  lemma GeneratedLinesParse(s: Session, req: Request, o: Oracle)
    requires BinsField(req.bins) && GenerateStep(s, req, o).1.None?
    requires NoChar(req.month, '|') && NoChar(req.year, '|') && NoChar(req.cvv, '|')
    ensures forall i :: 0 <= i < |GenerateStep(s, req, o).0.generated| ==>
              ParseRecord(GenerateStep(s, req, o).0.generated[i]).Some? &&
              FromSomeBin(ParseRecord(GenerateStep(s, req, o).0.generated[i]).value, BinList(req.bins), req)
  {
    var lines := GenerateStep(s, req, o).0.generated;
    forall i | 0 <= i < |lines|
      ensures ParseRecord(lines[i]).Some? && FromSomeBin(ParseRecord(lines[i]).value, BinList(req.bins), req)
    {
      LineParses(lines[i], BinList(req.bins), req);
    }
  }

  /** One BIN, random month and year, no CVV override, one card: the smallest request that succeeds. */
  const OneCardRequest: Request := Request("123456", "random", "random", "", 1)

  /** The one-card request passes every check, so its batch is one whose lines all parse back. */
  lemma OneCardRequestSucceeds(s: Session, o: Oracle)
    ensures BinsField(OneCardRequest.bins) && GenerateStep(s, OneCardRequest, o).1.None?
    ensures NoChar(OneCardRequest.month, '|') && NoChar(OneCardRequest.year, '|') && NoChar(OneCardRequest.cvv, '|')
  {
    OneCardLiterals();
    DigitBinAccepted(OneCardRequest.bins);
    assert BinsEntered(OneCardRequest) && CvvAccepted(OneCardRequest) && QuantityAccepted(OneCardRequest);
  }

  /** A field holding one BIN of 6 to 16 digits passes the first check and lists that BIN. */
  lemma DigitBinAccepted(bin: string)
    requires IsDigits(bin) && 6 <= |bin| <= 16
    ensures BinsField(bin) && Trim(bin) != "" && BinList(bin) != []
  {
    assert BinsField(bin);
    assert Trim(bin) != "" by {
      TrimDigitsOnly(bin);
    }
    assert bin in BinList(bin) by {
      SplitNoSep(bin, ';');
      assert bin in Split(bin, ';');
    }
  }

  lemma OneCardLiterals()
    ensures IsDigits("123456") && |"123456"| == 6
    ensures NoChar("random", '|')
  {
  }

  /** `generatedCards.slice(0, n)` for n > 0: the first n lines, or all of them. */
  function Take(xs: seq<string>, n: nat): (r: seq<string>)
    ensures |r| == if n < |xs| then n else |xs|
    ensures r == xs[..|r|]
  {
    if n < |xs| then xs[..n] else xs
  }

  /**
   * `handleAdd`: refuse when there is no batch or the panel is already full;
   * otherwise append as much of the batch as fits, report how many did not fit,
   * and empty the batch.
   */
  function HandleAdd(s: Session): (r: (Session, AddOutcome))
    ensures s.generated == [] ==> r == (s, NothingGenerated)
    ensures s.generated != [] && |s.cards| >= Capacity ==> r == (s, PanelFull)
    ensures s.generated != [] && |s.cards| < Capacity ==>
              && r.1.Added?
              && r.0.generated == []
              && r.1.added + r.1.remaining == |s.generated|
              && r.0.cards == s.cards + s.generated[..r.1.added]
              && r.1.added > 0
              && |r.0.cards| <= Capacity
              && (r.1.remaining > 0 ==> |r.0.cards| == Capacity)
  {
    if |s.generated| == 0 then (s, NothingGenerated)
    else
      var availableSpace := Capacity as int - |s.cards|;
      if availableSpace <= 0 then (s, PanelFull)
      else
        var cardsToAdd := Take(s.generated, availableSpace);
        var remaining := |s.generated| - |cardsToAdd|;
        (Session(s.cards + cardsToAdd, []), Added(|cardsToAdd|, remaining))
  }

  /** `handleClear`: both lists emptied, whatever they held. */
  function HandleClear(s: Session): (r: Session)
    ensures r.cards == [] && r.generated == []
  {
    Session([], [])
  }

  /** Clearing twice is clearing once. */
  lemma ClearIdempotent(s: Session)
    ensures HandleClear(HandleClear(s)) == HandleClear(s)
  {
  }

  predicate Distinct(xs: seq<string>) {
    forall i, j :: 0 <= i < j < |xs| ==> xs[i] != xs[j]
  }

  /** `[...new Set(cards)]`: each line of the panel, once. */
  function UniqueCards(cards: seq<string>): (u: seq<string>)
    ensures Distinct(u)
    ensures forall x :: x in u <==> x in cards
    ensures |u| <= |cards|
    ensures |u| == |cards| <==> Distinct(cards)
  {
    if |cards| == 0 then []
    else
      var init := cards[..|cards| - 1];
      var last := cards[|cards| - 1];
      var u := UniqueCards(init);
      assert forall x :: x in cards <==> x in init || x == last by {
        assert cards == init + [last];
      }
      UniqueStep(cards, init, last, u);
      if last in u then u else u + [last]
  }

  lemma UniqueStep(cards: seq<string>, init: seq<string>, last: string, u: seq<string>)
    requires |cards| > 0 && init == cards[..|cards| - 1] && last == cards[|cards| - 1]
    requires Distinct(u) && (forall x :: x in u <==> x in init) && |u| <= |init|
    requires |u| == |init| <==> Distinct(init)
    ensures Distinct(cards) <==> Distinct(init) && last !in init
    ensures last !in u ==> Distinct(u + [last])
  {
    if Distinct(cards) {
      forall i | 0 <= i < |init| ensures init[i] != last {
        assert init[i] == cards[i];
      }
    }
    if Distinct(init) && last !in init {
      forall i, j | 0 <= i < j < |cards| ensures cards[i] != cards[j] {
        if j < |cards| - 1 {
          assert cards[i] == init[i] && cards[j] == init[j];
        } else {
          assert cards[i] == init[i];
        }
      }
    }
  }

  /** The panel's "unique" count, `new Set(cards).size`: the number of distinct lines. */
  function UniqueCount(cards: seq<string>): (n: nat)
    ensures n == |set x | x in cards|
    ensures n <= |cards|
    ensures n == |cards| <==> Distinct(cards)
    ensures n == 0 <==> cards == []
  {
    var u := UniqueCards(cards);
    assert cards != [] ==> cards[0] in u;
    DistinctCardinality(u);
    assert (set x | x in u) == (set x | x in cards);
    |u|
  }

  /** A sequence without repeats has as many distinct elements as positions. */
  lemma {:induction false} DistinctCardinality(u: seq<string>)
    requires Distinct(u)
    ensures |set x | x in u| == |u|
    decreases |u|
  {
    if |u| > 0 {
      var t := u[1..];
      assert Distinct(t) by {
        forall i, j | 0 <= i < j < |t| ensures t[i] != t[j] {
          assert t[i] == u[i + 1] && t[j] == u[j + 1];
        }
      }
      DistinctCardinality(t);
      assert u[0] !in t by {
        forall i | 0 <= i < |t| ensures t[i] != u[0] {
          assert t[i] == u[i + 1];
        }
      }
      assert (set x | x in u) == (set x | x in t) + {u[0]} by {
        assert u == [u[0]] + t;
      }
    }
  }

  /** Two equal lines and one other count as two unique lines. */
  lemma UniqueCountExample(a: string, b: string)
    requires a != b
    ensures UniqueCount([a, a, b]) == 2
  {
    var c := [a, a, b];
    UniqueOfRepeat(a);
    assert c[..|c| - 1] == [a, a] && c[|c| - 1] == b;
    assert b !in UniqueCards([a, a]);
    assert UniqueCards(c) == [a] + [b];
  }

  lemma UniqueOfRepeat(a: string)
    ensures UniqueCards([a, a]) == [a]
  {
    assert [a][..0] == [];
    assert UniqueCards([a]) == [a];
    assert [a, a][..1] == [a];
  }

  /** The user actions on the panel. */
  datatype Action = Generate(req: Request, o: Oracle) | Add | Clear

  predicate WellFormed(a: Action) {
    a.Generate? ==> BinsField(a.req.bins)
  }

  function Step(s: Session, a: Action): Session
    requires WellFormed(a)
  {
    match a
    case Generate(req, o) => GenerateStep(s, req, o).0
    case Add => HandleAdd(s).0
    case Clear => HandleClear(s)
  }

  function Run(s: Session, actions: seq<Action>): Session
    requires forall i :: 0 <= i < |actions| ==> WellFormed(actions[i])
    decreases |actions|
  {
    if |actions| == 0 then s else Run(Step(s, actions[0]), actions[1..])
  }

  /** Every action keeps the panel within its capacity. */
  lemma StepKeepsCapacity(s: Session, a: Action)
    requires WellFormed(a) && |s.cards| <= Capacity
    ensures |Step(s, a).cards| <= Capacity
  {
  }

  /** From a panel within capacity, no sequence of actions ever overfills it. */
  lemma {:induction false} RunKeepsCapacity(s: Session, actions: seq<Action>)
    requires forall i :: 0 <= i < |actions| ==> WellFormed(actions[i])
    requires |s.cards| <= Capacity
    ensures |Run(s, actions).cards| <= Capacity
    decreases |actions|
  {
    if |actions| > 0 {
      StepKeepsCapacity(s, actions[0]);
      RunKeepsCapacity(Step(s, actions[0]), actions[1..]);
    }
  }

  /** Adding a 200-line batch to an empty panel adds 130 and leaves 70 out; adding again finds it full. */
  lemma OverflowExample(batch: seq<string>, more: seq<string>)
    requires |batch| == 200 && |more| > 0
    ensures HandleAdd(Session([], batch)) == (Session(batch[..130], []), Added(130, 70))
    ensures HandleAdd(Session(batch[..130], more)) == (Session(batch[..130], more), PanelFull)
  {
    assert Take(batch, 130) == batch[..130];
    assert [] + batch[..130] == batch[..130];
  }
}
