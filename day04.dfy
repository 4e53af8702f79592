/**
 * Day 4: scratch cards. A card wins once for every one of its numbers that is
 * also a winning number. Part 1 scores `2^(wins - 1)` points per winning card;
 * in part 2 a card with `n` wins earns one copy of each of the next `n` cards
 * (by id) for every instance of it held, and the answer is the number of
 * card instances held in the end.
 */
module Day04 {
  import opened Results

  datatype Error = ParseIntError | InvalidScratchCard(line: string)

  datatype ScratchCard = ScratchCard(id: nat, left: set<nat>, right: set<nat>)

  // ---------------------------------------------------------------------------
  // Matches and points

  /** `count_matches`: how many numbers are on both sides of the card. */
  function CountMatches(card: ScratchCard): (r: nat)
    ensures r == |card.left * card.right|
    ensures r <= |card.left| && r <= |card.right|
  {
    var both := card.left * card.right;
    assert both <= card.left && both <= card.right;
    SubsetSize(both, card.left);
    SubsetSize(both, card.right);
    |both|
  }

  lemma {:induction false} SubsetSize(a: set<nat>, b: set<nat>)
    requires a <= b
    ensures |a| <= |b|
    decreases |b|
  {
    if a != {} {
      var x :| x in a;
      SubsetSize(a - {x}, b - {x});
    }
  }

  /** The matches of a card do not depend on which side holds the winning numbers. */
  lemma CountMatchesSymmetric(card: ScratchCard)
    ensures CountMatches(card) == CountMatches(ScratchCard(card.id, card.right, card.left))
  {
    assert card.left * card.right == card.right * card.left;
  }

  function Pow2(n: nat): (r: nat)
    ensures r >= 1
  {
    if n == 0 then 1 else 2 * Pow2(n - 1)
  }

  /** The points of a card with `matches` matches: none without a match, then doubling from 1. */
  function PointsFor(matches: nat): (r: nat)
    ensures r == 0 <==> matches == 0
    ensures matches > 0 ==> r == Pow2(matches - 1)
  {
    if matches > 0 then Pow2(matches - 1) else 0
  }

  /** One match scores 1 point, and every further match doubles the points. */
  lemma PointsDouble(matches: nat)
    requires matches >= 1
    ensures PointsFor(1) == 1
    ensures PointsFor(matches + 1) == 2 * PointsFor(matches)
  {
    var m := matches - 1;
    assert Pow2(matches) == 2 * Pow2(m);
  }

  /** `get_points`. */
  function Points(card: ScratchCard): (r: nat)
    ensures r == PointsFor(|card.left * card.right|)
  {
    PointsFor(CountMatches(card))
  }

  /**
   * A card never scores more than `2^(n - 1)` points, n being the count of
   * numbers on either of its sides: every number on both sides can match.
   */
  lemma PointsBound(card: ScratchCard)
    ensures |card.left| > 0 ==> Points(card) <= Pow2(|card.left| - 1)
    ensures |card.right| > 0 ==> Points(card) <= Pow2(|card.right| - 1)
  {
    var m := CountMatches(card);
    if m > 0 {
      Pow2Monotone(m - 1, |card.left| - 1);
      Pow2Monotone(m - 1, |card.right| - 1);
    }
  }

  /** The bound is reached: a card whose numbers all win scores `2^(n - 1)`. */
  lemma PointsBoundReached(id: nat, numbers: set<nat>)
    requires |numbers| > 0
    ensures Points(ScratchCard(id, numbers, numbers)) == Pow2(|numbers| - 1)
  {
    assert numbers * numbers == numbers;
  }

  lemma {:induction false} Pow2Monotone(a: nat, b: nat)
    requires a <= b
    ensures Pow2(a) <= Pow2(b)
    decreases b
  {
    if a < b {
      var m := b - 1;
      Pow2Monotone(a, m);
      assert Pow2(b) == 2 * Pow2(m);
    }
  }

  function SumPoints(cards: seq<ScratchCard>): nat
    decreases |cards|
  {
    if cards == [] then 0 else Points(cards[0]) + SumPoints(cards[1..])
  }

  /** A table earns points exactly when one of its cards has a match. */
  lemma {:induction false} SumPointsPositive(cards: seq<ScratchCard>)
    ensures SumPoints(cards) > 0 <==> exists i :: 0 <= i < |cards| && CountMatches(cards[i]) > 0
    decreases |cards|
  {
    if cards != [] {
      var rest := cards[1..];
      SumPointsPositive(rest);
      if exists i :: 0 <= i < |rest| && CountMatches(rest[i]) > 0 {
        var i :| 0 <= i < |rest| && CountMatches(rest[i]) > 0;
        assert rest[i] == cards[i + 1];
      }
      if exists i :: 0 <= i < |cards| && CountMatches(cards[i]) > 0 {
        var i :| 0 <= i < |cards| && CountMatches(cards[i]) > 0;
        if i > 0 {
          assert rest[i - 1] == cards[i];
        }
      }
    }
  }

  /**
   * `part1`: the total points of the cards. Reading a card (a regular
   * expression in the program) is the parameter `parse`.
   */
  function Part1(lines: seq<string>, parse: string -> Result<ScratchCard, Error>): (r: Result<nat, Error>)
    ensures TryCollect(lines, parse).Err? ==> r == Err(TryCollect(lines, parse).error)
    ensures TryCollect(lines, parse).Ok? ==> r == Ok(SumPoints(TryCollect(lines, parse).value))
  {
    var cards :- TryCollect(lines, parse);
    Ok(SumPoints(cards))
  }

  // ---------------------------------------------------------------------------
  // Copies

  /** What part 2 needs of a card: its id and its number of matches. */
  datatype Outcome = Outcome(id: nat, matches: nat)

  function Outcomes(cards: seq<ScratchCard>): (r: seq<Outcome>)
    ensures |r| == |cards|
    ensures forall i :: 0 <= i < |cards| ==> r[i] == Outcome(cards[i].id, CountMatches(cards[i]))
  {
    seq(|cards|, i requires 0 <= i < |cards| => Outcome(cards[i].id, CountMatches(cards[i])))
  }

  /** A card with id `id` and `n` matches wins copies of the cards `id + 1` to `id + n`. */
  predicate Covers(o: Outcome, x: nat)
  {
    o.id < x <= o.id + o.matches
  }

  /**
   * The copies of card `x` won by the first `k` cards: each of them that
   * covers `x` gives as many copies as instances of it are held.
   */
  function CopiesBefore(outcomes: seq<Outcome>, k: nat, x: nat): nat
    requires k <= |outcomes|
    decreases k, 0
  {
    if k == 0 then 0
    else CopiesBefore(outcomes, k - 1, x) + (if Covers(outcomes[k - 1], x) then Multiplier(outcomes, k - 1) else 0)
  }

  /** The instances held of the `k`-th card: the original and the copies won before it. */
  function Multiplier(outcomes: seq<Outcome>, k: nat): (r: nat)
    requires k < |outcomes|
    ensures r >= 1
    decreases k, 1
  {
    1 + CopiesBefore(outcomes, k, outcomes[k].id)
  }

  /** The instances held of the first `k` cards. */
  function TotalBefore(outcomes: seq<Outcome>, k: nat): nat
    requires k <= |outcomes|
  {
    if k == 0 then 0 else TotalBefore(outcomes, k - 1) + Multiplier(outcomes, k - 1)
  }

  /** Every card is held at least once, so the total is at least the number of cards. */
  lemma {:induction false} TotalAtLeastCards(outcomes: seq<Outcome>, k: nat)
    requires k <= |outcomes|
    ensures TotalBefore(outcomes, k) >= k
  {
    if k > 0 {
      TotalAtLeastCards(outcomes, k - 1);
    }
  }

  /** Without matches no copies are won: every card is held once. */
  lemma {:induction false} NoMatchesNoCopies(outcomes: seq<Outcome>, k: nat)
    requires k <= |outcomes|
    requires forall i :: 0 <= i < |outcomes| ==> outcomes[i].matches == 0
    ensures TotalBefore(outcomes, k) == k
    ensures forall x: nat :: CopiesBefore(outcomes, k, x) == 0
  {
    if k > 0 {
      var j := k - 1;
      NoMatchesNoCopies(outcomes, j);
      var o := outcomes[j];
      assert o.matches == 0;
      assert CopiesBefore(outcomes, j, o.id) == 0;
      assert Multiplier(outcomes, j) == 1;
      forall x: nat
        ensures CopiesBefore(outcomes, k, x) == 0
      {
        assert !Covers(o, x);
      }
    }
  }

  function Get(copies: map<nat, nat>, x: nat): nat
  {
    if x in copies then copies[x] else 0
  }

  /**
   * The loop of `part2`: `copies` holds the copies won so far of each id, and
   * every card adds its instances to the total and to the copies of the
   * cards it covers.
   */
  method CountInstances(cards: seq<ScratchCard>) returns (total: nat)
    ensures total == TotalBefore(Outcomes(cards), |cards|)
  {
    ghost var outcomes := Outcomes(cards);
    var copies: map<nat, nat> := map[];
    total := 0;
    for k := 0 to |cards|
      invariant total == TotalBefore(outcomes, k)
      invariant forall x: nat :: Get(copies, x) == CopiesBefore(outcomes, k, x)
    {
      var card := cards[k];
      var multiplier := 1 + Get(copies, card.id);
      total := total + multiplier;
      var matches := CountMatches(card);
      assert outcomes[k] == Outcome(card.id, matches);
      for i := 1 to matches + 1
        invariant forall x: nat ::
          Get(copies, x) == CopiesBefore(outcomes, k, x) + (if card.id < x < card.id + i then multiplier else 0)
      {
        copies := copies[card.id + i := Get(copies, card.id + i) + multiplier];
      }
    }
  }

  /** `part2`. */
  method Part2(lines: seq<string>, parse: string -> Result<ScratchCard, Error>) returns (r: Result<nat, Error>)
    ensures TryCollect(lines, parse).Err? ==> r == Err(TryCollect(lines, parse).error)
    ensures TryCollect(lines, parse).Ok? ==>
      r == Ok(TotalBefore(Outcomes(TryCollect(lines, parse).value), |lines|))
    ensures r.Ok? ==> r.value >= |lines|
  {
    var parsed := TryCollect(lines, parse);
    if parsed.Err? {
      return Err(parsed.error);
    }
    var total := CountInstances(parsed.value);
    TotalAtLeastCards(Outcomes(parsed.value), |lines|);
    r := Ok(total);
  }

  // ---------------------------------------------------------------------------
  // The example table

  const ExampleLines: seq<string> := [
    "Card 1: 41 48 83 86 17 | 83 86  6 31 17  9 48 53",
    "Card 2: 13 32 20 16 61 | 61 30 68 82 17 32 24 19",
    "Card 3:  1 21 53 59 44 | 69 82 63 72 16 21 14  1",
    "Card 4: 41 92 73 84 69 | 59 84 76 51 58  5 54 83",
    "Card 5: 87 83 26 28 32 | 88 30 70 12 93 22 82 36",
    "Card 6: 31 18 13 56 72 | 74 77 10 23 35 67 36 11"
  ]

  const ExampleCards: seq<ScratchCard> := [
    ScratchCard(1, {41, 48, 83, 86, 17}, {83, 86, 6, 31, 17, 9, 48, 53}),
    ScratchCard(2, {13, 32, 20, 16, 61}, {61, 30, 68, 82, 17, 32, 24, 19}),
    ScratchCard(3, {1, 21, 53, 59, 44}, {69, 82, 63, 72, 16, 21, 14, 1}),
    ScratchCard(4, {41, 92, 73, 84, 69}, {59, 84, 76, 51, 58, 5, 54, 83}),
    ScratchCard(5, {87, 83, 26, 28, 32}, {88, 30, 70, 12, 93, 22, 82, 36}),
    ScratchCard(6, {31, 18, 13, 56, 72}, {74, 77, 10, 23, 35, 67, 36, 11})
  ]

  const ExampleOutcomes: seq<Outcome> :=
    [Outcome(1, 4), Outcome(2, 2), Outcome(3, 2), Outcome(4, 1), Outcome(5, 0), Outcome(6, 0)]

  lemma ExampleCard1()
    ensures ExampleOutcomes[0] == Outcome(ExampleCards[0].id, CountMatches(ExampleCards[0]))
  {
    var c := ExampleCards[0];
    assert c.left * c.right == {48, 83, 86, 17};
  }

  lemma ExampleCard2()
    ensures ExampleOutcomes[1] == Outcome(ExampleCards[1].id, CountMatches(ExampleCards[1]))
  {
    var c := ExampleCards[1];
    assert c.left * c.right == {32, 61};
  }

  lemma ExampleCard3()
    ensures ExampleOutcomes[2] == Outcome(ExampleCards[2].id, CountMatches(ExampleCards[2]))
  {
    var c := ExampleCards[2];
    assert c.left * c.right == {1, 21};
  }

  lemma ExampleCard4()
    ensures ExampleOutcomes[3] == Outcome(ExampleCards[3].id, CountMatches(ExampleCards[3]))
  {
    var c := ExampleCards[3];
    assert c.left * c.right == {84};
  }

  lemma ExampleCard5()
    ensures ExampleOutcomes[4] == Outcome(ExampleCards[4].id, CountMatches(ExampleCards[4]))
  {
    var c := ExampleCards[4];
    assert c.left * c.right == {};
  }

  lemma ExampleCard6()
    ensures ExampleOutcomes[5] == Outcome(ExampleCards[5].id, CountMatches(ExampleCards[5]))
  {
    var c := ExampleCards[5];
    assert c.left * c.right == {};
  }

  lemma ExampleMatches()
    ensures Outcomes(ExampleCards) == ExampleOutcomes
  {
    ExampleCard1();
    ExampleCard2();
    ExampleCard3();
    ExampleCard4();
    ExampleCard5();
    ExampleCard6();
    OutcomesOfSix(ExampleCards, ExampleOutcomes);
  }

  /** A six-card table, one card at a time. */
  lemma OutcomesOfSix(cards: seq<ScratchCard>, outcomes: seq<Outcome>)
    requires |cards| == 6 == |outcomes|
    requires outcomes[0] == Outcome(cards[0].id, CountMatches(cards[0]))
    requires outcomes[1] == Outcome(cards[1].id, CountMatches(cards[1]))
    requires outcomes[2] == Outcome(cards[2].id, CountMatches(cards[2]))
    requires outcomes[3] == Outcome(cards[3].id, CountMatches(cards[3]))
    requires outcomes[4] == Outcome(cards[4].id, CountMatches(cards[4]))
    requires outcomes[5] == Outcome(cards[5].id, CountMatches(cards[5]))
    ensures Outcomes(cards) == outcomes
  {
    forall i | 0 <= i < 6
      ensures Outcomes(cards)[i] == outcomes[i]
    {
      if i == 0 {} else if i == 1 {} else if i == 2 {} else if i == 3 {} else if i == 4 {} else {}
    }
  }

  /** The points of the example: 8, 2, 2, 1, 0 and 0, 13 in all. */
  lemma ExamplePoints()
    ensures SumPoints(ExampleCards) == 13
  {
    ExampleMatches();
    var cs := ExampleCards;
    assert Pow2(3) == 8;
    assert SumPoints(cs[5..]) == 0;
    assert SumPoints(cs[4..]) == 0 by { assert cs[4..][1..] == cs[5..]; }
    assert SumPoints(cs[3..]) == 1 by { assert cs[3..][1..] == cs[4..]; }
    assert SumPoints(cs[2..]) == 3 by { assert cs[2..][1..] == cs[3..]; }
    assert SumPoints(cs[1..]) == 5 by { assert cs[1..][1..] == cs[2..]; }
  }

  lemma ExamplePart1(parse: string -> Result<ScratchCard, Error>)
    requires forall i :: 0 <= i < |ExampleLines| ==> parse(ExampleLines[i]) == Ok(ExampleCards[i])
    ensures Part1(ExampleLines, parse) == Ok(13)
  {
    TryCollectAllOk(ExampleLines, parse, ExampleCards);
    ExamplePoints();
  }

  /**
   * The instances of the example: 1, 2, 4, 8, 14 and 1. Card 5 is covered by
   * cards 1, 3 and 4, and card 6 by none.
   */
  lemma ExampleInstances()
    ensures TotalBefore(ExampleOutcomes, 6) == 30
  {
    var os := ExampleOutcomes;
    assert Multiplier(os, 0) == 1;
    assert Multiplier(os, 1) == 2;
    assert CopiesBefore(os, 2, 3) == 3;
    assert Multiplier(os, 2) == 4;
    assert CopiesBefore(os, 3, 4) == 7;
    assert Multiplier(os, 3) == 8;
    assert CopiesBefore(os, 4, 5) == 13;
    assert Multiplier(os, 4) == 14;
    assert CopiesBefore(os, 5, 6) == 0;
    assert Multiplier(os, 5) == 1;
  }

  lemma ExamplePart2()
    ensures TotalBefore(Outcomes(ExampleCards), |ExampleCards|) == 30
  {
    ExampleMatches();
    ExampleInstances();
  }
}
