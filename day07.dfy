/**
 * Camel Cards (src/bin/day07.rs): five-card hands ranked first by hand type,
 * then card by card.  Under the standard rules J is a jack; under the joker
 * rules J is the weakest card and stands in for whichever cards make the
 * strongest hand type.  The winnings are each bid times its hand's rank.
 */
module Day07 {
  import opened Results
  import opened Text

  datatype Error = ParseIntError | InvalidCard(c: char) | InvalidHand(s: string) | InvalidBid(line: string)

  // ---------------------------------------------------------------------------
  // Cards

  datatype Card = Two | Three | Four | Five | Six | Seven | Eight | Nine | T | J | Q | K | A

  /** Every card, in the order of the enum; `CardChars` gives their characters in the same order. */
  const AllCards: seq<Card> := [Two, Three, Four, Five, Six, Seven, Eight, Nine, T, J, Q, K, A]
  const CardChars: string := "23456789TJQKA"

  /** The position of a card in `AllCards`. */
  function Index(card: Card): (i: nat)
    ensures i < |AllCards| && AllCards[i] == card
  {
    match card
    case Two => 0 case Three => 1 case Four => 2 case Five => 3 case Six => 4
    case Seven => 5 case Eight => 6 case Nine => 7 case T => 8 case J => 9
    case Q => 10 case K => 11 case A => 12
  }

  /** `Card::try_from(char)`. */
  function CardOf(c: char): (r: Result<Card, Error>)
    ensures r.Err? ==> r.error == InvalidCard(c)
  {
    match c
    case '2' => Ok(Two) case '3' => Ok(Three) case '4' => Ok(Four) case '5' => Ok(Five)
    case '6' => Ok(Six) case '7' => Ok(Seven) case '8' => Ok(Eight) case '9' => Ok(Nine)
    case 'T' => Ok(T) case 'J' => Ok(J) case 'Q' => Ok(Q) case 'K' => Ok(K) case 'A' => Ok(A)
    case _ => Err(InvalidCard(c))
  }

  /** Exactly the thirteen characters of `CardChars` are cards, each the card at the same position. */
  lemma CardOfAccepts(c: char)
    ensures CardOf(c).Ok? <==> exists i :: 0 <= i < |CardChars| && CardChars[i] == c
    ensures forall i :: 0 <= i < |CardChars| && CardChars[i] == c ==> CardOf(c) == Ok(AllCards[i])
  {
    if CardOf(c).Ok? {
      var i := Index(CardOf(c).value);
      assert CardChars[i] == c;
    }
  }

  /** Which value table to use: `get_value_1` (`Standard`) or `get_value_2` (`Jokers`). */
  datatype Rules = Standard | Jokers

  /** `Card::get_value_1` and `Card::get_value_2`. */
  function Value(card: Card, rules: Rules): nat
  {
    match rules
    case Standard =>
      (match card
       case Two => 2 case Three => 3 case Four => 4 case Five => 5 case Six => 6
       case Seven => 7 case Eight => 8 case Nine => 9 case T => 10 case J => 11
       case Q => 12 case K => 13 case A => 14)
    case Jokers =>
      (match card
       case J => 1
       case Two => 2 case Three => 3 case Four => 4 case Five => 5 case Six => 6
       case Seven => 7 case Eight => 8 case Nine => 9 case T => 10
       case Q => 11 case K => 12 case A => 13)
  }

  /** Standard values run from 2 to 14 in enum order, so they are strictly increasing. */
  lemma StandardValues(card: Card)
    ensures Value(card, Standard) == Index(card) + 2
  {
  }

  /** Under the joker rules J is the unique weakest card, and the other cards keep their order. */
  lemma JokerValues(a: Card, b: Card)
    ensures a != J ==> Value(J, Jokers) < Value(a, Jokers)
    ensures a != J && b != J ==> (Value(a, Jokers) < Value(b, Jokers) <==> Index(a) < Index(b))
  {
  }

  /** Under either rules, different cards have different values. */
  lemma ValueInjective(a: Card, b: Card, rules: Rules)
    ensures Value(a, rules) == Value(b, rules) <==> a == b
  {
  }

  // ---------------------------------------------------------------------------
  // Orderings

  datatype Ordering = Less | Equal | Greater

  /** `Ord::cmp` on integers. */
  function Compare(x: int, y: int): (r: Ordering)
    ensures r == Less <==> x < y
    ensures r == Equal <==> x == y
    ensures r == Greater <==> x > y
  {
    if x < y then Less else if x == y then Equal else Greater
  }

  function Flip(o: Ordering): Ordering
  {
    match o
    case Less => Greater
    case Equal => Equal
    case Greater => Less
  }

  /** `cmp_cards_1` and `cmp_cards_2` as a function: the first position (of the zipped pair) whose values differ decides. */
  function CompareCards(xs: seq<Card>, ys: seq<Card>, rules: Rules): Ordering
    decreases |xs|
  {
    if xs == [] || ys == [] then Equal
    else
      var o := Compare(Value(xs[0], rules), Value(ys[0], rules));
      if o != Equal then o else CompareCards(xs[1..], ys[1..], rules)
  }

  /** Two card sequences compare equal exactly when all zipped positions tie. */
  lemma {:induction false} CompareCardsEqual(xs: seq<Card>, ys: seq<Card>, rules: Rules)
    ensures CompareCards(xs, ys, rules) == Equal <==>
      forall i :: 0 <= i < |xs| && i < |ys| ==> Value(xs[i], rules) == Value(ys[i], rules)
    decreases |xs|
  {
    if xs != [] && ys != [] {
      CompareCardsEqual(xs[1..], ys[1..], rules);
      assert forall i :: 1 <= i < |xs| && i < |ys| ==> xs[1..][i - 1] == xs[i] && ys[1..][i - 1] == ys[i];
    }
  }

  /** The first zipped position whose values differ decides the comparison. */
  lemma {:induction false} CompareCardsFirstDifference(xs: seq<Card>, ys: seq<Card>, rules: Rules, i: nat)
    requires i < |xs| && i < |ys|
    requires forall j :: 0 <= j < i ==> Value(xs[j], rules) == Value(ys[j], rules)
    requires Value(xs[i], rules) != Value(ys[i], rules)
    ensures CompareCards(xs, ys, rules) == Compare(Value(xs[i], rules), Value(ys[i], rules))
    decreases i
  {
    if i > 0 {
      assert Value(xs[0], rules) == Value(ys[0], rules);
      CompareCardsFirstDifference(xs[1..], ys[1..], rules, i - 1);
    }
  }

  /** Swapping the arguments flips the comparison. */
  lemma {:induction false} CompareCardsFlip(xs: seq<Card>, ys: seq<Card>, rules: Rules)
    ensures CompareCards(ys, xs, rules) == Flip(CompareCards(xs, ys, rules))
    decreases |xs|
  {
    if xs != [] && ys != [] {
      CompareCardsFlip(xs[1..], ys[1..], rules);
    }
  }

  /** The card comparison is transitive on its non-`Greater` outcomes. */
  lemma {:induction false} CompareCardsTransitive(xs: seq<Card>, ys: seq<Card>, zs: seq<Card>, rules: Rules)
    requires |xs| == |ys| == |zs|
    requires CompareCards(xs, ys, rules) != Greater && CompareCards(ys, zs, rules) != Greater
    ensures CompareCards(xs, zs, rules) != Greater
    decreases |xs|
  {
    if xs != [] {
      var a, b, c := Value(xs[0], rules), Value(ys[0], rules), Value(zs[0], rules);
      if a == b == c {
        CompareCardsTransitive(xs[1..], ys[1..], zs[1..], rules);
      }
    }
  }

  /** `cmp_cards_1` / `cmp_cards_2`: a loop over the zipped cards that returns at the first unequal pair. */
  method CompareCardsLoop(xs: seq<Card>, ys: seq<Card>, rules: Rules) returns (r: Ordering)
    ensures r == CompareCards(xs, ys, rules)
  {
    var n := if |xs| < |ys| then |xs| else |ys|;
    for i := 0 to n
      invariant CompareCards(xs, ys, rules) == CompareCards(xs[i..], ys[i..], rules)
    {
      var o := Compare(Value(xs[i], rules), Value(ys[i], rules));
      if o != Equal {
        return o;
      }
      assert xs[i..][1..] == xs[i + 1..] && ys[i..][1..] == ys[i + 1..];
    }
    assert xs[n..] == [] || ys[n..] == [];
    r := Equal;
  }

  // ---------------------------------------------------------------------------
  // Hands

  datatype Hand = Hand(cards: seq<Card>)

  /** Every character of `s` as a card, or the error of the first one that is not a card. */
  function ParseCards(s: string): (r: Result<seq<Card>, Error>)
    ensures r.Ok? <==> forall i :: 0 <= i < |s| ==> CardOf(s[i]).Ok?
    ensures r.Ok? ==> |r.value| == |s| && forall i :: 0 <= i < |s| ==> CardOf(s[i]) == Ok(r.value[i])
    ensures r.Err? ==> exists i :: (0 <= i < |s| && r.error == InvalidCard(s[i]) && CardOf(s[i]).Err?
      && forall j :: 0 <= j < i ==> CardOf(s[j]).Ok?)
    decreases |s|
  {
    if s == [] then Ok([])
    else match CardOf(s[0])
      case Err(e) => Err(e)
      case Ok(c) =>
        match ParseCards(s[1..])
        case Err(e) =>
          var i :| 0 <= i < |s[1..]| && e == InvalidCard(s[1..][i]) && CardOf(s[1..][i]).Err?
            && forall j :: 0 <= j < i ==> CardOf(s[1..][j]).Ok?;
          assert forall j :: 0 <= j < i + 1 ==> CardOf(s[j]).Ok? by {
            forall j | 0 <= j < i + 1 ensures CardOf(s[j]).Ok? {
              if j > 0 { assert s[j] == s[1..][j - 1]; }
            }
          }
          Err(e)
        case Ok(cs) =>
          assert forall i :: 1 <= i < |s| ==> s[i] == s[1..][i - 1];
          Ok([c] + cs)
  }

  /** `Hand::from_str`: every character a card (else the first bad one is reported), and exactly five of them. */
  function ParseHand(s: string): (r: Result<Hand, Error>)
    ensures r.Ok? <==> |s| == 5 && forall i :: 0 <= i < |s| ==> CardOf(s[i]).Ok?
    ensures r.Ok? ==> |r.value.cards| == 5 && forall i :: 0 <= i < 5 ==> CardOf(s[i]) == Ok(r.value.cards[i])
    ensures (forall i :: 0 <= i < |s| ==> CardOf(s[i]).Ok?) && |s| != 5 ==> r == Err(InvalidHand(s))
  {
    match ParseCards(s)
    case Err(e) => Err(e)
    case Ok(cards) => if |cards| != 5 then Err(InvalidHand(s)) else Ok(Hand(cards))
  }

  /** `h` is the hand written `s`, card by card. */
  predicate Spells(h: Hand, s: string)
  {
    |h.cards| == |s| && forall i :: 0 <= i < |s| ==> CardOf(s[i]) == Ok(h.cards[i])
  }

  /** A hand as the source builds it: five cards. */
  predicate ValidHand(h: Hand) { |h.cards| == 5 }

  // ---------------------------------------------------------------------------
  // Card counts

  /** How many times `x` occurs in `s`. */
  function Count(s: seq<Card>, x: Card): nat
    decreases |s|
  {
    if s == [] then 0 else Count(s[..|s| - 1], x) + (if s[|s| - 1] == x then 1 else 0)
  }

  /** `Itertools::counts`: each card that occurs, mapped to its number of occurrences. */
  function CountsOf(cards: seq<Card>): map<Card, nat>
  {
    map c | c in cards :: Count(cards, c)
  }

  /** A count read from a counts map, 0 for an absent key. */
  function Get(counts: map<Card, nat>, c: Card): nat
  {
    if c in counts then counts[c] else 0
  }

  lemma {:induction false} CountAbsent(s: seq<Card>, x: Card)
    requires x !in s
    ensures Count(s, x) == 0
    decreases |s|
  {
    if s != [] {
      assert x !in s[..|s| - 1];
      CountAbsent(s[..|s| - 1], x);
    }
  }

  lemma {:induction false} CountPresent(s: seq<Card>, x: Card)
    requires x in s
    ensures Count(s, x) > 0
    decreases |s|
  {
    if s[|s| - 1] != x {
      assert x in s[..|s| - 1];
      CountPresent(s[..|s| - 1], x);
    }
  }

  /** The counts map holds exactly the occurrence count of every card, absent cards reading 0. */
  lemma CountsOfGet(cards: seq<Card>, c: Card)
    ensures Get(CountsOf(cards), c) == Count(cards, c)
    ensures c in CountsOf(cards) <==> Count(cards, c) > 0
  {
    if c in cards {
      CountPresent(cards, c);
    } else {
      CountAbsent(cards, c);
    }
  }

  /** The counts of `keys`, in order. */
  function Gets(counts: map<Card, nat>, keys: seq<Card>): (r: seq<nat>)
    ensures |r| == |keys|
  {
    seq(|keys|, i requires 0 <= i < |keys| => Get(counts, keys[i]))
  }

  /** `HashMap::into_values`: the count of every card, listed in the order of `AllCards`. */
  function CountList(counts: map<Card, nat>): (r: seq<nat>)
    ensures |r| == |AllCards|
  {
    Gets(counts, AllCards)
  }

  /** `filter(|&c| c > 0)`: the positive elements, in order. */
  function Positive(xs: seq<nat>): (r: seq<nat>)
    ensures forall i :: 0 <= i < |r| ==> r[i] > 0
    decreases |xs|
  {
    if xs == [] then []
    else if xs[0] > 0 then [xs[0]] + Positive(xs[1..])
    else Positive(xs[1..])
  }

  /** The sum of the counts of `keys`. */
  function KeysTotal(counts: map<Card, nat>, keys: seq<Card>): nat
    decreases |keys|
  {
    if keys == [] then 0 else Get(counts, keys[0]) + KeysTotal(counts, keys[1..])
  }

  lemma {:induction false} PositiveSum(xs: seq<nat>)
    ensures Sum(Positive(xs)) == Sum(xs)
    decreases |xs|
  {
    if xs != [] {
      PositiveSum(xs[1..]);
    }
  }

  /** Every positive element is kept by `Positive`. */
  lemma {:induction false} PositiveKeeps(xs: seq<nat>, i: nat)
    requires i < |xs| && xs[i] > 0
    ensures xs[i] in Positive(xs)
    decreases |xs|
  {
    if i > 0 {
      PositiveKeeps(xs[1..], i - 1);
    }
  }

  lemma {:induction false} SumOfGets(counts: map<Card, nat>, keys: seq<Card>)
    ensures Sum(Gets(counts, keys)) == KeysTotal(counts, keys)
    decreases |keys|
  {
    if keys != [] {
      SumOfGets(counts, keys[1..]);
      assert Gets(counts, keys)[1..] == Gets(counts, keys[1..]);
    }
  }

  /** No key is listed twice. */
  predicate NoRepeats(keys: seq<Card>)
  {
    forall i, j :: 0 <= i < j < |keys| ==> keys[i] != keys[j]
  }

  lemma AllCardsNoRepeats()
    ensures NoRepeats(AllCards)
  {
    forall i | 0 <= i < |AllCards| ensures Index(AllCards[i]) == i { }
  }

  /** The cards of `keys` with a positive count. */
  function PresentIn(counts: map<Card, nat>, keys: seq<Card>): set<Card>
  {
    set c | c in keys && Get(counts, c) > 0
  }

  /** With no repeated keys, there are as many positive counts as present cards. */
  lemma {:induction false} PositiveGetsCount(counts: map<Card, nat>, keys: seq<Card>)
    requires NoRepeats(keys)
    ensures |Positive(Gets(counts, keys))| == |PresentIn(counts, keys)|
    decreases |keys|
  {
    if keys != [] {
      var rest := keys[1..];
      assert NoRepeats(rest) by {
        forall i, j | 0 <= i < j < |rest| ensures rest[i] != rest[j] {
          assert rest[i] == keys[i + 1] && rest[j] == keys[j + 1];
        }
      }
      PositiveGetsCount(counts, rest);
      assert Gets(counts, keys)[1..] == Gets(counts, rest);
      assert keys[0] !in rest by {
        forall i | 0 <= i < |rest| ensures rest[i] != keys[0] {
          assert rest[i] == keys[i + 1];
        }
      }
      if Get(counts, keys[0]) > 0 {
        assert PresentIn(counts, keys) == PresentIn(counts, rest) + {keys[0]};
      } else {
        assert PresentIn(counts, keys) == PresentIn(counts, rest);
      }
    }
  }

  /** Every element `Positive` keeps comes from its input. */
  lemma {:induction false} PositiveFrom(xs: seq<nat>, x: nat)
    requires x in Positive(xs)
    ensures x in xs
    decreases |xs|
  {
    if x != xs[0] {
      PositiveFrom(xs[1..], x);
    }
  }

  function Insert(x: nat, s: seq<nat>): (r: seq<nat>)
    ensures |r| == |s| + 1
    ensures r[0] == if s == [] || x <= s[0] then x else s[0]
    decreases |s|
  {
    if s == [] || x <= s[0] then [x] + s else [s[0]] + Insert(x, s[1..])
  }

  /** Ascending order, stated on neighbours. */
  predicate SortedNats(s: seq<nat>)
  {
    forall i :: 0 <= i < |s| - 1 ==> s[i] <= s[i + 1]
  }

  lemma {:induction false} InsertSorted(x: nat, s: seq<nat>)
    requires SortedNats(s)
    ensures SortedNats(Insert(x, s))
    decreases |s|
  {
    if s != [] && x > s[0] {
      InsertSorted(x, s[1..]);
      var r := Insert(x, s[1..]);
      assert forall i :: 1 <= i < |Insert(x, s)| ==> Insert(x, s)[i] == r[i - 1];
    }
  }

  lemma {:induction false} InsertContents(x: nat, s: seq<nat>)
    ensures multiset(Insert(x, s)) == multiset(s) + multiset{x}
    ensures Sum(Insert(x, s)) == x + Sum(s)
    decreases |s|
  {
    if s != [] && x > s[0] {
      InsertContents(x, s[1..]);
      assert s == [s[0]] + s[1..];
    }
  }

  /** `sorted()`: the ascending arrangement of the counts. */
  function SortNats(s: seq<nat>): seq<nat>
    decreases |s|
  {
    if s == [] then [] else Insert(s[0], SortNats(s[1..]))
  }

  lemma {:induction false} SortNatsProperties(s: seq<nat>)
    ensures SortedNats(SortNats(s))
    ensures multiset(SortNats(s)) == multiset(s)
    ensures Sum(SortNats(s)) == Sum(s)
    decreases |s|
  {
    if s != [] {
      SortNatsProperties(s[1..]);
      InsertSorted(s[0], SortNats(s[1..]));
      InsertContents(s[0], SortNats(s[1..]));
      assert s == [s[0]] + s[1..];
    }
  }

  /** The shape of a hand: its positive card counts in ascending order. */
  function Profile(counts: map<Card, nat>): seq<nat>
  {
    SortNats(Positive(CountList(counts)))
  }

  /** The total number of cards a counts map describes. */
  function Total(counts: map<Card, nat>): nat
  {
    Sum(CountList(counts))
  }

  lemma TotalIsKeysTotal(counts: map<Card, nat>)
    ensures Total(counts) == KeysTotal(counts, AllCards)
  {
    SumOfGets(counts, AllCards);
  }

  /** A profile is sorted, has only positive parts, and its parts add up to the map's total. */
  lemma ProfileProperties(counts: map<Card, nat>)
    ensures SortedNats(Profile(counts))
    ensures forall i :: 0 <= i < |Profile(counts)| ==> Profile(counts)[i] > 0
    ensures Sum(Profile(counts)) == Total(counts)
  {
    var pc := Positive(CountList(counts));
    SortNatsProperties(pc);
    PositiveSum(CountList(counts));
    var p := Profile(counts);
    forall i | 0 <= i < |p| ensures p[i] > 0 {
      assert p[i] in multiset(pc);
    }
  }

  lemma {:induction false} CountCons(k: Card, s: seq<Card>, x: Card)
    ensures Count([k] + s, x) == (if k == x then 1 else 0) + Count(s, x)
    decreases |s|
  {
    if s != [] {
      assert ([k] + s)[..|s|] == [k] + s[..|s| - 1];
      CountCons(k, s[..|s| - 1], x);
    }
  }

  /** The sum over `keys` of how often each occurs in `cards`. */
  function CountTotal(cards: seq<Card>, keys: seq<Card>): nat
    decreases |keys|
  {
    if keys == [] then 0 else Count(cards, keys[0]) + CountTotal(cards, keys[1..])
  }

  lemma {:induction false} KeysTotalCountsOf(cards: seq<Card>, keys: seq<Card>)
    ensures KeysTotal(CountsOf(cards), keys) == CountTotal(cards, keys)
    decreases |keys|
  {
    if keys != [] {
      CountsOfGet(cards, keys[0]);
      KeysTotalCountsOf(cards, keys[1..]);
    }
  }

  lemma {:induction false} CountTotalAppend(cards: seq<Card>, x: Card, keys: seq<Card>)
    ensures CountTotal(cards + [x], keys) == CountTotal(cards, keys) + Count(keys, x)
    decreases |keys|
  {
    if keys != [] {
      assert (cards + [x])[..|cards|] == cards;
      CountTotalAppend(cards, x, keys[1..]);
      CountCons(keys[0], keys[1..], x);
      assert [keys[0]] + keys[1..] == keys;
    }
  }

  /** Each card occurs exactly once in `AllCards`. */
  lemma AllCardsOnce(x: Card)
    ensures Count(AllCards, x) == 1
  {
    var i := Index(x);
    forall k | 0 <= k < |AllCards| && k != i ensures AllCards[k] != x { }
    CountAtIndexOnly(AllCards, x, i);
  }

  lemma {:induction false} CountAtIndexOnly(s: seq<Card>, x: Card, i: nat)
    requires i < |s| && s[i] == x
    requires forall k :: 0 <= k < |s| && k != i ==> s[k] != x
    ensures Count(s, x) == 1
    decreases |s|
  {
    if i == |s| - 1 {
      assert x !in s[..|s| - 1];
      CountAbsent(s[..|s| - 1], x);
    } else {
      CountAtIndexOnly(s[..|s| - 1], x, i);
    }
  }

  lemma {:induction false} CountTotalAllCards(cards: seq<Card>)
    ensures CountTotal(cards, AllCards) == |cards|
    decreases |cards|
  {
    if cards == [] {
      ZeroCountTotal(AllCards);
    } else {
      var c := cards[..|cards| - 1];
      var x := cards[|cards| - 1];
      assert cards == c + [x];
      CountTotalAllCards(c);
      CountTotalAppend(c, x, AllCards);
      AllCardsOnce(x);
    }
  }

  lemma {:induction false} ZeroCountTotal(keys: seq<Card>)
    ensures CountTotal([], keys) == 0
    decreases |keys|
  {
    if keys != [] {
      ZeroCountTotal(keys[1..]);
    }
  }

  /** The counts of a hand describe exactly as many cards as the hand has. */
  lemma TotalOfCounts(cards: seq<Card>)
    ensures Total(CountsOf(cards)) == |cards|
  {
    TotalIsKeysTotal(CountsOf(cards));
    KeysTotalCountsOf(cards, AllCards);
    CountTotalAllCards(cards);
  }

  // ---------------------------------------------------------------------------
  // Hand types

  datatype HandType = HighCard | OnePair | TwoPair | ThreeOfAKind | FullHouse | FourOfAKind | FiveOfAKind

  /** The derived `Ord` of `HandType`: declaration order. */
  function Rank(t: HandType): nat
  {
    match t
    case HighCard => 0 case OnePair => 1 case TwoPair => 2 case ThreeOfAKind => 3
    case FullHouse => 4 case FourOfAKind => 5 case FiveOfAKind => 6
  }

  lemma {:induction false} SumAtLeastLength(p: seq<nat>)
    requires forall i :: 0 <= i < |p| ==> p[i] > 0
    ensures Sum(p) >= |p|
    decreases |p|
  {
    if p != [] {
      SumAtLeastLength(p[1..]);
    }
  }

  /** The seven ascending partitions of 5 into positive parts. */
  predicate IsPartitionOfFive(p: seq<nat>)
  {
    p == [5] || p == [1, 4] || p == [2, 3] || p == [1, 1, 3] || p == [1, 2, 2] || p == [1, 1, 1, 2] || p == [1, 1, 1, 1, 1]
  }

  lemma PartsOfLength(p: seq<nat>)
    requires 1 <= |p| <= 5 && p[0] >= 1
    requires forall i :: 0 <= i < |p| - 1 ==> p[i] <= p[i + 1]
    requires |p| == 1 ==> p[0] == 5
    requires |p| == 2 ==> p[0] + p[1] == 5
    requires |p| == 3 ==> p[0] + p[1] + p[2] == 5
    requires |p| == 4 ==> p[0] + p[1] + p[2] + p[3] == 5
    requires |p| == 5 ==> p[0] + p[1] + p[2] + p[3] + p[4] == 5
    ensures IsPartitionOfFive(p)
  {
    if |p| == 1 { assert p == [p[0]]; }
    else if |p| == 2 { assert p == [p[0], p[1]]; }
    else if |p| == 3 { assert p == [p[0], p[1], p[2]]; }
    else if |p| == 4 { assert p == [p[0], p[1], p[2], p[3]]; }
    else { assert p == [p[0], p[1], p[2], p[3], p[4]]; }
  }

  /** Every ascending sequence of positive counts adding up to 5 is one of the seven partitions. */
  lemma FiveParts(p: seq<nat>)
    requires SortedNats(p) && Sum(p) == 5
    requires forall i :: 0 <= i < |p| ==> p[i] > 0
    ensures IsPartitionOfFive(p)
  {
    SumAtLeastLength(p);
    var n := |p|;
    assert Sum(p) == p[0] + Sum(p[1..]);
    if n >= 2 { assert Sum(p[1..]) == p[1] + Sum(p[2..]); assert p[0] <= p[1]; }
    if n >= 3 { assert Sum(p[2..]) == p[2] + Sum(p[3..]); assert p[1] <= p[2]; }
    if n >= 4 { assert Sum(p[3..]) == p[3] + Sum(p[4..]); assert p[2] <= p[3]; }
    if n >= 5 { assert Sum(p[4..]) == p[4] + Sum(p[5..]); assert p[3] <= p[4]; }
    PartsOfLength(p);
  }

  /**
   * `get_hand_type_from_counts`: the hand type named by the ascending positive
   * counts.  The source panics on any other shape; for counts of five cards
   * no other shape exists (`FiveParts`).
   */
  function HandTypeFromCounts(counts: map<Card, nat>): (t: HandType)
    requires Total(counts) == 5
  {
    var p := Profile(counts);
    ProfileProperties(counts);
    FiveParts(p);
    if p == [5] then FiveOfAKind
    else if p == [1, 4] then FourOfAKind
    else if p == [2, 3] then FullHouse
    else if p == [1, 1, 3] then ThreeOfAKind
    else if p == [1, 2, 2] then TwoPair
    else if p == [1, 1, 1, 2] then OnePair
    else HighCard
  }

  /** The largest element of a sequence of counts, 0 for none. */
  function MaxOf(xs: seq<nat>): (r: nat)
    ensures forall i :: 0 <= i < |xs| ==> xs[i] <= r
    ensures xs != [] ==> r in xs
    decreases |xs|
  {
    if xs == [] then 0
    else
      var rest := MaxOf(xs[1..]);
      assert forall i :: 1 <= i < |xs| ==> xs[i] == xs[1..][i - 1];
      if xs[0] >= rest then xs[0] else rest
  }

  /** The number of copies of the most frequent card. */
  function Largest(counts: map<Card, nat>): nat
  {
    MaxOf(CountList(counts))
  }

  /** The number of different cards with a positive count. */
  function Distinct(counts: map<Card, nat>): nat
  {
    |PresentIn(counts, AllCards)|
  }

  lemma {:induction false} SortedAtMostLast(p: seq<nat>)
    requires SortedNats(p) && |p| > 0
    ensures forall i :: 0 <= i < |p| ==> p[i] <= p[|p| - 1]
    decreases |p|
  {
    if |p| > 1 {
      var q := p[1..];
      assert SortedNats(q) by {
        forall i | 0 <= i < |q| - 1 ensures q[i] <= q[i + 1] {
          assert q[i] == p[i + 1] && q[i + 1] == p[i + 2];
        }
      }
      SortedAtMostLast(q);
      assert p[0] <= p[1] && p[1] == q[0];
      assert forall i :: 1 <= i < |p| ==> p[i] == q[i - 1];
    }
  }

  lemma {:induction false} ZeroSum(xs: seq<nat>)
    requires forall i :: 0 <= i < |xs| ==> xs[i] == 0
    ensures Sum(xs) == 0
    decreases |xs|
  {
    if xs != [] {
      ZeroSum(xs[1..]);
    }
  }

  /**
   * For a non-empty hand the profile has one part per different card, and
   * its last (largest) part is the count of the most frequent card.
   */
  lemma ProfileShape(counts: map<Card, nat>)
    requires Total(counts) > 0
    ensures |Profile(counts)| == Distinct(counts)
    ensures |Profile(counts)| > 0 && Profile(counts)[|Profile(counts)| - 1] == Largest(counts)
  {
    var vals := CountList(counts);
    var pc := Positive(vals);
    var p := Profile(counts);
    SortNatsProperties(pc);
    assert |p| == |multiset(p)| == |multiset(pc)| == |pc|;
    AllCardsNoRepeats();
    PositiveGetsCount(counts, AllCards);
    ProfileProperties(counts);
    if vals == [] || MaxOf(vals) == 0 {
      ZeroSum(vals);
      assert false;
    }
    var m := MaxOf(vals);
    var i :| 0 <= i < |vals| && vals[i] == m;
    PositiveKeeps(vals, i);
    assert m in multiset(p);
    SortedAtMostLast(p);
    var last := p[|p| - 1];
    assert last in multiset(pc);
    PositiveFrom(vals, last);
  }

  /**
   * What the seven hand types mean: five, four or three of a kind (the latter
   * with or without a pair beside it), two pairs, one pair, or five different
   * cards, read off the largest count and the number of different cards.
   */
  lemma HandTypeMeaning(counts: map<Card, nat>)
    requires Total(counts) == 5
    ensures HandTypeFromCounts(counts) == FiveOfAKind <==> Largest(counts) == 5
    ensures HandTypeFromCounts(counts) == FourOfAKind <==> Largest(counts) == 4
    ensures HandTypeFromCounts(counts) == FullHouse <==> Largest(counts) == 3 && Distinct(counts) == 2
    ensures HandTypeFromCounts(counts) == ThreeOfAKind <==> Largest(counts) == 3 && Distinct(counts) == 3
    ensures HandTypeFromCounts(counts) == TwoPair <==> Largest(counts) == 2 && Distinct(counts) == 3
    ensures HandTypeFromCounts(counts) == OnePair <==> Largest(counts) == 2 && Distinct(counts) == 4
    ensures HandTypeFromCounts(counts) == HighCard <==> Largest(counts) == 1
  {
    ProfileShape(counts);
    ProfileProperties(counts);
    FiveParts(Profile(counts));
  }

  /** `Hand::get_hand_type_1`. */
  function HandType1(h: Hand): HandType
    requires ValidHand(h)
  {
    TotalOfCounts(h.cards);
    HandTypeFromCounts(CountsOf(h.cards))
  }

  // ---------------------------------------------------------------------------
  // Joker substitution

  /** The precondition of a substitution: J is counted, at least once per substituted card, and every substitute is a counted card. */
  predicate CanSubstitute(counts: map<Card, nat>, v: seq<Card>)
  {
    J in counts && |v| <= counts[J] && forall i :: 0 <= i < |v| ==> v[i] in counts
  }

  /** One joker turned into `c`: J's count goes down by one, `c`'s up by one. */
  function SubstituteOne(counts: map<Card, nat>, c: Card): (r: map<Card, nat>)
    requires J in counts && counts[J] > 0 && c in counts
    ensures r.Keys == counts.Keys
    ensures r[J] >= counts[J] - 1
  {
    var m := counts[J := counts[J] - 1];
    var r := m[c := m[c] + 1];
    r
  }

  /** Read pointwise, a substitution step takes one from J and adds one to `c`. */
  lemma SubstituteOneGet(counts: map<Card, nat>, c: Card, k: Card)
    requires J in counts && counts[J] > 0 && c in counts
    ensures Get(SubstituteOne(counts, c), k) + (if k == J then 1 else 0) == Get(counts, k) + (if k == c then 1 else 0)
  {
  }

  lemma {:induction false} KeysTotalSubstituteOne(counts: map<Card, nat>, c: Card, keys: seq<Card>)
    requires J in counts && counts[J] > 0 && c in counts
    ensures KeysTotal(SubstituteOne(counts, c), keys) + Count(keys, J) == KeysTotal(counts, keys) + Count(keys, c)
    decreases |keys|
  {
    if keys != [] {
      KeysTotalSubstituteOne(counts, c, keys[1..]);
      SubstituteOneGet(counts, c, keys[0]);
      CountCons(keys[0], keys[1..], J);
      CountCons(keys[0], keys[1..], c);
      assert [keys[0]] + keys[1..] == keys;
    }
  }

  /** Turning a joker into another counted card keeps the total. */
  lemma SubstituteOneTotal(counts: map<Card, nat>, c: Card)
    requires J in counts && counts[J] > 0 && c in counts
    ensures Total(SubstituteOne(counts, c)) == Total(counts)
  {
    KeysTotalSubstituteOne(counts, c, AllCards);
    TotalIsKeysTotal(counts);
    TotalIsKeysTotal(SubstituteOne(counts, c));
    AllCardsOnce(J);
    AllCardsOnce(c);
  }

  /**
   * The counts after the jokers are replaced by the cards of `v`, one at a
   * time, as the inner loop of `get_hand_type_2` does.
   */
  function Substituted(counts: map<Card, nat>, v: seq<Card>): (r: map<Card, nat>)
    requires CanSubstitute(counts, v)
    ensures r.Keys == counts.Keys
    decreases |v|
  {
    if v == [] then counts
    else Substituted(SubstituteOne(counts, v[0]), v[1..])
  }

  /** A substitution keeps the number of cards. */
  lemma {:induction false} SubstitutedTotal(counts: map<Card, nat>, v: seq<Card>)
    requires CanSubstitute(counts, v)
    ensures Total(Substituted(counts, v)) == Total(counts)
    decreases |v|
  {
    if v != [] {
      SubstituteOneTotal(counts, v[0]);
      SubstitutedTotal(SubstituteOne(counts, v[0]), v[1..]);
    }
  }

  /** The inner loop of `get_hand_type_2`: the cloned counts updated entry by entry for each substitute. */
  method SubstituteCounts(counts: map<Card, nat>, v: seq<Card>) returns (m: map<Card, nat>)
    requires CanSubstitute(counts, v)
    ensures m == Substituted(counts, v)
  {
    m := counts;
    for i := 0 to |v|
      invariant CanSubstitute(m, v[i..])
      invariant Substituted(counts, v) == Substituted(m, v[i..])
    {
      assert v[i..][0] == v[i] && v[i..][1..] == v[i + 1..];
      m := m[J := m[J] - 1];
      m := m[v[i] := m[v[i]] + 1];
    }
    assert v[|v|..] == [];
  }

  /** Substituting J for J leaves the counts as they were. */
  lemma {:induction false} SubstituteJokersForJokers(counts: map<Card, nat>, n: nat)
    requires CanSubstitute(counts, seq(n, _ => J))
    ensures Substituted(counts, seq(n, _ => J)) == counts
    decreases n
  {
    if n > 0 {
      var v := seq(n, _ => J);
      assert SubstituteOne(counts, J) == counts;
      assert v[1..] == seq(n - 1, _ => J);
      SubstituteJokersForJokers(counts, n - 1);
    }
  }

  /** The counted cards, in the order of `AllCards`. */
  function KeysOf(counts: map<Card, nat>): (r: seq<Card>)
    ensures forall c :: c in r <==> c in counts
  {
    var r := KeysIn(counts, AllCards);
    forall c | c in counts ensures c in r {
      assert AllCards[Index(c)] == c;
    }
    r
  }

  function KeysIn(counts: map<Card, nat>, keys: seq<Card>): (r: seq<Card>)
    ensures forall c :: c in r <==> c in counts && c in keys
    decreases |keys|
  {
    if keys == [] then []
    else if keys[0] in counts then [keys[0]] + KeysIn(counts, keys[1..])
    else KeysIn(counts, keys[1..])
  }

  /** Every length-`n` sequence over `keys` (`multi_cartesian_product` of `n` copies of `keys`). */
  predicate IsTuple(t: seq<Card>, keys: seq<Card>, n: nat)
  {
    |t| == n && forall i :: 0 <= i < n ==> t[i] in keys
  }

  /** `multi_cartesian_product` of `n` copies of `keys`: the sequences of length `n` over `keys`. */
  function Tuples(keys: seq<Card>, n: nat): (r: seq<seq<Card>>)
    ensures forall t :: t in r ==> IsTuple(t, keys, n)
    decreases n
  {
    if n == 0 then [[]]
    else
      var tails := Tuples(keys, n - 1);
      PrefixedTuples(keys, tails, n);
      Prefixed(keys, tails)
  }

  /** Putting a key in front of a tuple of length n - 1 gives a tuple of length n. */
  lemma PrefixedTuples(keys: seq<Card>, tails: seq<seq<Card>>, n: nat)
    requires n > 0 && forall t :: t in tails ==> IsTuple(t, keys, n - 1)
    ensures forall t :: t in Prefixed(keys, tails) ==> IsTuple(t, keys, n)
  {
    forall t | t in Prefixed(keys, tails) ensures IsTuple(t, keys, n) {
      assert IsTuple(t[1..], keys, n - 1);
      forall i | 0 <= i < n ensures t[i] in keys {
        if i > 0 { assert t[i] == t[1..][i - 1]; }
      }
    }
  }

  /** Each of `heads` put in front of each of `tails`. */
  function Prefixed(heads: seq<Card>, tails: seq<seq<Card>>): (r: seq<seq<Card>>)
    ensures forall t :: t in r ==> |t| > 0 && t[0] in heads && t[1..] in tails
    ensures forall h, u :: h in heads && u in tails ==> [h] + u in r
    decreases |heads|
  {
    if heads == [] then []
    else
      var first := seq(|tails|, j requires 0 <= j < |tails| => [heads[0]] + tails[j]);
      var rest := Prefixed(heads[1..], tails);
      forall t | t in first ensures |t| > 0 && t[0] in heads && t[1..] in tails {
        var j :| 0 <= j < |tails| && first[j] == t;
        assert t[1..] == tails[j];
      }
      forall h, u | h in heads && u in tails ensures [h] + u in first + rest {
        if h == heads[0] {
          var j :| 0 <= j < |tails| && tails[j] == u;
          assert first[j] == [h] + u;
        } else {
          assert h in heads[1..];
        }
      }
      first + rest
  }

  /** Every length-`n` sequence over `keys` is among the tuples. */
  lemma {:induction false} TuplesComplete(keys: seq<Card>, n: nat, t: seq<Card>)
    requires IsTuple(t, keys, n)
    ensures t in Tuples(keys, n)
    decreases n
  {
    if n > 0 {
      assert IsTuple(t[1..], keys, n - 1);
      TuplesComplete(keys, n - 1, t[1..]);
      var tails := Tuples(keys, n - 1);
      assert Tuples(keys, n) == Prefixed(keys, tails);
      assert t[0] in keys;
      assert [t[0]] + t[1..] in Prefixed(keys, tails);
      assert t == [t[0]] + t[1..];
    }
  }

  /** `Iterator::max` over hand types: a greatest element of a non-empty sequence. */
  function MaxType(ts: seq<HandType>): (r: HandType)
    requires |ts| > 0
    ensures r in ts
    ensures forall k :: 0 <= k < |ts| ==> Rank(ts[k]) <= Rank(r)
    decreases |ts|
  {
    if |ts| == 1 then ts[0]
    else
      var rest := MaxType(ts[1..]);
      assert forall k :: 1 <= k < |ts| ==> ts[k] == ts[1..][k - 1];
      if Rank(rest) >= Rank(ts[0]) then rest else ts[0]
  }

  /** The type of a five-card counts map after the substitution `v`. */
  function SubstitutedType(counts: map<Card, nat>, v: seq<Card>): HandType
    requires CanSubstitute(counts, v) && Total(counts) == 5
  {
    SubstitutedTotal(counts, v);
    HandTypeFromCounts(Substituted(counts, v))
  }

  /** Every tuple of counted cards, as long as the number of jokers, can be substituted. */
  lemma TuplesCanSubstitute(counts: map<Card, nat>, v: seq<Card>)
    requires J in counts && IsTuple(v, KeysOf(counts), counts[J])
    ensures CanSubstitute(counts, v)
  {
    assert forall i :: 0 <= i < |v| ==> v[i] in KeysOf(counts);
  }

  /** The all-jokers tuple is among the tuples. */
  lemma JokersTuple(counts: map<Card, nat>)
    requires J in counts
    ensures IsTuple(seq(counts[J], _ => J), KeysOf(counts), counts[J])
    ensures seq(counts[J], _ => J) in Tuples(KeysOf(counts), counts[J])
  {
    TuplesComplete(KeysOf(counts), counts[J], seq(counts[J], _ => J));
  }

  /** The type reached by each tuple of substitutes, in order. */
  function TypesOf(counts: map<Card, nat>, subs: seq<seq<Card>>): (r: seq<HandType>)
    requires Total(counts) == 5
    requires forall k :: 0 <= k < |subs| ==> CanSubstitute(counts, subs[k])
    ensures |r| == |subs|
    ensures forall k :: 0 <= k < |subs| ==> r[k] == SubstitutedType(counts, subs[k])
    decreases |subs|
  {
    if subs == [] then []
    else [SubstitutedType(counts, subs[0])] + TypesOf(counts, subs[1..])
  }

  /** The best of the types reached by the tuples `subs`: none does better, and one attains it. */
  lemma MaxOfTypes(counts: map<Card, nat>, subs: seq<seq<Card>>)
    requires Total(counts) == 5 && |subs| > 0
    requires forall k :: 0 <= k < |subs| ==> CanSubstitute(counts, subs[k])
    ensures forall v :: v in subs ==> CanSubstitute(counts, v) && Rank(SubstitutedType(counts, v)) <= Rank(MaxType(TypesOf(counts, subs)))
    ensures exists v :: v in subs && CanSubstitute(counts, v) && SubstitutedType(counts, v) == MaxType(TypesOf(counts, subs))
  {
    var ts := TypesOf(counts, subs);
    var t := MaxType(ts);
    forall v | v in subs ensures CanSubstitute(counts, v) && Rank(SubstitutedType(counts, v)) <= Rank(t) {
      var k :| 0 <= k < |subs| && subs[k] == v;
      assert ts[k] == SubstitutedType(counts, v);
    }
    var kt :| 0 <= kt < |ts| && ts[kt] == t;
    assert subs[kt] in subs;
  }

  /**
   * The best type over every way of turning each joker into a counted card:
   * no tuple of substitutes does better, and some tuple attains it.
   */
  function BestSubstitutedType(counts: map<Card, nat>): (t: HandType)
    requires J in counts && Total(counts) == 5
    ensures forall v :: v in Tuples(KeysOf(counts), counts[J]) ==>
      CanSubstitute(counts, v) && Rank(SubstitutedType(counts, v)) <= Rank(t)
    ensures exists v :: v in Tuples(KeysOf(counts), counts[J]) && CanSubstitute(counts, v) && SubstitutedType(counts, v) == t
  {
    var subs := Tuples(KeysOf(counts), counts[J]);
    JokersTuple(counts);
    assert forall k :: 0 <= k < |subs| ==> CanSubstitute(counts, subs[k]) by {
      forall k | 0 <= k < |subs| ensures CanSubstitute(counts, subs[k]) {
        TuplesCanSubstitute(counts, subs[k]);
      }
    }
    MaxOfTypes(counts, subs);
    MaxType(TypesOf(counts, subs))
  }

  /**
   * `Hand::get_hand_type_2`: when the hand holds jokers, the best type over
   * every way of turning each joker into a card of the hand; otherwise the
   * plain type.
   */
  function HandType2(h: Hand): HandType
    requires ValidHand(h)
  {
    var counts := CountsOf(h.cards);
    TotalOfCounts(h.cards);
    if J in counts then BestSubstitutedType(counts) else HandTypeFromCounts(counts)
  }

  /** A hand without jokers has the same type under both rules. */
  lemma HandType2WithoutJokers(h: Hand)
    requires ValidHand(h) && J !in h.cards
    ensures HandType2(h) == HandType1(h)
  {
  }

  /**
   * With jokers, the type under the joker rule is the best one reachable:
   * no substitution of the jokers by cards of the hand gives a higher type,
   * and some substitution gives exactly this type.
   */
  lemma HandType2IsBest(h: Hand, v: seq<Card>)
    requires ValidHand(h) && J in h.cards
    requires IsTuple(v, KeysOf(CountsOf(h.cards)), Count(h.cards, J))
    ensures Total(CountsOf(h.cards)) == 5
    ensures CanSubstitute(CountsOf(h.cards), v)
    ensures Rank(SubstitutedType(CountsOf(h.cards), v)) <= Rank(HandType2(h))
    ensures exists w :: w in Tuples(KeysOf(CountsOf(h.cards)), Count(h.cards, J)) && CanSubstitute(CountsOf(h.cards), w) && SubstitutedType(CountsOf(h.cards), w) == HandType2(h)
  {
    var counts := CountsOf(h.cards);
    TotalOfCounts(h.cards);
    CountsOfGet(h.cards, J);
    TuplesComplete(KeysOf(counts), counts[J], v);
    assert HandType2(h) == BestSubstitutedType(counts);
  }

  /** Jokers never make a hand worse: the joker rule's type ranks at least as high as the plain type. */
  lemma HandType2AtLeastHandType1(h: Hand)
    requires ValidHand(h)
    ensures Rank(HandType2(h)) >= Rank(HandType1(h))
  {
    var counts := CountsOf(h.cards);
    if J in counts {
      assert J in h.cards;
      CountsOfGet(h.cards, J);
      JokersTuple(counts);
      var v := seq(counts[J], _ => J);
      HandType2IsBest(h, v);
      SubstituteJokersForJokers(counts, counts[J]);
    }
  }

  // ---------------------------------------------------------------------------
  // Comparing hands

  /** The type of a hand under the given rules. */
  function TypeUnder(h: Hand, rules: Rules): HandType
    requires ValidHand(h)
  {
    match rules
    case Standard => HandType1(h)
    case Jokers => HandType2(h)
  }

  /** `Hand::cmp_1` and `Hand::cmp_2`: the type decides, and equal types fall back to the cards. */
  function CompareHands(h1: Hand, h2: Hand, rules: Rules): Ordering
    requires ValidHand(h1) && ValidHand(h2)
  {
    match Compare(Rank(TypeUnder(h1, rules)), Rank(TypeUnder(h2, rules)))
    case Less => Less
    case Equal => CompareCards(h1.cards, h2.cards, rules)
    case Greater => Greater
  }

  /** A higher type wins whatever the cards. */
  lemma CompareHandsByType(h1: Hand, h2: Hand, rules: Rules)
    requires ValidHand(h1) && ValidHand(h2)
    requires Rank(TypeUnder(h1, rules)) > Rank(TypeUnder(h2, rules))
    ensures CompareHands(h1, h2, rules) == Greater
  {
  }

  lemma CompareHandsFlip(h1: Hand, h2: Hand, rules: Rules)
    requires ValidHand(h1) && ValidHand(h2)
    ensures CompareHands(h2, h1, rules) == Flip(CompareHands(h1, h2, rules))
  {
    CompareCardsFlip(h1.cards, h2.cards, rules);
  }

  /** Hands compare equal only when they are the same hand: the comparison is a total order. */
  lemma CompareHandsEqual(h1: Hand, h2: Hand, rules: Rules)
    requires ValidHand(h1) && ValidHand(h2)
    ensures CompareHands(h1, h2, rules) == Equal <==> h1 == h2
  {
    CompareCardsEqual(h1.cards, h2.cards, rules);
    if CompareHands(h1, h2, rules) == Equal {
      forall i | 0 <= i < 5 ensures h1.cards[i] == h2.cards[i] {
        ValueInjective(h1.cards[i], h2.cards[i], rules);
      }
    }
  }

  lemma CompareHandsTransitive(h1: Hand, h2: Hand, h3: Hand, rules: Rules)
    requires ValidHand(h1) && ValidHand(h2) && ValidHand(h3)
    requires CompareHands(h1, h2, rules) != Greater && CompareHands(h2, h3, rules) != Greater
    ensures CompareHands(h1, h3, rules) != Greater
  {
    var r1, r2, r3 := Rank(TypeUnder(h1, rules)), Rank(TypeUnder(h2, rules)), Rank(TypeUnder(h3, rules));
    if r1 == r2 == r3 {
      CompareCardsTransitive(h1.cards, h2.cards, h3.cards, rules);
    }
  }

  // ---------------------------------------------------------------------------
  // Examples

  function Indicator(b: bool): nat { if b then 1 else 0 }

  lemma Count5(cards: seq<Card>, x: Card)
    requires |cards| == 5
    ensures Count(cards, x) == Indicator(cards[0] == x) + Indicator(cards[1] == x) + Indicator(cards[2] == x) + Indicator(cards[3] == x) + Indicator(cards[4] == x)
  {
    var c4, c3, c2, c1 := cards[..4], cards[..3], cards[..2], cards[..1];
    assert c4[..3] == c3 && c3[..2] == c2 && c2[..1] == c1 && c1[..0] == [];
    assert Count(cards, x) == Count(c4, x) + Indicator(cards[4] == x);
    assert Count(c4, x) == Count(c3, x) + Indicator(cards[3] == x);
    assert Count(c3, x) == Count(c2, x) + Indicator(cards[2] == x);
    assert Count(c2, x) == Count(c1, x) + Indicator(cards[1] == x);
    assert Count(c1, x) == Indicator(cards[0] == x);
  }

  /** The counts of a five-card hand, read card by card. */
  lemma HandCounts(cards: seq<Card>, c: Card)
    requires |cards| == 5
    ensures Get(CountsOf(cards), c) == Indicator(cards[0] == c) + Indicator(cards[1] == c) + Indicator(cards[2] == c) + Indicator(cards[3] == c) + Indicator(cards[4] == c)
  {
    CountsOfGet(cards, c);
    Count5(cards, c);
  }

  /** The largest count is bounded by a bound on every count, and reached by any count that meets it. */
  lemma LargestIs(counts: map<Card, nat>, a: Card, n: nat)
    requires Get(counts, a) == n && forall d :: Get(counts, d) <= n
    ensures Largest(counts) == n
  {
    var xs := CountList(counts);
    assert xs[Index(a)] == n;
    var k :| 0 <= k < |xs| && xs[k] == Largest(counts);
    assert xs[k] == Get(counts, AllCards[k]);
  }

  lemma DistinctTwo(counts: map<Card, nat>, a: Card, b: Card)
    requires Get(counts, a) > 0 && Get(counts, b) > 0 && a != b
    requires forall d :: d != a && d != b ==> Get(counts, d) == 0
    ensures Distinct(counts) == 2
  {
    forall c ensures c in PresentIn(counts, AllCards) <==> c == a || c == b {
      assert AllCards[Index(c)] == c;
    }
    SetOfTwo(PresentIn(counts, AllCards), a, b);
  }

  lemma SetOfTwo(s: set<Card>, a: Card, b: Card)
    requires a != b && forall e :: e in s <==> e == a || e == b
    ensures |s| == 2
  {
    assert s == {a, b};
  }

  lemma DistinctThree(counts: map<Card, nat>, a: Card, b: Card, c: Card)
    requires Get(counts, a) > 0 && Get(counts, b) > 0 && Get(counts, c) > 0
    requires a != b && a != c && b != c
    requires forall d :: d != a && d != b && d != c ==> Get(counts, d) == 0
    ensures Distinct(counts) == 3
  {
    forall e ensures e in PresentIn(counts, AllCards) <==> e == a || e == b || e == c {
      assert AllCards[Index(e)] == e;
    }
    SetOfThree(PresentIn(counts, AllCards), a, b, c);
  }

  lemma SetOfThree(s: set<Card>, a: Card, b: Card, c: Card)
    requires a != b && a != c && b != c && forall e :: e in s <==> e == a || e == b || e == c
    ensures |s| == 3
  {
    assert s == {a, b, c};
  }

  /** Four of one card and one of another make four of a kind. */
  lemma FourKindCounts(counts: map<Card, nat>, a: Card, b: Card)
    requires Total(counts) == 5 && a != b && Get(counts, a) == 4 && Get(counts, b) == 1
    requires forall d :: d != a && d != b ==> Get(counts, d) == 0
    ensures HandTypeFromCounts(counts) == FourOfAKind
  {
    DistinctTwo(counts, a, b);
    LargestIs(counts, a, 4);
    HandTypeMeaning(counts);
  }

  /** Three of one card and two of another make a full house. */
  lemma FullHouseCounts(counts: map<Card, nat>, a: Card, b: Card)
    requires Total(counts) == 5 && a != b && Get(counts, a) == 3 && Get(counts, b) == 2
    requires forall d :: d != a && d != b ==> Get(counts, d) == 0
    ensures HandTypeFromCounts(counts) == FullHouse
  {
    DistinctTwo(counts, a, b);
    LargestIs(counts, a, 3);
    HandTypeMeaning(counts);
  }

  lemma ThreeOfAKindCounts(counts: map<Card, nat>)
    requires Total(counts) == 5
    requires forall d :: Get(counts, d) == (if d == Q then 3 else if d == J || d == A then 1 else 0)
    ensures HandTypeFromCounts(counts) == ThreeOfAKind
  {
    DistinctThree(counts, Q, J, A);
    LargestIs(counts, Q, 3);
    HandTypeMeaning(counts);
  }

  /** "QQQJA" is three of a kind. */
  lemma ExampleHandType1(h: Hand)
    requires Spells(h, "QQQJA")
    ensures HandType1(h) == ThreeOfAKind
  {
    var counts := CountsOf(h.cards);
    forall d ensures Get(counts, d) == (if d == Q then 3 else if d == J || d == A then 1 else 0) {
      HandCounts(h.cards, d);
    }
    TotalOfCounts(h.cards);
    ThreeOfAKindCounts(counts);
  }

  lemma {:induction false} SumTwo(xs: seq<nat>, i: nat, j: nat)
    requires i < |xs| && j < |xs| && i != j
    ensures xs[i] + xs[j] <= Sum(xs)
    decreases |xs|
  {
    if i > 0 && j > 0 {
      SumTwo(xs[1..], i - 1, j - 1);
    } else {
      var k := if i == 0 then j else i;
      assert xs[1..][k - 1] == xs[k];
      SumAtLeastElement(xs[1..], k - 1);
    }
  }

  lemma {:induction false} SumAtLeastElement(xs: seq<nat>, i: nat)
    requires i < |xs|
    ensures xs[i] <= Sum(xs)
    decreases |xs|
  {
    if i > 0 {
      SumAtLeastElement(xs[1..], i - 1);
    }
  }

  /** Two different cards together count at most the total. */
  lemma TwoCounts(counts: map<Card, nat>, c: Card, d: Card)
    requires c != d
    ensures Get(counts, c) + Get(counts, d) <= Total(counts)
  {
    SumTwo(CountList(counts), Index(c), Index(d));
  }

  /** A substitution never lowers the count of a card other than J. */
  lemma {:induction false} SubstitutedKeepsOthers(counts: map<Card, nat>, v: seq<Card>, c: Card)
    requires CanSubstitute(counts, v) && c != J
    ensures Get(Substituted(counts, v), c) >= Get(counts, c)
    decreases |v|
  {
    if v != [] {
      SubstituteOneGet(counts, v[0], c);
      SubstitutedKeepsOthers(SubstituteOne(counts, v[0]), v[1..], c);
    }
  }

  /** A hand holding two different cards other than J cannot become five of a kind. */
  lemma NeverFive(counts: map<Card, nat>, v: seq<Card>, a: Card, b: Card)
    requires CanSubstitute(counts, v) && Total(counts) == 5
    requires a != b && a != J && b != J && Get(counts, a) > 0 && Get(counts, b) > 0
    ensures SubstitutedType(counts, v) != FiveOfAKind
  {
    var m := Substituted(counts, v);
    SubstitutedTotal(counts, v);
    SubstitutedKeepsOthers(counts, v, a);
    SubstitutedKeepsOthers(counts, v, b);
    HandTypeMeaning(m);
    if Largest(m) == 5 {
      var xs := CountList(m);
      var k :| 0 <= k < |xs| && xs[k] == 5;
      var c := AllCards[k];
      var other := if c == a then b else a;
      TwoCounts(m, c, other);
    }
  }

  /**
   * A joker hand holding two different other cards, with a substitution
   * that reaches four of a kind, is four of a kind under the joker rule.
   */
  lemma JokerHandIsFour(h: Hand, v: seq<Card>, a: Card, b: Card)
    requires ValidHand(h) && J in h.cards
    requires a != b && a != J && b != J && a in h.cards && b in h.cards
    requires IsTuple(v, KeysOf(CountsOf(h.cards)), Count(h.cards, J))
    requires Total(CountsOf(h.cards)) == 5 && CanSubstitute(CountsOf(h.cards), v)
    requires SubstitutedType(CountsOf(h.cards), v) == FourOfAKind
    ensures HandType2(h) == FourOfAKind
  {
    var counts := CountsOf(h.cards);
    HandType2IsBest(h, v);
    var w :| w in Tuples(KeysOf(counts), Count(h.cards, J)) && CanSubstitute(counts, w) && SubstitutedType(counts, w) == HandType2(h);
    CountsOfGet(h.cards, a);
    CountsOfGet(h.cards, b);
    CountPresent(h.cards, a);
    CountPresent(h.cards, b);
    NeverFive(counts, w, a, b);
    var t := HandType2(h);
    assert Rank(t) >= 5 && t != FiveOfAKind;
    RankFiveOrMore(t);
  }

  lemma RankFiveOrMore(t: HandType)
    requires Rank(t) >= 5 && t != FiveOfAKind
    ensures t == FourOfAKind
  {
  }

  /** Turning both jokers of "QJJQ2" into queens gives four queens and a two. */
  lemma JokersToQueens(counts: map<Card, nat>)
    requires forall d :: Get(counts, d) == (if d == Q || d == J then 2 else if d == Two then 1 else 0)
    ensures CanSubstitute(counts, [Q, Q])
    ensures forall d :: Get(Substituted(counts, [Q, Q]), d) == (if d == Q then 4 else if d == Two then 1 else 0)
  {
    assert Get(counts, J) == 2 && Get(counts, Q) == 2;
    var m1 := SubstituteOne(counts, Q);
    var m := SubstituteOne(m1, Q);
    assert Substituted(counts, [Q, Q]) == m by {
      assert [Q, Q][1..] == [Q] && [Q][1..] == [];
    }
    forall d ensures Get(m, d) == (if d == Q then 4 else if d == Two then 1 else 0) {
      SubstituteOneGet(counts, Q, d);
      SubstituteOneGet(m1, Q, d);
    }
  }

  /** "QJJQ2" under the joker rule: both jokers become queens, four of a kind. */
  lemma ExampleHandType2(h: Hand)
    requires Spells(h, "QJJQ2")
    ensures HandType2(h) == FourOfAKind
  {
    forall d ensures Get(CountsOf(h.cards), d) == (if d == Q || d == J then 2 else if d == Two then 1 else 0) {
      HandCounts(h.cards, d);
    }
    TwoQueensTwoJokers(h);
  }

  lemma TwoQueensTwoJokers(h: Hand)
    requires ValidHand(h)
    requires forall d :: Get(CountsOf(h.cards), d) == (if d == Q || d == J then 2 else if d == Two then 1 else 0)
    ensures HandType2(h) == FourOfAKind
  {
    var counts := CountsOf(h.cards);
    CountsOfGet(h.cards, J);
    TotalOfCounts(h.cards);
    JokersToQueens(counts);
    var v := [Q, Q];
    SubstitutedTotal(counts, v);
    FourKindCounts(Substituted(counts, v), Q, Two);
    assert IsTuple(v, KeysOf(counts), Count(h.cards, J));
    JokerHandIsFour(h, v, Q, Two);
  }

  /** "33332" is four of a kind and starts with a 3. */
  lemma ThreesAreFour(h: Hand)
    requires Spells(h, "33332")
    ensures ValidHand(h) && HandType1(h) == FourOfAKind && h.cards[0] == Three
  {
    assert CardOf("33332"[0]) == Ok(h.cards[0]);
    forall x ensures Get(CountsOf(h.cards), x) == (if x == Three then 4 else if x == Two then 1 else 0) {
      HandCounts(h.cards, x);
    }
    TotalOfCounts(h.cards);
    FourKindCounts(CountsOf(h.cards), Three, Two);
  }

  /** "2AAAA" is four of a kind and starts with a 2. */
  lemma AcesAreFour(h: Hand)
    requires Spells(h, "2AAAA")
    ensures ValidHand(h) && HandType1(h) == FourOfAKind && h.cards[0] == Two
  {
    assert CardOf("2AAAA"[0]) == Ok(h.cards[0]);
    forall x ensures Get(CountsOf(h.cards), x) == (if x == A then 4 else if x == Two then 1 else 0) {
      HandCounts(h.cards, x);
    }
    TotalOfCounts(h.cards);
    FourKindCounts(CountsOf(h.cards), A, Two);
  }

  /** "33332" beats "2AAAA": both are four of a kind, and 3 beats 2 in the first position. */
  lemma ExampleCompareHands1(h1: Hand, h2: Hand)
    requires Spells(h1, "33332") && Spells(h2, "2AAAA")
    ensures CompareHands(h1, h2, Standard) == Greater
  {
    ThreesAreFour(h1);
    AcesAreFour(h2);
    SameTypeFirstCard(h1, h2, Standard);
  }

  /** "77888" is a full house whose third card is an 8. */
  lemma EightsFullHouse(h: Hand)
    requires Spells(h, "77888")
    ensures ValidHand(h) && HandType1(h) == FullHouse
    ensures h.cards[0] == Seven && h.cards[1] == Seven && h.cards[2] == Eight
  {
    assert CardOf("77888"[0]) == Ok(h.cards[0]) && CardOf("77888"[1]) == Ok(h.cards[1]);
    assert CardOf("77888"[2]) == Ok(h.cards[2]);
    forall x ensures Get(CountsOf(h.cards), x) == (if x == Eight then 3 else if x == Seven then 2 else 0) {
      HandCounts(h.cards, x);
    }
    TotalOfCounts(h.cards);
    FullHouseCounts(CountsOf(h.cards), Eight, Seven);
  }

  /** "77788" is a full house whose third card is a 7. */
  lemma SevensFullHouse(h: Hand)
    requires Spells(h, "77788")
    ensures ValidHand(h) && HandType1(h) == FullHouse
    ensures h.cards[0] == Seven && h.cards[1] == Seven && h.cards[2] == Seven
  {
    assert CardOf("77788"[0]) == Ok(h.cards[0]) && CardOf("77788"[1]) == Ok(h.cards[1]);
    assert CardOf("77788"[2]) == Ok(h.cards[2]);
    forall x ensures Get(CountsOf(h.cards), x) == (if x == Seven then 3 else if x == Eight then 2 else 0) {
      HandCounts(h.cards, x);
    }
    TotalOfCounts(h.cards);
    FullHouseCounts(CountsOf(h.cards), Seven, Eight);
  }

  /** "77888" beats "77788": both are full houses, and 8 beats 7 in the third position. */
  lemma ExampleCompareHands2(h1: Hand, h2: Hand)
    requires Spells(h1, "77888") && Spells(h2, "77788")
    ensures CompareHands(h1, h2, Standard) == Greater
  {
    EightsFullHouse(h1);
    SevensFullHouse(h2);
    SameTypeThirdCard(h1, h2);
  }

  lemma SameTypeThirdCard(h1: Hand, h2: Hand)
    requires ValidHand(h1) && ValidHand(h2) && HandType1(h1) == HandType1(h2)
    requires h1.cards[0] == h2.cards[0] && h1.cards[1] == h2.cards[1]
    requires h1.cards[2] == Eight && h2.cards[2] == Seven
    ensures CompareHands(h1, h2, Standard) == Greater
  {
    CompareCardsFirstDifference(h1.cards, h2.cards, Standard, 2);
  }

  /** Turning the joker of "JKKK2" into a king gives four kings and a two. */
  lemma JokerToKing(counts: map<Card, nat>)
    requires forall d :: Get(counts, d) == (if d == K then 3 else if d == J || d == Two then 1 else 0)
    ensures CanSubstitute(counts, [K])
    ensures forall d :: Get(Substituted(counts, [K]), d) == (if d == K then 4 else if d == Two then 1 else 0)
  {
    assert Get(counts, J) == 1 && Get(counts, K) == 3;
    var m := SubstituteOne(counts, K);
    assert Substituted(counts, [K]) == m by {
      assert [K][1..] == [];
    }
    forall d ensures Get(m, d) == (if d == K then 4 else if d == Two then 1 else 0) {
      SubstituteOneGet(counts, K, d);
    }
  }

  /** "JKKK2" under the joker rule: the joker becomes a king, four of a kind. */
  lemma JokerKingsAreFour(h: Hand)
    requires Spells(h, "JKKK2")
    ensures HandType2(h) == FourOfAKind && h.cards[0] == J
  {
    assert CardOf("JKKK2"[0]) == Ok(h.cards[0]);
    forall d ensures Get(CountsOf(h.cards), d) == (if d == K then 3 else if d == J || d == Two then 1 else 0) {
      HandCounts(h.cards, d);
    }
    ThreeKingsOneJoker(h);
  }

  lemma ThreeKingsOneJoker(h: Hand)
    requires ValidHand(h)
    requires forall d :: Get(CountsOf(h.cards), d) == (if d == K then 3 else if d == J || d == Two then 1 else 0)
    ensures HandType2(h) == FourOfAKind
  {
    var counts := CountsOf(h.cards);
    CountsOfGet(h.cards, J);
    TotalOfCounts(h.cards);
    JokerToKing(counts);
    SubstitutedTotal(counts, [K]);
    FourKindCounts(Substituted(counts, [K]), K, Two);
    assert K in counts;
    assert IsTuple([K], KeysOf(counts), Count(h.cards, J));
    JokerHandIsFour(h, [K], K, Two);
  }

  /** "QQQQ2" holds no joker, so it is four of a kind under either rule. */
  lemma QueensAreFour(h: Hand)
    requires Spells(h, "QQQQ2")
    ensures HandType2(h) == FourOfAKind && h.cards[0] == Q
  {
    assert CardOf("QQQQ2"[0]) == Ok(h.cards[0]);
    forall x ensures Get(CountsOf(h.cards), x) == (if x == Q then 4 else if x == Two then 1 else 0) {
      HandCounts(h.cards, x);
    }
    TotalOfCounts(h.cards);
    FourKindCounts(CountsOf(h.cards), Q, Two);
    assert J !in h.cards by {
      CountsOfGet(h.cards, J);
    }
    HandType2WithoutJokers(h);
  }

  /** Under the joker rule "QQQQ2" beats "JKKK2": both are four of a kind, and the joker is the weakest card. */
  lemma ExampleCompareHands3(h1: Hand, h2: Hand)
    requires Spells(h1, "QQQQ2") && Spells(h2, "JKKK2")
    ensures CompareHands(h1, h2, Jokers) == Greater
  {
    QueensAreFour(h1);
    JokerKingsAreFour(h2);
    QueensBeatJoker(h1, h2);
  }

  lemma QueensBeatJoker(h1: Hand, h2: Hand)
    requires ValidHand(h1) && ValidHand(h2) && h1.cards[0] == Q && h2.cards[0] == J
    requires HandType2(h1) == FourOfAKind && HandType2(h2) == FourOfAKind
    ensures CompareHands(h1, h2, Jokers) == Greater
  {
    SameTypeFirstCard(h1, h2, Jokers);
  }

  /** Hands of the same type whose first cards differ are ordered by their first cards. */
  lemma SameTypeFirstCard(h1: Hand, h2: Hand, rules: Rules)
    requires ValidHand(h1) && ValidHand(h2)
    requires TypeUnder(h1, rules) == TypeUnder(h2, rules)
    requires Value(h1.cards[0], rules) > Value(h2.cards[0], rules)
    ensures CompareHands(h1, h2, rules) == Greater
  {
    CompareCardsFirstDifference(h1.cards, h2.cards, rules, 0);
  }

  // ---------------------------------------------------------------------------
  // Hands and bids

  /** The character of a card: the inverse of `CardOf`. */
  lemma CardOfChar(c: Card)
    ensures CardOf(CardChars[Index(c)]) == Ok(c)
  {
    match c
    case Two => case Three => case Four => case Five => case Six => case Seven => case Eight =>
    case Nine => case T => case J => case Q => case K => case A =>
  }

  /** How a hand is written: one character per card. */
  function ShowCards(cards: seq<Card>): (s: string)
    ensures |s| == |cards|
    ensures forall i :: 0 <= i < |cards| ==> CardOf(s[i]) == Ok(cards[i])
  {
    var s := seq(|cards|, i requires 0 <= i < |cards| => CardChars[Index(cards[i])]);
    forall i | 0 <= i < |cards| ensures CardOf(s[i]) == Ok(cards[i]) {
      CardOfChar(cards[i]);
    }
    s
  }

  /** `parse_hand_and_bid`: exactly two fields separated by a single space, a hand and a bid. */
  function ParseHandAndBid(line: string): (r: Result<(Hand, nat), Error>)
    ensures |Split(line, " ")| != 2 ==> r == Err(InvalidBid(line))
    ensures r.Ok? <==> |Split(line, " ")| == 2 && ParseHand(Split(line, " ")[0]).Ok? && ParseNat(Split(line, " ")[1]).Some?
    ensures r.Ok? ==> ParseHand(Split(line, " ")[0]) == Ok(r.value.0) && ParseNat(Split(line, " ")[1]) == Some(r.value.1)
  {
    var fields := Split(line, " ");
    if |fields| != 2 then Err(InvalidBid(line))
    else
      var hand :- ParseHand(fields[0]);
      match ParseNat(fields[1])
      case None => Err(ParseIntError)
      case Some(bid) => Ok((hand, bid))
  }

  /** Writing a hand and a bid as the puzzle input does and parsing the line gives them back. */
  lemma ParseHandAndBidRoundTrip(h: Hand, bid: nat)
    requires ValidHand(h)
    ensures ParseHandAndBid(ShowCards(h.cards) + " " + ShowNat(bid)) == Ok((h, bid))
  {
    var hand, number := ShowCards(h.cards), ShowNat(bid);
    assert Avoids(hand, ' ') by {
      forall i | 0 <= i < |hand| ensures hand[i] != ' ' {
        assert CardOf(hand[i]).Ok?;
      }
    }
    assert Avoids(number, ' ');
    var pieces := [hand, number];
    assert Join(pieces, " ") == hand + " " + number by {
      assert pieces[1..] == [number];
    }
    SplitJoin(pieces, " ");
    var r := ParseHand(hand);
    assert r.Ok?;
    assert r.value.cards == h.cards;
    ParseNatShowNat(bid);
  }

  /** `parse_hands_and_bids`: every line parsed, or the error of the first line that fails. */
  function ParseHandsAndBids(lines: seq<string>): (r: Result<seq<(Hand, nat)>, Error>)
    ensures r.Ok? <==> forall i :: 0 <= i < |lines| ==> ParseHandAndBid(lines[i]).Ok?
    ensures r.Ok? ==> |r.value| == |lines| && forall i :: 0 <= i < |lines| ==> ParseHandAndBid(lines[i]) == Ok(r.value[i])
  {
    TryCollect(lines, ParseHandAndBid)
  }

  /** Parsed hands always have five cards. */
  lemma ParsedHandsValid(lines: seq<string>)
    requires ParseHandsAndBids(lines).Ok?
    ensures AllValid(ParseHandsAndBids(lines).value)
  {
    var es := ParseHandsAndBids(lines).value;
    forall i | 0 <= i < |es| ensures ValidHand(es[i].0) {
      assert ParseHandAndBid(lines[i]) == Ok(es[i]);
    }
  }

  // ---------------------------------------------------------------------------
  // Total winnings

  predicate AllValid(es: seq<(Hand, nat)>)
  {
    forall i :: 0 <= i < |es| ==> ValidHand(es[i].0)
  }

  /** `e1`'s hand is not stronger than `e2`'s. */
  predicate Weaker(e1: (Hand, nat), e2: (Hand, nat), rules: Rules)
    requires ValidHand(e1.0) && ValidHand(e2.0)
  {
    CompareHands(e1.0, e2.0, rules) != Greater
  }

  /** Hands listed weakest first, as `sort_unstable_by` leaves them. */
  predicate SortedByHand(es: seq<(Hand, nat)>, rules: Rules)
    requires AllValid(es)
  {
    forall i, j :: 0 <= i < j < |es| ==> Weaker(es[i], es[j], rules)
  }

  /** The winnings of a list of hands sorted weakest first: the hand of rank i + 1 wins (i + 1) times its bid. */
  function Winnings(es: seq<(Hand, nat)>): nat
    decreases |es|
  {
    if es == [] then 0 else Winnings(es[..|es| - 1]) + |es| * es[|es| - 1].1
  }

  /** The first `n` entries are sorted weakest first. */
  predicate SortedPrefix(es: seq<(Hand, nat)>, n: nat, rules: Rules)
    requires AllValid(es) && n <= |es|
  {
    forall k, l :: 0 <= k < l < n ==> Weaker(es[k], es[l], rules)
  }

  /**
   * While the entry at `i` is being moved down to position `j`: the first
   * `i + 1` entries other than the one at `j` are sorted, and the one at `j`
   * is not stronger than any entry after it.
   */
  predicate Inserting(es: seq<(Hand, nat)>, j: nat, i: nat, rules: Rules)
    requires AllValid(es) && j <= i < |es|
  {
    (forall k, l :: 0 <= k < l <= i && k != j && l != j ==> Weaker(es[k], es[l], rules))
    && (forall l :: j < l <= i ==> Weaker(es[j], es[l], rules))
  }

  lemma StartInserting(es: seq<(Hand, nat)>, i: nat, rules: Rules)
    requires AllValid(es) && i < |es| && SortedPrefix(es, i, rules)
    ensures Inserting(es, i, i, rules)
  {
  }

  /** Swapping the moving entry with a stronger predecessor keeps `Inserting`, one position down. */
  lemma SwapDown(es: seq<(Hand, nat)>, j: nat, i: nat, rules: Rules)
    requires AllValid(es) && 0 < j <= i < |es| && Inserting(es, j, i, rules)
    requires CompareHands(es[j - 1].0, es[j].0, rules) == Greater
    ensures AllValid(es[j - 1 := es[j]][j := es[j - 1]])
    ensures Inserting(es[j - 1 := es[j]][j := es[j - 1]], j - 1, i, rules)
  {
    var fs := es[j - 1 := es[j]][j := es[j - 1]];
    SwapKeeps(es, j);
    forall k, l | 0 <= k < l <= i && k != j - 1 && l != j - 1 ensures Weaker(fs[k], fs[l], rules) {
      var k', l' := if k == j then j - 1 else k, if l == j then j - 1 else l;
      assert fs[k] == es[k'] && fs[l] == es[l'];
      assert Weaker(es[k'], es[l'], rules);
    }
    forall l | j - 1 < l <= i ensures Weaker(fs[j - 1], fs[l], rules) {
      if l == j {
        CompareHandsFlip(es[j - 1].0, es[j].0, rules);
      } else {
        assert Weaker(es[j], es[l], rules);
      }
    }
  }

  /** Swapping two entries keeps the same entries, all of them valid. */
  lemma SwapKeeps(es: seq<(Hand, nat)>, j: nat)
    requires AllValid(es) && 0 < j < |es|
    ensures AllValid(es[j - 1 := es[j]][j := es[j - 1]])
    ensures multiset(es[j - 1 := es[j]][j := es[j - 1]]) == multiset(es)
  {
  }

  /** Once the moving entry is not weaker than its predecessor, the first `i + 1` entries are sorted. */
  lemma StopInserting(es: seq<(Hand, nat)>, j: nat, i: nat, rules: Rules)
    requires AllValid(es) && j <= i < |es| && Inserting(es, j, i, rules)
    requires j > 0 ==> CompareHands(es[j - 1].0, es[j].0, rules) != Greater
    ensures SortedPrefix(es, i + 1, rules)
  {
    forall k | 0 <= k < j ensures Weaker(es[k], es[j], rules) {
      if k < j - 1 {
        CompareHandsTransitive(es[k].0, es[j - 1].0, es[j].0, rules);
      }
    }
  }

  /** The sort that `sort_unstable_by` performs: it orders the hands weakest first, keeping every entry. */
  method SortByHand(a: array<(Hand, nat)>, rules: Rules)
    requires AllValid(a[..])
    modifies a
    ensures AllValid(a[..]) && SortedByHand(a[..], rules)
    ensures multiset(a[..]) == multiset(old(a[..]))
  {
    var i := 0;
    while i < a.Length
      invariant 0 <= i <= a.Length
      invariant AllValid(a[..]) && SortedPrefix(a[..], i, rules)
      invariant multiset(a[..]) == multiset(old(a[..]))
    {
      StartInserting(a[..], i, rules);
      var j := i;
      while j > 0 && CompareHands(a[j - 1].0, a[j].0, rules) == Greater
        invariant 0 <= j <= i
        invariant AllValid(a[..]) && Inserting(a[..], j, i, rules)
        invariant multiset(a[..]) == multiset(old(a[..]))
      {
        ghost var es := a[..];
        SwapKeeps(es, j);
        SwapDown(es, j, i, rules);
        a[j - 1], a[j] := a[j], a[j - 1];
        assert a[..] == es[j - 1 := es[j]][j := es[j - 1]];
        j := j - 1;
      }
      StopInserting(a[..], j, i, rules);
      i := i + 1;
    }
  }

  lemma WinningsStep(es: seq<(Hand, nat)>, i: nat)
    requires i < |es|
    ensures Winnings(es[..i + 1]) == Winnings(es[..i]) + (i + 1) * es[i].1
  {
    assert es[..i + 1][..i] == es[..i];
  }

  /** The sum that `get_total_winnings` takes over the sorted entries. */
  method SumWinnings(a: array<(Hand, nat)>) returns (total: nat)
    ensures total == Winnings(a[..])
  {
    total := 0;
    var i := 0;
    while i < a.Length
      invariant 0 <= i <= a.Length
      invariant total == Winnings(a[..i])
    {
      WinningsStep(a[..], i);
      total := total + (i + 1) * a[i].1;
      i := i + 1;
    }
    assert a[..a.Length] == a[..];
  }

  /** `get_total_winnings`: sort the hands weakest first, then add up rank times bid. */
  method GetTotalWinnings(a: array<(Hand, nat)>, rules: Rules) returns (total: nat)
    requires AllValid(a[..])
    modifies a
    ensures AllValid(a[..]) && SortedByHand(a[..], rules)
    ensures multiset(a[..]) == multiset(old(a[..]))
    ensures total == Winnings(a[..])
  {
    SortByHand(a, rules);
    total := SumWinnings(a);
  }

  /** No two entries hold the same hand. */
  predicate DistinctHands(es: seq<(Hand, nat)>)
  {
    forall i, j :: 0 <= i < j < |es| ==> es[i].0 != es[j].0
  }

  /** Two hands neither of which is stronger than the other are the same hand. */
  lemma WeakerBothWays(e1: (Hand, nat), e2: (Hand, nat), rules: Rules)
    requires ValidHand(e1.0) && ValidHand(e2.0)
    requires Weaker(e1, e2, rules) && Weaker(e2, e1, rules)
    ensures e1.0 == e2.0
  {
    CompareHandsFlip(e1.0, e2.0, rules);
    CompareHandsEqual(e1.0, e2.0, rules);
  }

  /**
   * When no hand occurs twice, there is only one way to list the entries
   * weakest first, so the total winnings do not depend on how the sort
   * breaks ties.
   */
  lemma {:induction false} SortedUnique(s: seq<(Hand, nat)>, t: seq<(Hand, nat)>, rules: Rules)
    requires AllValid(s) && AllValid(t) && SortedByHand(s, rules) && SortedByHand(t, rules)
    requires multiset(s) == multiset(t) && DistinctHands(s)
    ensures s == t
    decreases |s|
  {
    if s == [] {
      assert |t| == |multiset(t)| == 0;
    } else {
      SameFirst(s, t, rules);
      Rest(s, rules);
      Rest(t, rules);
      MultisetTail(s, t);
      SortedUnique(s[1..], t[1..], rules);
      assert s == [s[0]] + s[1..] && t == [t[0]] + t[1..];
    }
  }

  lemma MultisetTail<T>(s: seq<T>, t: seq<T>)
    requires s != [] && t != [] && s[0] == t[0] && multiset(s) == multiset(t)
    ensures multiset(s[1..]) == multiset(t[1..])
  {
    assert s == [s[0]] + s[1..] && t == [t[0]] + t[1..];
    assert multiset(s) == multiset{s[0]} + multiset(s[1..]);
    assert multiset(t) == multiset{t[0]} + multiset(t[1..]);
    assert multiset(s[1..]) == multiset(s) - multiset{s[0]};
    assert multiset(t[1..]) == multiset(t) - multiset{t[0]};
  }

  /** Sorted lists of the same entries, no hand twice, start with the same entry. */
  lemma SameFirst(s: seq<(Hand, nat)>, t: seq<(Hand, nat)>, rules: Rules)
    requires AllValid(s) && AllValid(t) && SortedByHand(s, rules) && SortedByHand(t, rules)
    requires multiset(s) == multiset(t) && DistinctHands(s) && s != []
    ensures t != [] && t[0] == s[0]
  {
    assert s[0] in multiset(t);
    assert t != [] && t[0] in multiset(s);
    if t[0] != s[0] {
      var k :| 0 <= k < |t| && t[k] == s[0];
      var m :| 0 <= m < |s| && s[m] == t[0];
      assert Weaker(t[0], t[k], rules);
      assert Weaker(s[0], s[m], rules);
      WeakerBothWays(s[0], t[0], rules);
      assert false;
    }
  }

  /** Dropping the first entry of a sorted list leaves a sorted list. */
  lemma Rest(s: seq<(Hand, nat)>, rules: Rules)
    requires AllValid(s) && SortedByHand(s, rules) && s != []
    ensures AllValid(s[1..]) && SortedByHand(s[1..], rules)
    ensures DistinctHands(s) ==> DistinctHands(s[1..])
  {
  }

  /**
   * `part1` (`Standard`) and `part2` (`Jokers`): parse every line, sort the
   * entries weakest first and total the winnings. `ranked` is the sorted list.
   */
  method Solve(lines: seq<string>, rules: Rules) returns (r: Result<nat, Error>, ranked: seq<(Hand, nat)>)
    ensures r.Err? <==> ParseHandsAndBids(lines).Err?
    ensures r.Err? ==> r.error == ParseHandsAndBids(lines).error
    ensures r.Ok? ==> AllValid(ranked) && SortedByHand(ranked, rules)
    ensures r.Ok? ==> multiset(ranked) == multiset(ParseHandsAndBids(lines).value)
    ensures r.Ok? ==> r.value == Winnings(ranked)
  {
    match ParseHandsAndBids(lines)
    case Err(e) =>
      return Err(e), [];
    case Ok(es) =>
      ParsedHandsValid(lines);
      var a := new (Hand, nat)[|es|](i requires 0 <= i < |es| => es[i]);
      assert a[..] == es;
      var total := GetTotalWinnings(a, rules);
      return Ok(total), a[..];
  }
}
