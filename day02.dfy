/**
 * Day 2: the cube game. Each line of the input records a game: its id and
 * the handfuls of red, green and blue cubes drawn from a bag. Part 1 sums the
 * ids of the games that a bag of 12 red, 13 green and 14 blue cubes could
 * have produced; part 2 sums, over the games, the product of the smallest bag
 * that could have produced each.
 */
module Day02 {
  import opened Results
  import opened Text

  /** One handful of cubes (`DrawnCubes`); the default handful is all zeros. */
  datatype DrawnCubes = DrawnCubes(red: nat, green: nat, blue: nat)

  datatype Game = Game(id: nat, draws: seq<DrawnCubes>)

  /**
   * The parsers' errors (`AocError` without its I/O case). The integer
   * parser's error carries no detail here.
   */
  datatype Error = ParseIntError | InvalidDrawnCubes(draw: string) | InvalidGame(line: string)

  datatype Colour = Red | Green | Blue

  function ColourName(c: Colour): string
  {
    match c
    case Red => "red"
    case Green => "green"
    case Blue => "blue"
  }

  /** The colour a word names, if any. */
  function ColourNamed(word: string): (r: Option<Colour>)
    ensures forall c :: r == Some(c) <==> ColourName(c) == word
  {
    if word == "red" then Some(Red)
    else if word == "green" then Some(Green)
    else if word == "blue" then Some(Blue)
    else None
  }

  function Amount(d: DrawnCubes, c: Colour): nat
  {
    match c
    case Red => d.red
    case Green => d.green
    case Blue => d.blue
  }

  /** The handful with colour c's amount replaced (`red = amount` and its siblings). */
  function WithAmount(d: DrawnCubes, c: Colour, amount: nat): (r: DrawnCubes)
    ensures Amount(r, c) == amount
    ensures forall other :: other != c ==> Amount(r, other) == Amount(d, other)
  {
    match c
    case Red => d.(red := amount)
    case Green => d.(green := amount)
    case Blue => d.(blue := amount)
  }

  // ---------------------------------------------------------------------------
  // `DrawnCubes::from_str`

  /**
   * One `<amount> <colour>` part of the draw s: exactly two words, the first
   * an integer, the second a colour. A wrong shape or colour is reported with
   * the whole draw.
   */
  function ParsePart(s: string, part: string): Result<(Colour, nat), Error>
  {
    var words := Words(part);
    if |words| != 2 then Err(InvalidDrawnCubes(s))
    else match ParseNat(words[0])
      case None => Err(ParseIntError)
      case Some(amount) =>
        match ColourNamed(words[1])
        case None => Err(InvalidDrawnCubes(s))
        case Some(c) => Ok((c, amount))
  }

  /** What each part of the draw s parses to. */
  function PartResults(s: string, parts: seq<string>): (r: seq<Result<(Colour, nat), Error>>)
    ensures |r| == |parts| && forall i :: 0 <= i < |parts| ==> r[i] == ParsePart(s, parts[i])
  {
    seq(|parts|, i requires 0 <= i < |parts| => ParsePart(s, parts[i]))
  }

  /** The handful after the first n parts, or the first error among them. */
  function Tally(results: seq<Result<(Colour, nat), Error>>, n: nat): Result<DrawnCubes, Error>
    requires n <= |results|
  {
    if n == 0 then Ok(DrawnCubes(0, 0, 0))
    else match Tally(results, n - 1)
      case Err(e) => Err(e)
      case Ok(d) =>
        match results[n - 1]
        case Err(e) => Err(e)
        case Ok(p) => Ok(WithAmount(d, p.0, p.1))
  }

  /** The draw that s describes, its parts separated by ", ". */
  function DrawOf(s: string): Result<DrawnCubes, Error>
  {
    var parts := Split(s, ", ");
    Tally(PartResults(s, parts), |parts|)
  }

  /** `DrawnCubes::from_str`: the loop over the parts, assigning one colour at a time. */
  method ParseDrawnCubes(s: string) returns (r: Result<DrawnCubes, Error>)
    ensures r == DrawOf(s)
  {
    var parts := Split(s, ", ");
    ghost var results := PartResults(s, parts);
    var red, green, blue := 0, 0, 0;
    for i := 0 to |parts|
      invariant Tally(results, i) == Ok(DrawnCubes(red, green, blue))
    {
      var words := Words(parts[i]);
      if |words| != 2 {
        StopsAtFirstError(results, i);
        return Err(InvalidDrawnCubes(s));
      }
      var amount := ParseNat(words[0]);
      if amount.None? {
        StopsAtFirstError(results, i);
        return Err(ParseIntError);
      }
      if words[1] == "red" {
        red := amount.value;
      } else if words[1] == "green" {
        green := amount.value;
      } else if words[1] == "blue" {
        blue := amount.value;
      } else {
        StopsAtFirstError(results, i);
        return Err(InvalidDrawnCubes(s));
      }
    }
    return Ok(DrawnCubes(red, green, blue));
  }

  /** The draw parses exactly when each of its parts does. */
  lemma {:induction false} TallyOk(results: seq<Result<(Colour, nat), Error>>, n: nat)
    requires n <= |results|
    ensures Tally(results, n).Ok? <==> forall i :: 0 <= i < n ==> results[i].Ok?
    decreases n
  {
    if n > 0 {
      TallyOk(results, n - 1);
    }
  }

  /** A failing part decides the draw's error when every part before it parses. */
  lemma {:induction false} TallyFirstError(results: seq<Result<(Colour, nat), Error>>, n: nat, i: nat)
    requires i < n <= |results| && results[i].Err?
    requires forall j :: 0 <= j < i ==> results[j].Ok?
    ensures Tally(results, n) == Err(results[i].error)
    decreases n
  {
    if n == i + 1 {
      TallyOk(results, i);
    } else {
      TallyFirstError(results, n - 1, i);
    }
  }

  /** Once part i fails after a successful prefix, the whole draw fails with its error. */
  lemma StopsAtFirstError(results: seq<Result<(Colour, nat), Error>>, i: nat)
    requires i < |results| && Tally(results, i).Ok? && results[i].Err?
    ensures Tally(results, |results|) == Err(results[i].error)
  {
    TallyOk(results, i);
    TallyFirstError(results, |results|, i);
  }

  /** A part's result names colour c. */
  predicate Names(result: Result<(Colour, nat), Error>, c: Colour)
  {
    result.Ok? && result.value.0 == c
  }

  /** A colour no part names stays at 0. */
  lemma {:induction false} TallyUnnamed(results: seq<Result<(Colour, nat), Error>>, n: nat, c: Colour)
    requires n <= |results| && Tally(results, n).Ok?
    requires forall i :: 0 <= i < n ==> !Names(results[i], c)
    ensures Amount(Tally(results, n).value, c) == 0
    decreases n
  {
    if n > 0 {
      TallyUnnamed(results, n - 1, c);
      assert !Names(results[n - 1], c);
    }
  }

  /** A repeated colour takes the amount of the last part that names it. */
  lemma {:induction false} TallyLastNamed(results: seq<Result<(Colour, nat), Error>>, n: nat, c: Colour, i: nat)
    requires i < n <= |results| && Tally(results, n).Ok?
    requires Names(results[i], c)
    requires forall j :: i < j < n ==> !Names(results[j], c)
    ensures Amount(Tally(results, n).value, c) == results[i].value.1
    decreases n
  {
    if n > i + 1 {
      TallyLastNamed(results, n - 1, c, i);
      assert !Names(results[n - 1], c);
    }
  }

  /** The text of one part. */
  function ShowPart(c: Colour, amount: nat): string
  {
    ShowNat(amount) + " " + ColourName(c)
  }

  lemma ParsePartShowPart(s: string, c: Colour, amount: nat)
    ensures ParsePart(s, ShowPart(c, amount)) == Ok((c, amount))
  {
    WordsOfTwo(ShowNat(amount), ColourName(c));
    ParseNatShowNat(amount);
  }

  /** A handful written out, every colour named once. */
  function ShowDraw(d: DrawnCubes): string
  {
    Join([ShowPart(Red, d.red), ShowPart(Green, d.green), ShowPart(Blue, d.blue)], ", ")
  }

  lemma ShowPartAvoids(c: Colour, amount: nat, x: char)
    requires !IsDigit(x) && x != ' ' && Avoids(ColourName(c), x)
    ensures Avoids(ShowPart(c, amount), x)
  {
  }

  /** The three parts of a written handful tally to the handful. */
  lemma TallyShowParts(s: string, d: DrawnCubes)
    ensures Tally(PartResults(s, [ShowPart(Red, d.red), ShowPart(Green, d.green), ShowPart(Blue, d.blue)]), 3) == Ok(d)
  {
    var results := PartResults(s, [ShowPart(Red, d.red), ShowPart(Green, d.green), ShowPart(Blue, d.blue)]);
    ParsePartShowPart(s, Red, d.red);
    ParsePartShowPart(s, Green, d.green);
    ParsePartShowPart(s, Blue, d.blue);
    assert results[0] == Ok((Red, d.red));
    assert results[1] == Ok((Green, d.green));
    assert results[2] == Ok((Blue, d.blue));
    assert Tally(results, 1) == Ok(DrawnCubes(d.red, 0, 0));
    assert Tally(results, 2) == Ok(DrawnCubes(d.red, d.green, 0));
  }

  /** Writing a handful out and parsing it gives the handful back. */
  lemma DrawOfShowDraw(d: DrawnCubes)
    ensures DrawOf(ShowDraw(d)) == Ok(d)
  {
    var parts := [ShowPart(Red, d.red), ShowPart(Green, d.green), ShowPart(Blue, d.blue)];
    ShowPartAvoids(Red, d.red, ',');
    ShowPartAvoids(Green, d.green, ',');
    ShowPartAvoids(Blue, d.blue, ',');
    SplitJoin(parts, ", ");
    TallyShowParts(ShowDraw(d), d);
  }

  /** No colour name contains a separator of the game line. */
  lemma ColourNameAvoids(c: Colour, x: char)
    requires x == ',' || x == ';' || x == ':'
    ensures Avoids(ColourName(c), x)
  {
  }

  /** Parts written out in the given order, separated by ", ". */
  function ShowParts(parts: seq<(Colour, nat)>): string
    requires |parts| > 0
  {
    Join(seq(|parts|, i requires 0 <= i < |parts| => ShowPart(parts[i].0, parts[i].1)), ", ")
  }

  /** The handful after assigning each part's amount to its colour, in order. */
  function PartsDraw(parts: seq<(Colour, nat)>): DrawnCubes
    decreases |parts|
  {
    if parts == [] then DrawnCubes(0, 0, 0)
    else WithAmount(PartsDraw(parts[..|parts| - 1]), parts[|parts| - 1].0, parts[|parts| - 1].1)
  }

  /** Parts that all parse tally to the handful they assign. */
  lemma {:induction false} TallyOfParts(parts: seq<(Colour, nat)>, n: nat)
    requires n <= |parts|
    ensures Tally(seq(|parts|, i requires 0 <= i < |parts| => Ok(parts[i])), n) == Ok(PartsDraw(parts[..n]))
    decreases n
  {
    if n > 0 {
      TallyOfParts(parts, n - 1);
      assert parts[..n][..n - 1] == parts[..n - 1];
    }
  }

  /** Written parts split back into the parts' texts, each of which parses to its part. */
  lemma PartResultsOfShowParts(parts: seq<(Colour, nat)>)
    requires |parts| > 0
    ensures PartResults(ShowParts(parts), Split(ShowParts(parts), ", "))
              == seq(|parts|, i requires 0 <= i < |parts| => Ok(parts[i]))
  {
    var s := ShowParts(parts);
    var texts := seq(|parts|, i requires 0 <= i < |parts| => ShowPart(parts[i].0, parts[i].1));
    forall k | 0 <= k < |texts| ensures Avoids(texts[k], ',') {
      ColourNameAvoids(parts[k].0, ',');
      ShowPartAvoids(parts[k].0, parts[k].1, ',');
    }
    SplitJoin(texts, ", ");
    forall k | 0 <= k < |texts| ensures ParsePart(s, texts[k]) == Ok(parts[k]) {
      ParsePartShowPart(s, parts[k].0, parts[k].1);
    }
  }

  /** Written parts, in any order and with repeats, parse to the handful they assign. */
  lemma DrawOfShowParts(parts: seq<(Colour, nat)>)
    requires |parts| > 0
    ensures DrawOf(ShowParts(parts)) == Ok(PartsDraw(parts))
  {
    var s := ShowParts(parts);
    var pieces := Split(s, ", ");
    var results := seq(|parts|, i requires 0 <= i < |parts| => Ok(parts[i]));
    PartResultsOfShowParts(parts);
    assert |pieces| == |results|;
    assert DrawOf(s) == Tally(results, |parts|);
    TallyOfParts(parts, |parts|);
    assert parts[..|parts|] == parts;
  }

  /** Written parts contain neither separator of the game line. */
  lemma ShowPartsAvoids(parts: seq<(Colour, nat)>, x: char)
    requires |parts| > 0 && (x == ';' || x == ':')
    ensures Avoids(ShowParts(parts), x)
  {
    var texts := seq(|parts|, i requires 0 <= i < |parts| => ShowPart(parts[i].0, parts[i].1));
    forall k | 0 <= k < |texts| ensures Avoids(texts[k], x) {
      ColourNameAvoids(parts[k].0, x);
      ShowPartAvoids(parts[k].0, parts[k].1, x);
    }
    JoinAvoids(texts, ", ", x);
  }

  // ---------------------------------------------------------------------------
  // `Game::from_str`

  /**
   * A game line: exactly one ": ", before it "Game " and the id, after it the
   * draws separated by "; ". A line with no ": " or more than one, or whose
   * head lacks "Game ", is an invalid game; an id that is not an integer is
   * the integer parser's error; otherwise the first draw that does not parse
   * decides the error.
   */
  function ParseGame(s: string): (r: Result<Game, Error>)
    ensures |Split(s, ": ")| != 2 ==> r == Err(InvalidGame(s))
    ensures |Split(s, ": ")| == 2 && !StartsWith(Split(s, ": ")[0], "Game ") ==> r == Err(InvalidGame(s))
    ensures (|Split(s, ": ")| == 2 && StartsWith(Split(s, ": ")[0], "Game ")
             && ParseNat(Split(s, ": ")[0][5..]).None?) ==> r == Err(ParseIntError)
    ensures (|Split(s, ": ")| == 2 && StartsWith(Split(s, ": ")[0], "Game ")
             && ParseNat(Split(s, ": ")[0][5..]).Some?
             && TryCollect(Split(Split(s, ": ")[1], "; "), DrawOf).Err?)
            ==> r == Err(TryCollect(Split(Split(s, ": ")[1], "; "), DrawOf).error)
    ensures r.Ok? ==> (|Split(s, ": ")| == 2 && StartsWith(Split(s, ": ")[0], "Game ")
                       && ParseNat(Split(s, ": ")[0][5..]) == Some(r.value.id)
                       && TryCollect(Split(Split(s, ": ")[1], "; "), DrawOf) == Ok(r.value.draws))
  {
    var halves := Split(s, ": ");
    if |halves| != 2 then Err(InvalidGame(s))
    else match StripPrefix(halves[0], "Game ")
      case None => Err(InvalidGame(s))
      case Some(idText) =>
        match ParseNat(idText)
        case None => Err(ParseIntError)
        case Some(id) =>
          match TryCollect(Split(halves[1], "; "), DrawOf)
          case Err(e) => Err(e)
          case Ok(draws) => Ok(Game(id, draws))
  }

  /** A parsed game has at least one draw: splitting never gives zero pieces. */
  lemma ParsedGameHasDraws(s: string)
    requires ParseGame(s).Ok?
    ensures |ParseGame(s).value.draws| > 0
  {
    var halves := Split(s, ": ");
    assert |Split(halves[1], "; ")| > 0;
  }

  /** Draws written out, separated by "; "; there must be at least one. */
  function ShowDraws(draws: seq<DrawnCubes>): string
    requires |draws| > 0
  {
    Join(seq(|draws|, i requires 0 <= i < |draws| => ShowDraw(draws[i])), "; ")
  }

  /** A game written out; a game needs at least one draw to be written. */
  function ShowGame(g: Game): string
    requires |g.draws| > 0
  {
    "Game " + ShowNat(g.id) + ": " + ShowDraws(g.draws)
  }

  lemma ShowDrawAvoids(d: DrawnCubes, x: char)
    requires !IsDigit(x) && x != ' ' && x != ','
    requires Avoids("red", x) && Avoids("green", x) && Avoids("blue", x)
    ensures Avoids(ShowDraw(d), x)
  {
    ShowPartAvoids(Red, d.red, x);
    ShowPartAvoids(Green, d.green, x);
    ShowPartAvoids(Blue, d.blue, x);
    JoinAvoids([ShowPart(Red, d.red), ShowPart(Green, d.green), ShowPart(Blue, d.blue)], ", ", x);
  }

  /** Written draws contain no ':' and split back into the draws. */
  lemma ParseShowDraws(draws: seq<DrawnCubes>)
    requires |draws| > 0
    ensures Avoids(ShowDraws(draws), ':')
    ensures TryCollect(Split(ShowDraws(draws), "; "), DrawOf) == Ok(draws)
  {
    var texts := seq(|draws|, i requires 0 <= i < |draws| => ShowDraw(draws[i]));
    forall k | 0 <= k < |texts| ensures Avoids(texts[k], ':') && Avoids(texts[k], ';') {
      ShowDrawAvoids(draws[k], ':');
      ShowDrawAvoids(draws[k], ';');
    }
    JoinAvoids(texts, "; ", ':');
    SplitJoin(texts, "; ");
    forall i | 0 <= i < |texts| ensures DrawOf(texts[i]) == Ok(draws[i]) {
      DrawOfShowDraw(draws[i]);
    }
    assert TryCollect(texts, DrawOf).value == draws;
  }

  /** The "Game <id>" head contains no ':'. */
  lemma HeadAvoidsColon(id: nat)
    ensures Avoids("Game " + ShowNat(id), ':')
  {
    var t := ShowNat(id);
    forall k | 0 <= k < |t| ensures t[k] != ':' {
      assert IsDigit(t[k]);
    }
  }

  /** Writing a game out and parsing it gives the game back. */
  lemma ParseGameShowGame(g: Game)
    requires |g.draws| > 0
    ensures ParseGame(ShowGame(g)) == Ok(g)
  {
    var head := "Game " + ShowNat(g.id);
    var body := ShowDraws(g.draws);
    ParseShowDraws(g.draws);
    HeadAvoidsColon(g.id);
    SplitFirst(head, ": ", body);
    SplitOne(body, ": ");
    assert Split(ShowGame(g), ": ") == [head, body];
    assert StripPrefix(head, "Game ") == Some(ShowNat(g.id));
    ParseNatShowNat(g.id);
  }

  /** A game line from an id text and its draws, each draw given as parts in any order. */
  function GameLine(idText: string, draws: seq<seq<(Colour, nat)>>): string
    requires |draws| > 0 && forall i :: 0 <= i < |draws| ==> |draws[i]| > 0
  {
    "Game " + idText + ": " + Join(seq(|draws|, i requires 0 <= i < |draws| => ShowParts(draws[i])), "; ")
  }

  /** A game line built from an id text and draw texts splits back into them. */
  lemma SplitGameLine(idText: string, texts: seq<string>)
    requires |texts| > 0 && Avoids(idText, ':')
    requires forall k :: 0 <= k < |texts| ==> Avoids(texts[k], ':') && Avoids(texts[k], ';')
    ensures Split("Game " + idText + ": " + Join(texts, "; "), ": ") == ["Game " + idText, Join(texts, "; ")]
    ensures Split(Join(texts, "; "), "; ") == texts
  {
    var head := "Game " + idText;
    var body := Join(texts, "; ");
    JoinAvoids(texts, "; ", ':');
    assert Avoids(head, ':');
    SplitFirst(head, ": ", body);
    SplitOne(body, ": ");
    SplitJoin(texts, "; ");
  }

  /**
   * A game line whose id text parses, with draws naming colours in any order,
   * leaving some out or repeating them, parses to the game whose draws are
   * the handfuls those parts assign.
   */
  lemma ParseGameLine(idText: string, id: nat, draws: seq<seq<(Colour, nat)>>)
    requires |draws| > 0 && forall i :: 0 <= i < |draws| ==> |draws[i]| > 0
    requires Avoids(idText, ':') && ParseNat(idText) == Some(id)
    ensures ParseGame(GameLine(idText, draws)) == Ok(Game(id, seq(|draws|, i requires 0 <= i < |draws| => PartsDraw(draws[i]))))
  {
    var texts := seq(|draws|, i requires 0 <= i < |draws| => ShowParts(draws[i]));
    var handfuls := seq(|draws|, i requires 0 <= i < |draws| => PartsDraw(draws[i]));
    forall k | 0 <= k < |texts| ensures Avoids(texts[k], ':') && Avoids(texts[k], ';') && DrawOf(texts[k]) == Ok(handfuls[k]) {
      ShowPartsAvoids(draws[k], ':');
      ShowPartsAvoids(draws[k], ';');
      DrawOfShowParts(draws[k]);
    }
    TryCollectAllOk(texts, DrawOf, handfuls);
    var head := "Game " + idText;
    SplitGameLine(idText, texts);
    assert head[..5] == "Game " && head[5..] == idText;
    assert StripPrefix(head, "Game ") == Some(idText);
  }

  // ---------------------------------------------------------------------------
  // Feasibility and the minimum draw

  /** Every colour of d is at most the bag's. */
  predicate Within(d: DrawnCubes, bag: DrawnCubes)
  {
    d.red <= bag.red && d.green <= bag.green && d.blue <= bag.blue
  }

  /** The `all` over the draws. */
  function AllWithin(draws: seq<DrawnCubes>, bag: DrawnCubes): (r: bool)
    ensures r <==> forall i :: 0 <= i < |draws| ==> Within(draws[i], bag)
    decreases |draws|
  {
    if draws == [] then true
    else
      assert forall i :: 1 <= i < |draws| ==> draws[i] == draws[1..][i - 1];
      Within(draws[0], bag) && AllWithin(draws[1..], bag)
  }

  /** `is_game_possible`: the bag holds enough cubes of each colour for every draw. */
  predicate IsGamePossible(g: Game, bag: DrawnCubes)
  {
    AllWithin(g.draws, bag)
  }

  function Max(a: nat, b: nat): nat
  {
    if a < b then b else a
  }

  /** One step of the fold in `get_minimum_draw`: the componentwise maximum. */
  function Widen(acc: DrawnCubes, d: DrawnCubes): DrawnCubes
  {
    DrawnCubes(Max(acc.red, d.red), Max(acc.green, d.green), Max(acc.blue, d.blue))
  }

  /** Colour c of m is 0 or the amount of some draw. */
  predicate Attained(m: DrawnCubes, draws: seq<DrawnCubes>, c: Colour)
  {
    Amount(m, c) == 0 || exists i :: 0 <= i < |draws| && Amount(draws[i], c) == Amount(m, c)
  }

  /**
   * `get_minimum_draw`: the fold from the all-zero handful. The result covers
   * every draw, and each of its colours is 0 or taken from a draw.
   */
  function MinimumDraw(draws: seq<DrawnCubes>): (r: DrawnCubes)
    ensures forall i :: 0 <= i < |draws| ==> Within(draws[i], r)
    ensures forall c :: Attained(r, draws, c)
    decreases |draws|
  {
    if draws == [] then DrawnCubes(0, 0, 0)
    else
      var init := draws[..|draws| - 1];
      var last := draws[|draws| - 1];
      var m := MinimumDraw(init);
      var r := Widen(m, last);
      assert forall i :: 0 <= i < |init| ==> draws[i] == init[i];
      assert forall c :: Attained(r, draws, c) by {
        forall c ensures Attained(r, draws, c) {
          assert Attained(m, init, c);
          if Amount(r, c) != Amount(last, c) {
            assert Amount(r, c) == Amount(m, c);
          }
        }
      }
      r
  }

  /** The minimum draw fits in every bag that fits every draw: it is the least such bag. */
  lemma MinimumIsLeast(draws: seq<DrawnCubes>, bag: DrawnCubes)
    requires forall i :: 0 <= i < |draws| ==> Within(draws[i], bag)
    ensures Within(MinimumDraw(draws), bag)
  {
    var m := MinimumDraw(draws);
    assert Attained(m, draws, Red) && Attained(m, draws, Green) && Attained(m, draws, Blue);
  }

  /** A game is possible with a bag exactly when its minimum draw fits in the bag. */
  lemma PossibleIffMinimumFits(g: Game, bag: DrawnCubes)
    ensures IsGamePossible(g, bag) <==> Within(MinimumDraw(g.draws), bag)
  {
    if IsGamePossible(g, bag) {
      MinimumIsLeast(g.draws, bag);
    }
  }

  /** Every game is possible with its own minimum draw. */
  lemma PossibleWithMinimum(g: Game)
    ensures IsGamePossible(g, MinimumDraw(g.draws))
  {
  }

  // ---------------------------------------------------------------------------
  // Parts 1 and 2

  /** The bag of part 1. */
  const Bag := DrawnCubes(12, 13, 14)

  /** The sum of the ids of the games possible with the bag. */
  function SumPossibleIds(games: seq<Game>, bag: DrawnCubes): nat
  {
    if games == [] then 0
    else (if IsGamePossible(games[0], bag) then games[0].id else 0) + SumPossibleIds(games[1..], bag)
  }

  /** The power of a handful: the product of its three amounts. */
  function Power(d: DrawnCubes): nat
  {
    d.red * d.green * d.blue
  }

  function SumPowers(games: seq<Game>): nat
  {
    if games == [] then 0 else Power(MinimumDraw(games[0].draws)) + SumPowers(games[1..])
  }

  /** `part1`. */
  function Part1(lines: seq<string>): Result<nat, Error>
  {
    var games :- TryCollect(lines, ParseGame);
    Ok(SumPossibleIds(games, Bag))
  }

  /** `part2`. */
  function Part2(lines: seq<string>): Result<nat, Error>
  {
    var games :- TryCollect(lines, ParseGame);
    Ok(SumPowers(games))
  }

  /** Adding games to the list adds their sums (the `sum` is a fold over the list). */
  lemma {:induction false} SumPossibleIdsAppend(a: seq<Game>, b: seq<Game>, bag: DrawnCubes)
    ensures SumPossibleIds(a + b, bag) == SumPossibleIds(a, bag) + SumPossibleIds(b, bag)
  {
    if a == [] {
      assert a + b == b;
    } else {
      assert (a + b)[1..] == a[1..] + b;
      SumPossibleIdsAppend(a[1..], b, bag);
    }
  }

  // ---------------------------------------------------------------------------
  // The example

  /** The five example games. */
  const ExampleGames: seq<Game> := [
    Game(1, [DrawnCubes(4, 0, 3), DrawnCubes(1, 2, 6), DrawnCubes(0, 2, 0)]),
    Game(2, [DrawnCubes(0, 2, 1), DrawnCubes(1, 3, 4), DrawnCubes(0, 1, 1)]),
    Game(3, [DrawnCubes(20, 8, 6), DrawnCubes(4, 13, 5), DrawnCubes(1, 5, 0)]),
    Game(4, [DrawnCubes(3, 1, 6), DrawnCubes(6, 3, 0), DrawnCubes(14, 3, 15)]),
    Game(5, [DrawnCubes(6, 3, 1), DrawnCubes(1, 2, 2)])]

  lemma ShowTwoParts(a: (Colour, nat), b: (Colour, nat))
    ensures ShowParts([a, b]) == ShowPart(a.0, a.1) + ", " + ShowPart(b.0, b.1)
  {
    var p := [a, b];
    var texts := seq(|p|, i requires 0 <= i < |p| => ShowPart(p[i].0, p[i].1));
    assert texts == [ShowPart(a.0, a.1), ShowPart(b.0, b.1)];
    assert texts[1..] == [ShowPart(b.0, b.1)];
    assert Join(texts[1..], ", ") == ShowPart(b.0, b.1);
  }

  lemma ShowPartsCons(a: (Colour, nat), rest: seq<(Colour, nat)>)
    requires |rest| > 0
    ensures ShowParts([a] + rest) == ShowPart(a.0, a.1) + ", " + ShowParts(rest)
  {
    var p := [a] + rest;
    var texts := seq(|p|, i requires 0 <= i < |p| => ShowPart(p[i].0, p[i].1));
    assert texts[1..] == seq(|rest|, i requires 0 <= i < |rest| => ShowPart(rest[i].0, rest[i].1));
  }

  /** The parts of the parsing test, one at a time. */
  lemma TestPartTexts()
    ensures ShowPart(Blue, 3) == "3 blue" && ShowPart(Red, 4) == "4 red"
    ensures ShowPart(Red, 1) == "1 red" && ShowPart(Green, 2) == "2 green" && ShowPart(Blue, 6) == "6 blue"
  {
  }

  /** The parts of the parsing test's three draws, in the order its line names them. */
  const TestParts: seq<seq<(Colour, nat)>> := [[(Blue, 3), (Red, 4)], [(Red, 1), (Green, 2), (Blue, 6)], [(Green, 2)]]

  lemma TestDraw0Text()
    ensures ShowParts(TestParts[0]) == "3 blue, 4 red"
  {
    ShowTwoParts((Blue, 3), (Red, 4));
    TestPartTexts();
  }

  lemma TestDraw1Text()
    ensures ShowParts(TestParts[1]) == "1 red, 2 green, 6 blue"
  {
    assert TestParts[1] == [(Red, 1)] + [(Green, 2), (Blue, 6)];
    ShowPartsCons((Red, 1), [(Green, 2), (Blue, 6)]);
    ShowTwoParts((Green, 2), (Blue, 6));
    TestPartTexts();
  }

  lemma TestDraw2Text()
    ensures ShowParts(TestParts[2]) == "2 green"
  {
    TestPartTexts();
  }

  /** The line of the parsing test, written as its head and its three draws. */
  const TestLine: string := "Game 1: " + "3 blue, 4 red" + "; " + "1 red, 2 green, 6 blue" + "; " + "2 green"

  lemma TestLineText()
    ensures TestLine == GameLine("1", TestParts)
  {
    var texts := seq(|TestParts|, i requires 0 <= i < |TestParts| => ShowParts(TestParts[i]));
    TestDraw0Text();
    TestDraw1Text();
    TestDraw2Text();
    assert texts == ["3 blue, 4 red", "1 red, 2 green, 6 blue", "2 green"];
    assert texts[1..][1..] == [texts[2]];
    assert Join(texts[1..], "; ") == texts[1] + "; " + texts[2];
    assert Join(texts, "; ") == texts[0] + "; " + (texts[1] + "; " + texts[2]);
    assert "Game 1: " == "Game " + "1" + ": ";
  }

  lemma TestHandfuls()
    ensures seq(|TestParts|, i requires 0 <= i < |TestParts| => PartsDraw(TestParts[i])) == ExampleGames[0].draws
  {
    assert PartsDraw(TestParts[0]) == DrawnCubes(4, 0, 3);
    assert PartsDraw(TestParts[1]) == DrawnCubes(1, 2, 6);
    assert PartsDraw(TestParts[2]) == DrawnCubes(0, 2, 0);
  }

  /** The parsing test: the line parses to the first example game, colours it leaves out at 0. */
  lemma ExampleParseGame()
    ensures ParseGame(TestLine) == Ok(ExampleGames[0])
  {
    TestLineText();
    ParseGameLine("1", 1, TestParts);
    TestHandfuls();
  }

  /** Games 1, 2 and 5 are possible with the bag: their ids sum to 8. */
  lemma ExamplePart1()
    ensures SumPossibleIds(ExampleGames, Bag) == 8
  {
    var gs := ExampleGames;
    assert !Within(gs[2].draws[0], Bag);
    assert !Within(gs[3].draws[2], Bag);
  }

  /** The fold over one draw. */
  lemma MinimumOfOne(a: DrawnCubes)
    ensures MinimumDraw([a]) == Widen(DrawnCubes(0, 0, 0), a)
  {
    assert [a][..0] == [];
  }

  /** The fold over two draws. */
  lemma MinimumOfTwo(a: DrawnCubes, b: DrawnCubes)
    ensures MinimumDraw([a, b]) == Widen(Widen(DrawnCubes(0, 0, 0), a), b)
  {
    assert [a, b][..1] == [a];
    MinimumOfOne(a);
  }

  /** The fold over three draws. */
  lemma MinimumOfThree(a: DrawnCubes, b: DrawnCubes, c: DrawnCubes)
    ensures MinimumDraw([a, b, c]) == Widen(Widen(Widen(DrawnCubes(0, 0, 0), a), b), c)
  {
    assert [a, b, c][..2] == [a, b];
    MinimumOfTwo(a, b);
  }

  /** The minimum draws have powers 48, 12, 1560, 630 and 36, which sum to 2286. */
  lemma ExamplePart2()
    ensures SumPowers(ExampleGames) == 2286
  {
    var gs := ExampleGames;
    MinimumOfThree(DrawnCubes(4, 0, 3), DrawnCubes(1, 2, 6), DrawnCubes(0, 2, 0));
    MinimumOfThree(DrawnCubes(0, 2, 1), DrawnCubes(1, 3, 4), DrawnCubes(0, 1, 1));
    MinimumOfThree(DrawnCubes(20, 8, 6), DrawnCubes(4, 13, 5), DrawnCubes(1, 5, 0));
    MinimumOfThree(DrawnCubes(3, 1, 6), DrawnCubes(6, 3, 0), DrawnCubes(14, 3, 15));
    MinimumOfTwo(DrawnCubes(6, 3, 1), DrawnCubes(1, 2, 2));
  }
}
