/**
 * Day 6: boat races. Holding the button for `held` milliseconds gives a speed
 * of `held` for the rest of the race; a race is won by beating the distance
 * record. Part 1 multiplies the numbers of winning hold times of the races
 * of a two-line table; part 2 reads each line as one number, ignoring the
 * spaces between its columns.
 */
module Day06 {
  import opened Results
  import opened Text

  datatype Error = ParseIntError | InvalidRaces

  datatype Race = Race(timeAllowed: nat, distanceRecord: nat)

  // ---------------------------------------------------------------------------
  // Distances and ways to win

  /** `get_distance_for_time_holding_button`: speed times the time left, which saturates at 0. */
  function Distance(race: Race, held: nat): (r: nat)
    ensures held >= race.timeAllowed ==> r == 0
    ensures held < race.timeAllowed ==> r == held * (race.timeAllowed - held)
  {
    var time := if race.timeAllowed >= held then race.timeAllowed - held else 0;
    held * time
  }

  /** Holding for `held` or for the time left after it goes equally far. */
  lemma DistanceSymmetric(race: Race, held: nat)
    requires held <= race.timeAllowed
    ensures Distance(race, held) == Distance(race, race.timeAllowed - held)
  {
  }

  predicate Wins(race: Race, held: nat)
  {
    Distance(race, held) > race.distanceRecord
  }

  /** The hold times in `[1, timeAllowed)` that beat the record. */
  function WinningHolds(race: Race): set<nat>
  {
    set held: nat | 1 <= held < race.timeAllowed && Wins(race, held)
  }

  /** The number of winning hold times in `[1, n)`. */
  function CountWins(race: Race, n: nat): (r: nat)
    ensures r <= n
    decreases n
  {
    if n <= 1 then 0 else CountWins(race, n - 1) + (if Wins(race, n - 1) then 1 else 0)
  }

  /** The count is the size of the set of winning hold times below `n`. */
  lemma {:induction false} CountWinsIsSize(race: Race, n: nat)
    ensures CountWins(race, n) == |set held: nat | 1 <= held < n && Wins(race, held)|
    decreases n
  {
    var below := set held: nat | 1 <= held < n && Wins(race, held);
    if n <= 1 {
      assert below == {};
    } else {
      var m := n - 1;
      CountWinsIsSize(race, m);
      var fewer := set held: nat | 1 <= held < m && Wins(race, held);
      if Wins(race, m) {
        assert below == fewer + {m};
      } else {
        assert below == fewer;
      }
    }
  }

  /** `get_number_of_ways_to_win`: how many hold times in `[1, timeAllowed)` beat the record. */
  function WaysToWin(race: Race): (r: nat)
    ensures r == |WinningHolds(race)|
  {
    CountWinsIsSize(race, race.timeAllowed);
    CountWins(race, race.timeAllowed)
  }

  /** `x * (t - x) - y * (t - y) == (x - y) * (t - x - y)`. */
  lemma DistanceDifference(t: int, x: int, y: int)
    ensures x * (t - x) - y * (t - y) == (x - y) * (t - x - y)
  {
  }

  lemma ProductNonNegative(x: int, y: int)
    requires x >= 0 && y >= 0
    ensures x * y >= 0
  {
  }

  /** A winning hold time is strictly inside the race. */
  lemma WinsInside(race: Race, held: nat)
    requires Wins(race, held)
    ensures 0 < held < race.timeAllowed
  {
  }

  /** The winning hold times have no gaps: between two winning times every time wins. */
  lemma WinsContiguous(race: Race, a: nat, k: nat, b: nat)
    requires a <= k <= b && Wins(race, a) && Wins(race, b)
    ensures Wins(race, k)
  {
    var t := race.timeAllowed;
    WinsInside(race, a);
    WinsInside(race, b);
    DistanceDifference(t, k, a);
    DistanceDifference(t, b, k);
    if k + a <= t {
      ProductNonNegative(k - a, t - k - a);
    } else {
      ProductNonNegative(b - k, k + b - t);
    }
  }

  /** Counting below `n` the hold times that win exactly inside `[lo, hi]`. */
  lemma {:induction false} CountWinsInterval(race: Race, lo: nat, hi: nat, n: nat)
    requires 1 <= lo <= hi
    requires forall held: nat :: 1 <= held < n ==> (Wins(race, held) <==> lo <= held <= hi)
    ensures CountWins(race, n) == if n <= lo then 0 else if n <= hi + 1 then n - lo else hi - lo + 1
    decreases n
  {
    if n > 1 {
      var m := n - 1;
      CountWinsInterval(race, lo, hi, m);
    }
  }

  /**
   * When `lo` and `hi` win and their outer neighbours do not, the winning
   * hold times are exactly `[lo, hi]`.
   */
  lemma WaysToWinInterval(race: Race, lo: nat, hi: nat)
    requires 1 <= lo <= hi
    requires Wins(race, lo) && Wins(race, hi) && !Wins(race, lo - 1) && !Wins(race, hi + 1)
    ensures forall held: nat :: Wins(race, held) <==> lo <= held <= hi
    ensures WaysToWin(race) == hi - lo + 1
  {
    forall held: nat ensures Wins(race, held) <==> lo <= held <= hi {
      if lo <= held <= hi {
        WinsContiguous(race, lo, held, hi);
      } else if held < lo && Wins(race, held) {
        WinsContiguous(race, held, lo - 1, hi);
      } else if held > hi && Wins(race, held) {
        WinsContiguous(race, lo, hi + 1, held);
      }
    }
    WinsInside(race, hi);
    CountWinsInterval(race, lo, hi, race.timeAllowed);
  }

  // ---------------------------------------------------------------------------
  // Parsing

  /**
   * The trimmed text split at runs of whitespace by a regular expression:
   * the words, or a single empty field when there are none.
   */
  function Fields(text: string): (r: seq<string>)
    ensures |r| > 0
    ensures Words(text) != [] ==> r == Words(text)
  {
    var words := Words(text);
    if words == [] then [""] else words
  }

  function NumberOf(field: string): (r: Result<nat, Error>)
    ensures r.Ok? <==> ParseNat(field).Some?
    ensures r.Ok? ==> ParseNat(field) == Some(r.value)
    ensures r.Err? ==> r.error == ParseIntError
  {
    match ParseNat(field)
    case Some(n) => Ok(n)
    case None => Err(ParseIntError)
  }

  /** The numbers of one line after its label. */
  function ParseNumbers(text: string): (r: Result<seq<nat>, Error>)
    ensures r.Err? ==> r == Err(ParseIntError)
  {
    TryCollect(Fields(text), NumberOf)
  }

  /** `zip`: races pair times and records by position, and the longer list's extra entries are dropped. */
  function Zip(times: seq<nat>, records: seq<nat>): (r: seq<Race>)
    ensures |r| == if |times| <= |records| then |times| else |records|
    ensures forall i :: 0 <= i < |r| ==> r[i] == Race(times[i], records[i])
  {
    var n := if |times| <= |records| then |times| else |records|;
    seq(n, i requires 0 <= i < n => Race(times[i], records[i]))
  }

  /** `Races::try_from`: a `Time:` line and a `Distance:` line of numbers. */
  function ParseRaces(lines: seq<string>): (r: Result<seq<Race>, Error>)
    ensures |lines| != 2 ==> r == Err(InvalidRaces)
    ensures |lines| == 2 && !StartsWith(lines[0], "Time:") ==> r == Err(InvalidRaces)
    ensures |lines| == 2 && StartsWith(lines[0], "Time:") && ParseNumbers(lines[0][5..]).Err? ==>
      r == Err(ParseIntError)
    ensures (|lines| == 2 && StartsWith(lines[0], "Time:") && ParseNumbers(lines[0][5..]).Ok?
      && !StartsWith(lines[1], "Distance:")) ==> r == Err(InvalidRaces)
    ensures (|lines| == 2 && StartsWith(lines[0], "Time:") && ParseNumbers(lines[0][5..]).Ok?
      && StartsWith(lines[1], "Distance:") && ParseNumbers(lines[1][9..]).Err?) ==> r == Err(ParseIntError)
    ensures r.Ok? <==> (|lines| == 2 && StartsWith(lines[0], "Time:") && StartsWith(lines[1], "Distance:")
      && ParseNumbers(lines[0][5..]).Ok? && ParseNumbers(lines[1][9..]).Ok?)
    ensures r.Ok? ==> r.value == Zip(ParseNumbers(lines[0][5..]).value, ParseNumbers(lines[1][9..]).value)
  {
    if |lines| != 2 then Err(InvalidRaces)
    else match StripPrefix(lines[0], "Time:")
      case None => Err(InvalidRaces)
      case Some(timeText) =>
        var times :- ParseNumbers(timeText);
        match StripPrefix(lines[1], "Distance:")
        case None => Err(InvalidRaces)
        case Some(distanceText) =>
          var records :- ParseNumbers(distanceText);
          Ok(Zip(times, records))
  }

  /** `parse_race_2`: the same two lines, each read as one number once its spaces are removed. */
  function ParseRace2(lines: seq<string>): (r: Result<Race, Error>)
    ensures |lines| != 2 ==> r == Err(InvalidRaces)
    ensures |lines| == 2 && (!StartsWith(lines[0], "Time:") || !StartsWith(lines[1], "Distance:")) ==>
      r == Err(InvalidRaces)
    ensures r.Ok? ==> ParseNat(Remove(lines[0][5..], ' ')) == Some(r.value.timeAllowed)
    ensures r.Ok? ==> ParseNat(Remove(lines[1][9..], ' ')) == Some(r.value.distanceRecord)
  {
    if |lines| != 2 then Err(InvalidRaces)
    else match (StripPrefix(lines[0], "Time:"), StripPrefix(lines[1], "Distance:"))
      case (Some(timeText), Some(distanceText)) =>
        var time :- NumberOf(Remove(timeText, ' '));
        var distance :- NumberOf(Remove(distanceText, ' '));
        Ok(Race(time, distance))
      case _ => Err(InvalidRaces)
  }

  // ---------------------------------------------------------------------------
  // Parts

  /** The product of the numbers of ways to win; 1 for no races. */
  function ProductOfWays(races: seq<Race>): (r: nat)
    ensures r == 0 <==> exists i :: 0 <= i < |races| && WaysToWin(races[i]) == 0
    decreases |races|
  {
    if races == [] then 1
    else
      var rest := ProductOfWays(races[1..]);
      assert forall i :: 0 <= i < |races| - 1 ==> races[1..][i] == races[i + 1];
      assert rest == 0 ==> exists i :: 0 <= i < |races[1..]| && WaysToWin(races[1..][i]) == 0;
      WaysToWin(races[0]) * rest
  }

  /** `part1`. */
  function Part1(lines: seq<string>): (r: Result<nat, Error>)
    ensures ParseRaces(lines).Err? ==> r == Err(ParseRaces(lines).error)
    ensures ParseRaces(lines).Ok? ==> r == Ok(ProductOfWays(ParseRaces(lines).value))
  {
    var races :- ParseRaces(lines);
    Ok(ProductOfWays(races))
  }

  /** `part2`. */
  function Part2(lines: seq<string>): (r: Result<nat, Error>)
    ensures ParseRace2(lines).Err? ==> r == Err(ParseRace2(lines).error)
    ensures ParseRace2(lines).Ok? ==> r == Ok(WaysToWin(ParseRace2(lines).value))
  {
    var race :- ParseRace2(lines);
    Ok(WaysToWin(race))
  }

  // ---------------------------------------------------------------------------
  // Printing a table of races, and reading it back

  /** Each number preceded by one space. */
  function Columns(ns: seq<nat>): (r: string)
    ensures ns != [] ==> |r| > 0 && r[0] == ' '
    decreases |ns|
  {
    if ns == [] then "" else " " + ShowNat(ns[0]) + Columns(ns[1..])
  }

  /** The decimal renderings of the numbers. */
  function Shown(ns: seq<nat>): (r: seq<string>)
    ensures |r| == |ns| && forall i :: 0 <= i < |ns| ==> r[i] == ShowNat(ns[i])
  {
    seq(|ns|, i requires 0 <= i < |ns| => ShowNat(ns[i]))
  }

  /** The renderings of the numbers, written one after another. */
  function Digits(ns: seq<nat>): (r: string)
    ensures AllDigits(r)
    ensures ns != [] ==> |r| > 0
    decreases |ns|
  {
    if ns == [] then ""
    else
      var r := ShowNat(ns[0]) + Digits(ns[1..]);
      assert forall i :: 0 <= i < |ShowNat(ns[0])| ==> r[i] == ShowNat(ns[0])[i];
      assert forall i :: |ShowNat(ns[0])| <= i < |r| ==> r[i] == Digits(ns[1..])[i - |ShowNat(ns[0])|];
      r
  }

  function Times(races: seq<Race>): (r: seq<nat>)
    ensures |r| == |races| && forall i :: 0 <= i < |races| ==> r[i] == races[i].timeAllowed
  {
    seq(|races|, i requires 0 <= i < |races| => races[i].timeAllowed)
  }

  function Records(races: seq<Race>): (r: seq<nat>)
    ensures |r| == |races| && forall i :: 0 <= i < |races| ==> r[i] == races[i].distanceRecord
  {
    seq(|races|, i requires 0 <= i < |races| => races[i].distanceRecord)
  }

  /** The two lines of a table of races. */
  function ShowRaces(races: seq<Race>): (r: seq<string>)
    ensures |r| == 2
  {
    ["Time:" + Columns(Times(races)), "Distance:" + Columns(Records(races))]
  }

  lemma DigitsHaveNoSpace(s: string)
    requires AllDigits(s)
    ensures NoSpace(s) && Avoids(s, ' ')
  {
  }

  /** Splitting the columns at whitespace gives back the numbers' renderings. */
  lemma {:induction false} WordsOfColumns(ns: seq<nat>)
    ensures Words(Columns(ns)) == Shown(ns)
    decreases |ns|
  {
    if ns != [] {
      var w := ShowNat(ns[0]);
      var rest := Columns(ns[1..]);
      var line := " " + w + rest;
      assert line[0] == ' ' && line[1..] == w + rest;
      DigitsHaveNoSpace(w);
      WordsOfWordThen(w, rest);
      WordsOfColumns(ns[1..]);
      assert Shown(ns) == [w] + Shown(ns[1..]);
    }
  }

  /** A non-empty list of numbers is read back from its columns. */
  lemma ParseNumbersColumns(ns: seq<nat>)
    requires ns != []
    ensures ParseNumbers(Columns(ns)) == Ok(ns)
  {
    WordsOfColumns(ns);
    var fields := Fields(Columns(ns));
    assert fields == Shown(ns);
    forall i | 0 <= i < |ns| ensures NumberOf(fields[i]) == Ok(ns[i]) {
      ParseNatShowNat(ns[i]);
    }
    var r := ParseNumbers(Columns(ns));
    assert r.Ok? && r.value == ns;
  }

  lemma StripLabel(name: string, text: string)
    ensures StripPrefix(name + text, name) == Some(text)
  {
    assert (name + text)[..|name|] == name;
    assert (name + text)[|name|..] == text;
  }

  /** A printed table of at least one race parses back to the same races. */
  lemma ParseRacesShowRaces(races: seq<Race>)
    requires races != []
    ensures ParseRaces(ShowRaces(races)) == Ok(races)
  {
    var lines := ShowRaces(races);
    StripLabel("Time:", Columns(Times(races)));
    StripLabel("Distance:", Columns(Records(races)));
    ParseNumbersColumns(Times(races));
    ParseNumbersColumns(Records(races));
    assert Zip(Times(races), Records(races)) == races;
  }

  /** A table without races does not parse: its empty field is not a number. */
  lemma ParseRacesNoRaces()
    ensures ParseRaces(ShowRaces([])) == Err(ParseIntError)
  {
    StripLabel("Time:", "");
    assert Fields("") == [""];
  }

  /** Removing the spaces from the columns leaves their digits side by side. */
  lemma {:induction false} RemoveSpacesOfColumns(ns: seq<nat>)
    ensures Remove(Columns(ns), ' ') == Digits(ns)
    decreases |ns|
  {
    if ns != [] {
      var w := ShowNat(ns[0]);
      var rest := Columns(ns[1..]);
      assert Columns(ns) == " " + (w + rest);
      RemoveAppend(" ", w + rest, ' ');
      RemoveAppend(w, rest, ' ');
      assert Remove(" ", ' ') == [];
      DigitsHaveNoSpace(w);
      RemoveSpacesOfColumns(ns[1..]);
    }
  }

  /** Part 2 reads a printed table as one race whose numbers are the columns' digits run together. */
  lemma ParseRace2ShowRaces(races: seq<Race>)
    requires races != []
    ensures ParseRace2(ShowRaces(races)) == Ok(Race(DigitsValue(Digits(Times(races))), DigitsValue(Digits(Records(races)))))
  {
    StripLabel("Time:", Columns(Times(races)));
    StripLabel("Distance:", Columns(Records(races)));
    RemoveSpacesOfColumns(Times(races));
    RemoveSpacesOfColumns(Records(races));
  }

  // ---------------------------------------------------------------------------
  // The example of the puzzle

  /** The example's columns after the labels `Time:` and `Distance:`. */
  const ExampleTimes: string := "      7  15   30"
  const ExampleRecords: string := "  9  40  200"

  const ExampleLines: seq<string> := ["Time:" + ExampleTimes, "Distance:" + ExampleRecords]

  const ExampleRaces: seq<Race> := [Race(7, 9), Race(15, 40), Race(30, 200)]

  predicate AllSpaces(s: string)
  {
    |s| > 0 && forall i :: 0 <= i < |s| ==> s[i] == ' '
  }

  /** Leading whitespace does not change the words. */
  lemma {:induction false} WordsAfterSpaces(spaces: string, rest: string)
    requires forall i :: 0 <= i < |spaces| ==> IsSpace(spaces[i])
    ensures Words(spaces + rest) == Words(rest)
    decreases |spaces|
  {
    var s := spaces + rest;
    if spaces == [] {
      assert s == rest;
    } else {
      assert s[0] == spaces[0] && s[1..] == spaces[1..] + rest;
      WordsAfterSpaces(spaces[1..], rest);
    }
  }

  /** Removing spaces from a run of spaces leaves nothing. */
  lemma {:induction false} RemoveSpaces(spaces: string)
    requires forall i :: 0 <= i < |spaces| ==> spaces[i] == ' '
    ensures Remove(spaces, ' ') == []
    decreases |spaces|
  {
    if spaces != [] {
      RemoveSpaces(spaces[1..]);
    }
  }

  /** A run of spaces, a number, then whitespace or the end of the line: the number is the next word. */
  lemma WordsOfSpacedNumber(spaces: string, n: nat, rest: string)
    requires AllSpaces(spaces) && (rest == [] || IsSpace(rest[0]))
    ensures Words(spaces + (ShowNat(n) + rest)) == [ShowNat(n)] + Words(rest)
  {
    DigitsHaveNoSpace(ShowNat(n));
    WordsOfWordThen(ShowNat(n), rest);
    WordsAfterSpaces(spaces, ShowNat(n) + rest);
  }

  /** Without its spaces, a run of spaces followed by a number is the number. */
  lemma RemoveOfSpacedNumber(spaces: string, n: nat, rest: string)
    requires AllSpaces(spaces)
    ensures Remove(spaces + (ShowNat(n) + rest), ' ') == ShowNat(n) + Remove(rest, ' ')
  {
    RemoveAppend(spaces, ShowNat(n) + rest, ' ');
    RemoveAppend(ShowNat(n), rest, ' ');
    RemoveSpaces(spaces);
    DigitsHaveNoSpace(ShowNat(n));
  }

  /** Three numbers, each after a run of spaces. */
  function SpacedThree(s1: string, x: nat, s2: string, y: nat, s3: string, z: nat): string
  {
    s1 + (ShowNat(x) + (s2 + (ShowNat(y) + (s3 + ShowNat(z)))))
  }

  /** Three numbers, each after a run of spaces, are read as those numbers. */
  lemma ParseThree(s1: string, x: nat, s2: string, y: nat, s3: string, z: nat)
    requires AllSpaces(s1) && AllSpaces(s2) && AllSpaces(s3)
    ensures ParseNumbers(SpacedThree(s1, x, s2, y, s3, z)) == Ok([x, y, z])
  {
    var text := SpacedThree(s1, x, s2, y, s3, z);
    assert ShowNat(z) + [] == ShowNat(z);
    WordsOfSpacedNumber(s3, z, []);
    WordsOfSpacedNumber(s2, y, s3 + ShowNat(z));
    WordsOfSpacedNumber(s1, x, s2 + (ShowNat(y) + (s3 + ShowNat(z))));
    ParseNatShowNat(x);
    ParseNatShowNat(y);
    ParseNatShowNat(z);
    var fields := Fields(text);
    assert fields == [ShowNat(x), ShowNat(y), ShowNat(z)];
    var r := ParseNumbers(text);
    assert r.Ok? && r.value == [x, y, z];
  }

  /** Without their spaces, three numbers run together. */
  lemma RemoveThree(s1: string, x: nat, s2: string, y: nat, s3: string, z: nat)
    requires AllSpaces(s1) && AllSpaces(s2) && AllSpaces(s3)
    ensures Remove(SpacedThree(s1, x, s2, y, s3, z), ' ') == ShowNat(x) + (ShowNat(y) + ShowNat(z))
  {
    RemoveOfSpacedNumber(s3, z, []);
    RemoveOfSpacedNumber(s2, y, s3 + ShowNat(z));
    RemoveOfSpacedNumber(s1, x, s2 + (ShowNat(y) + (s3 + ShowNat(z))));
    assert Remove([], ' ') == [];
    assert ShowNat(z) + [] == ShowNat(z);
  }

  /** Three digit strings run together have the value of their digits, shifted. */
  lemma ValueOfThree(a: string, b: string, c: string, x: nat, y: nat, z: nat)
    requires AllDigits(a) && AllDigits(b) && AllDigits(c)
    requires DigitsValue(a) == x && DigitsValue(b) == y && DigitsValue(c) == z
    ensures AllDigits(a + (b + c))
    ensures DigitsValue(a + (b + c)) == (x * Pow10(|b|) + y) * Pow10(|c|) + z
  {
    DigitsValueAppend(a, b);
    DigitsValueAppend(a + b, c);
    AppendAssociative(a, b, c);
  }

  lemma AppendAssociative(a: string, b: string, c: string)
    ensures a + (b + c) == (a + b) + c
  {
  }

  lemma ParseNatOfDigits(s: string)
    requires |s| > 0 && AllDigits(s)
    ensures ParseNat(s) == Some(DigitsValue(s))
  {
  }

  /** Reading the two lines once their labels are recognised. */
  lemma ParseRacesOf(timeText: string, recordText: string)
    ensures ParseRaces(["Time:" + timeText, "Distance:" + recordText]) ==
      match (ParseNumbers(timeText), ParseNumbers(recordText))
      case (Ok(times), Ok(records)) => Ok(Zip(times, records))
      case _ => Err(ParseIntError)
  {
    StripLabel("Time:", timeText);
    StripLabel("Distance:", recordText);
  }

  lemma ParseRace2Of(timeText: string, recordText: string)
    ensures ParseRace2(["Time:" + timeText, "Distance:" + recordText]) ==
      match (ParseNat(Remove(timeText, ' ')), ParseNat(Remove(recordText, ' ')))
      case (Some(time), Some(record)) => Ok(Race(time, record))
      case _ => Err(ParseIntError)
  {
    StripLabel("Time:", timeText);
    StripLabel("Distance:", recordText);
  }

  lemma ExampleTimesText()
    ensures ExampleTimes == SpacedThree("      ", 7, "  ", 15, "   ", 30)
  {
    assert ShowNat(15) == "15" && ShowNat(30) == "30";
  }

  lemma ExampleRecordsText()
    ensures ExampleRecords == SpacedThree("  ", 9, "  ", 40, "  ", 200)
  {
    assert ShowNat(40) == "40" && ShowNat(200) == "200";
  }

  lemma ExampleSpaces()
    ensures AllSpaces("  ") && AllSpaces("   ") && AllSpaces("      ")
  {
  }

  lemma ExampleTimesParse()
    ensures ParseNumbers(ExampleTimes) == Ok([7, 15, 30])
  {
    ExampleTimesText();
    ExampleSpaces();
    ParseThree("      ", 7, "  ", 15, "   ", 30);
  }

  lemma ExampleRecordsParse()
    ensures ParseNumbers(ExampleRecords) == Ok([9, 40, 200])
  {
    ExampleRecordsText();
    ExampleSpaces();
    ParseThree("  ", 9, "  ", 40, "  ", 200);
  }

  lemma ExampleZip()
    ensures Zip([7, 15, 30], [9, 40, 200]) == ExampleRaces
  {
  }

  /** `test_parse_races`. */
  lemma ExampleParses()
    ensures ParseRaces(ExampleLines) == Ok(ExampleRaces)
  {
    ParseRacesOf(ExampleTimes, ExampleRecords);
    ExampleTimesParse();
    ExampleRecordsParse();
    ExampleZip();
  }

  /** The ways to win each example race: 4, 8 and 9. */
  lemma ExampleWays()
    ensures WaysToWin(ExampleRaces[0]) == 4
    ensures WaysToWin(ExampleRaces[1]) == 8
    ensures WaysToWin(ExampleRaces[2]) == 9
  {
    WaysToWinInterval(Race(7, 9), 2, 5);
    WaysToWinInterval(Race(15, 40), 4, 11);
    WaysToWinInterval(Race(30, 200), 11, 19);
  }

  lemma ExampleProduct()
    ensures ProductOfWays(ExampleRaces) == 288
  {
    ExampleWays();
    var races := ExampleRaces;
    var tail := races[1..];
    var last := tail[1..];
    assert last == [races[2]] && last[1..] == [];
    assert ProductOfWays(last) == 9;
    assert tail == [races[1], races[2]];
    assert ProductOfWays(tail) == 8 * 9;
  }

  /** `test_part1`: 4 * 8 * 9. */
  lemma ExamplePart1()
    ensures Part1(ExampleLines) == Ok(288)
  {
    ExampleParses();
    ExampleProduct();
  }

  /** The renderings' lengths in the example, and the powers of ten they shift by. */
  lemma ExampleLengths()
    ensures |ShowNat(15)| == 2 && |ShowNat(30)| == 2 && |ShowNat(40)| == 2 && |ShowNat(200)| == 3
    ensures Pow10(2) == 100 && Pow10(3) == 1000
  {
    assert |ShowNat(20)| == 2;
  }

  /** Three numbers run together are read as one. */
  lemma ConcatenatedValue(x: nat, y: nat, z: nat, p: nat, q: nat)
    requires p == Pow10(|ShowNat(y)|) && q == Pow10(|ShowNat(z)|)
    ensures ParseNat(ShowNat(x) + (ShowNat(y) + ShowNat(z))) == Some((x * p + y) * q + z)
  {
    var a, b, c := ShowNat(x), ShowNat(y), ShowNat(z);
    DigitsValueOfShowNat(x);
    DigitsValueOfShowNat(y);
    DigitsValueOfShowNat(z);
    ValueOfThree(a, b, c, x, y, z);
    ParseNatOfDigits(a + (b + c));
  }

  lemma ExampleTimesRemoved()
    ensures Remove(ExampleTimes, ' ') == ShowNat(7) + (ShowNat(15) + ShowNat(30))
  {
    ExampleTimesText();
    ExampleSpaces();
    RemoveThree("      ", 7, "  ", 15, "   ", 30);
  }

  lemma ExampleRecordsRemoved()
    ensures Remove(ExampleRecords, ' ') == ShowNat(9) + (ShowNat(40) + ShowNat(200))
  {
    ExampleRecordsText();
    ExampleSpaces();
    RemoveThree("  ", 9, "  ", 40, "  ", 200);
  }

  lemma ConcatenatedTimes()
    ensures ParseNat(Remove(ExampleTimes, ' ')) == Some(71530)
  {
    ExampleTimesRemoved();
    ExampleLengths();
    ConcatenatedValue(7, 15, 30, 100, 100);
  }

  lemma ConcatenatedRecords()
    ensures ParseNat(Remove(ExampleRecords, ' ')) == Some(940200)
  {
    ExampleRecordsRemoved();
    ExampleLengths();
    ConcatenatedValue(9, 40, 200, 100, 1000);
  }

  /** The race of part 2 is won by holding from 14 to 71516 ms. */
  lemma LongRaceWays()
    ensures WaysToWin(Race(71530, 940200)) == 71503
  {
    var race := Race(71530, 940200);
    assert Distance(race, 13) == 929721;
    assert Distance(race, 14) == 1001224;
    DistanceSymmetric(race, 13);
    DistanceSymmetric(race, 14);
    WaysToWinInterval(race, 14, 71516);
  }

  /** `test_part2`: the example read as one race of 71530 ms with record 940200 mm is won 71503 ways. */
  lemma ExamplePart2()
    ensures ParseRace2(ExampleLines) == Ok(Race(71530, 940200))
    ensures Part2(ExampleLines) == Ok(71503)
  {
    ParseRace2Of(ExampleTimes, ExampleRecords);
    ConcatenatedTimes();
    ConcatenatedRecords();
    LongRaceWays();
  }
}
