/**
 * Day 1: calibration values. Each line yields the number made of its first
 * and its last digit; part 2 also counts digits spelled out in letters.
 * Digits are the ASCII digits.
 */
module Day01 {
  import opened Results
  import opened Text

  datatype Error = ParseIntError | NoDigits

  // ---------------------------------------------------------------------------
  // Part 1: digit characters

  /** The digit characters of a line, in order. */
  function DigitsOf(line: string): (r: string)
    ensures AllDigits(r)
    decreases |line|
  {
    if line == [] then []
    else (if IsDigit(line[0]) then [line[0]] else []) + DigitsOf(line[1..])
  }

  predicate NoDigit(line: string)
  {
    forall i :: 0 <= i < |line| ==> !IsDigit(line[i])
  }

  /** Position `i` holds the first digit of the line. */
  predicate FirstDigitAt(line: string, i: nat)
  {
    i < |line| && IsDigit(line[i]) && forall j :: 0 <= j < i ==> !IsDigit(line[j])
  }

  /** Position `i` holds the last digit of the line. */
  predicate LastDigitAt(line: string, i: nat)
  {
    i < |line| && IsDigit(line[i]) && forall j :: i < j < |line| ==> !IsDigit(line[j])
  }

  /** The first digit of the line, scanning from the left. */
  function FirstDigit(line: string): (r: Option<char>)
    ensures r.None? <==> NoDigit(line)
    ensures r.Some? ==> IsDigit(r.value)
    decreases |line|
  {
    if line == [] then None
    else if IsDigit(line[0]) then Some(line[0])
    else
      var tail := line[1..];
      assert forall j :: 1 <= j < |line| ==> line[j] == tail[j - 1];
      FirstDigit(tail)
  }

  /** The last digit of the line, scanning from the right. */
  function LastDigit(line: string): (r: Option<char>)
    ensures r.None? <==> NoDigit(line)
    ensures r.Some? ==> IsDigit(r.value)
    decreases |line|
  {
    if line == [] then None
    else if IsDigit(line[|line| - 1]) then Some(line[|line| - 1])
    else
      var front := line[..|line| - 1];
      assert forall j :: 0 <= j < |front| ==> line[j] == front[j];
      LastDigit(front)
  }

  /** The scan from the left stops at the first digit. */
  lemma {:induction false} FirstDigitAtIs(line: string, i: nat)
    requires FirstDigitAt(line, i)
    ensures FirstDigit(line) == Some(line[i])
    decreases i
  {
    if i > 0 {
      var tail := line[1..];
      assert FirstDigitAt(tail, i - 1);
      FirstDigitAtIs(tail, i - 1);
    }
  }

  /** The scan from the right stops at the last digit. */
  lemma {:induction false} LastDigitAtIs(line: string, i: nat)
    requires LastDigitAt(line, i)
    ensures LastDigit(line) == Some(line[i])
    decreases |line|
  {
    if i < |line| - 1 {
      var front := line[..|line| - 1];
      assert LastDigitAt(front, i);
      LastDigitAtIs(front, i);
    }
  }

  lemma {:induction false} DigitsOfAppend(a: string, b: string)
    ensures DigitsOf(a + b) == DigitsOf(a) + DigitsOf(b)
    decreases |a|
  {
    if a == [] {
      assert a + b == b;
    } else {
      var s := a + b;
      assert s[0] == a[0] && s[1..] == a[1..] + b;
      DigitsOfAppend(a[1..], b);
    }
  }

  /** The filtered digits are empty exactly without digits, and start with the first digit. */
  lemma {:induction false} DigitsOfFirst(line: string)
    ensures DigitsOf(line) == [] <==> NoDigit(line)
    ensures DigitsOf(line) != [] ==> FirstDigit(line) == Some(DigitsOf(line)[0])
    decreases |line|
  {
    if line != [] {
      var tail := line[1..];
      DigitsOfFirst(tail);
      assert forall j :: 1 <= j < |line| ==> line[j] == tail[j - 1];
    }
  }

  /** The filtered digits end with the last digit. */
  lemma {:induction false} DigitsOfLast(line: string)
    requires !NoDigit(line)
    ensures DigitsOf(line) != [] && LastDigit(line) == Some(DigitsOf(line)[|DigitsOf(line)| - 1])
    decreases |line|
  {
    DigitsOfFirst(line);
    var n := |line| - 1;
    var front := line[..n];
    assert line == front + [line[n]];
    DigitsOfAppend(front, [line[n]]);
    assert [line[n]][1..] == [];
    if !IsDigit(line[n]) {
      assert DigitsOf(line) == DigitsOf(front);
      assert forall j :: 0 <= j < n ==> front[j] == line[j];
      DigitsOfLast(front);
    }
  }

  /** `get_first_and_last_digits`: the first and the last digit of the line, or `NoDigits`. */
  function FirstAndLastDigits(line: string): (r: Result<(char, char), Error>)
    ensures r.Err? <==> NoDigit(line)
    ensures r.Err? ==> r.error == NoDigits
    ensures r.Ok? ==> FirstDigit(line) == Some(r.value.0) && LastDigit(line) == Some(r.value.1)
  {
    var digits := DigitsOf(line);
    DigitsOfFirst(line);
    if digits == [] then Err(NoDigits)
    else
      DigitsOfLast(line);
      Ok((digits[0], digits[|digits| - 1]))
  }

  /** The first and last digit are the same character when the line holds a single digit. */
  lemma SingleDigit(line: string, i: nat)
    requires i < |line| && IsDigit(line[i])
    requires forall j :: 0 <= j < |line| && j != i ==> !IsDigit(line[j])
    ensures FirstAndLastDigits(line) == Ok((line[i], line[i]))
  {
    FirstDigitAtIs(line, i);
    LastDigitAtIs(line, i);
  }

  /** `get_number_from_digits`: the two characters read as a decimal number. */
  function NumberFromDigits(digits: (char, char)): (r: Result<nat, Error>)
    ensures IsDigit(digits.0) && IsDigit(digits.1) ==>
      r == Ok(10 * DigitValue(digits.0) + DigitValue(digits.1))
    ensures !IsDigit(digits.1) ==> r == Err(ParseIntError)
  {
    var text := [digits.0, digits.1];
    TwoDigits(digits.0, digits.1);
    match ParseNat(text)
    case None => Err(ParseIntError)
    case Some(n) => Ok(n)
  }

  lemma TwoDigits(a: char, b: char)
    ensures IsDigit(a) && IsDigit(b) ==> ParseNat([a, b]) == Some(10 * DigitValue(a) + DigitValue(b))
    ensures !IsDigit(b) ==> ParseNat([a, b]) == None
  {
    var text := [a, b];
    assert text[1..] == [b];
    assert text[..1] == [a];
    if IsDigit(a) && IsDigit(b) {
      assert DigitsValue(text) == 10 * DigitsValue([a]) + DigitValue(b);
      assert [a][..0] == [];
    }
  }

  /** The calibration value of a line: first and last digit, read together. */
  function CalibrationValue(line: string): (r: Result<nat, Error>)
    ensures r.Ok? <==> !NoDigit(line)
    ensures r.Err? ==> r.error == NoDigits
    ensures r.Ok? ==> r.value < 100
    ensures r.Ok? ==> r.value == 10 * DigitValue(FirstDigit(line).value) + DigitValue(LastDigit(line).value)
  {
    var digits :- FirstAndLastDigits(line);
    NumberFromDigits(digits)
  }

  /** `part1`. */
  function Part1(lines: seq<string>): (r: Result<nat, Error>)
    ensures r.Ok? <==> forall i :: 0 <= i < |lines| ==> !NoDigit(lines[i])
    ensures r.Ok? ==> r == Ok(Sum(TryCollect(lines, CalibrationValue).value))
    ensures r.Err? ==> r.error == NoDigits
  {
    var values :- TryCollect(lines, CalibrationValue);
    Ok(Sum(values))
  }

  // ---------------------------------------------------------------------------
  // Part 2: digits and spelled digits

  /** `DIGITS`: each pattern with the digit it stands for. */
  const Digits: seq<(string, char)> := [
    ("1", '1'), ("2", '2'), ("3", '3'), ("4", '4'), ("5", '5'),
    ("6", '6'), ("7", '7'), ("8", '8'), ("9", '9'),
    ("one", '1'), ("two", '2'), ("three", '3'), ("four", '4'), ("five", '5'),
    ("six", '6'), ("seven", '7'), ("eight", '8'), ("nine", '9')
  ]

  /** Some pattern of the table occurs at position `i`. */
  predicate PatternAt(table: seq<(string, char)>, line: string, i: nat)
  {
    exists k :: 0 <= k < |table| && OccursAt(line, table[k].0, i)
  }

  /**
   * The filter-map over the table: for each pattern `search` finds, its
   * position and its digit, in table order.
   */
  function Found(table: seq<(string, char)>, line: string, search: (string, string) -> Option<nat>): (r: seq<(nat, char)>)
    ensures forall q :: q in r ==>
      exists k :: 0 <= k < |table| && search(line, table[k].0) == Some(q.0) && table[k].1 == q.1
    ensures forall k :: 0 <= k < |table| && search(line, table[k].0).Some? ==>
      (search(line, table[k].0).value, table[k].1) in r
    decreases |table|
  {
    if table == [] then []
    else
      var rest := Found(table[1..], line, search);
      assert forall k :: 1 <= k < |table| ==> table[k] == table[1..][k - 1];
      match search(line, table[0].0)
      case None => rest
      case Some(i) => [(i, table[0].1)] + rest
  }

  /** Membership in a non-empty sequence: in its front or its last element. */
  lemma InFrontOrLast<T>(ps: seq<T>)
    requires ps != []
    ensures forall q :: q in ps <==> q in ps[..|ps| - 1] || q == ps[|ps| - 1]
  {
    assert ps == ps[..|ps| - 1] + [ps[|ps| - 1]];
  }

  /** `ps[i]` is `p`, and every element before it has a greater position. */
  predicate FirstOfLeast(ps: seq<(nat, char)>, i: nat, p: (nat, char))
  {
    i < |ps| && ps[i] == p && forall j :: 0 <= j < i ==> ps[j].0 > p.0
  }

  /** `ps[i]` is `p`, and every element after it has a smaller position. */
  predicate LastOfGreatest(ps: seq<(nat, char)>, i: nat, p: (nat, char))
  {
    i < |ps| && ps[i] == p && forall j :: i < j < |ps| ==> ps[j].0 < p.0
  }

  /** `min_by_key` on the position: the first of the least positions. */
  function MinByKey(ps: seq<(nat, char)>): (r: Option<(nat, char)>)
    ensures r.None? <==> ps == []
    ensures r.Some? ==> r.value in ps && forall q :: q in ps ==> r.value.0 <= q.0
    ensures r.Some? ==> exists i: nat :: FirstOfLeast(ps, i, r.value)
    decreases |ps|
  {
    if ps == [] then None
    else
      var n := |ps| - 1;
      var front := ps[..n];
      assert forall j :: 0 <= j < n ==> front[j] == ps[j];
      InFrontOrLast(ps);
      match MinByKey(front)
      case None =>
        assert FirstOfLeast(ps, n, ps[n]);
        Some(ps[n])
      case Some(m) =>
        var i: nat :| FirstOfLeast(front, i, m);
        assert FirstOfLeast(ps, i, m);
        if ps[n].0 < m.0 then
          assert FirstOfLeast(ps, n, ps[n]);
          Some(ps[n])
        else Some(m)
  }

  /** `max_by_key` on the position: the last of the greatest positions. */
  function MaxByKey(ps: seq<(nat, char)>): (r: Option<(nat, char)>)
    ensures r.None? <==> ps == []
    ensures r.Some? ==> r.value in ps && forall q :: q in ps ==> q.0 <= r.value.0
    ensures r.Some? ==> exists i: nat :: LastOfGreatest(ps, i, r.value)
    decreases |ps|
  {
    if ps == [] then None
    else
      var n := |ps| - 1;
      var front := ps[..n];
      assert forall j :: 0 <= j < n ==> front[j] == ps[j];
      InFrontOrLast(ps);
      assert LastOfGreatest(ps, n, ps[n]);
      match MaxByKey(front)
      case None => Some(ps[n])
      case Some(m) =>
        if ps[n].0 >= m.0 then Some(ps[n])
        else
          var i: nat :| LastOfGreatest(front, i, m);
          assert LastOfGreatest(ps, i, m);
          Some(m)
  }

  /** A pattern spelling `digit` occurs at `i`, and no pattern occurs before `i`. */
  ghost predicate SpelledFirst(table: seq<(string, char)>, line: string, i: nat, digit: char)
  {
    (exists k :: 0 <= k < |table| && OccursAt(line, table[k].0, i) && table[k].1 == digit)
    && forall j: nat :: j < i ==> !PatternAt(table, line, j)
  }

  /** A pattern spelling `digit` occurs at `i`, and no pattern occurs after `i`. */
  ghost predicate SpelledLast(table: seq<(string, char)>, line: string, i: nat, digit: char)
  {
    (exists k :: 0 <= k < |table| && OccursAt(line, table[k].0, i) && table[k].1 == digit)
    && forall j: nat :: i < j ==> !PatternAt(table, line, j)
  }

  /** No pattern occurs anywhere in the line. */
  ghost predicate NoPattern(table: seq<(string, char)>, line: string)
  {
    forall i: nat :: !PatternAt(table, line, i)
  }

  /**
   * `get_first_and_last_digits_2` over a table of patterns: the digit of the
   * pattern found leftmost and the digit of the pattern found rightmost.
   */
  function FirstAndLastPatterns(table: seq<(string, char)>, line: string): (r: Result<(char, char), Error>)
    ensures r.Err? <==> NoPattern(table, line)
    ensures r.Err? ==> r.error == NoDigits
    ensures r.Ok? ==> exists i: nat :: SpelledFirst(table, line, i, r.value.0)
    ensures r.Ok? ==> exists i: nat :: SpelledLast(table, line, i, r.value.1)
  {
    var firsts := Found(table, line, IndexOf);
    var lasts := Found(table, line, LastIndexOf);
    FirstFound(table, line);
    LastFound(table, line);
    match MinByKey(firsts)
    case None => Err(NoDigits)
    case Some(first) =>
      match MaxByKey(lasts)
      case None => Err(NoDigits)
      case Some(last) =>
        assert SpelledFirst(table, line, first.0, first.1);
        assert SpelledLast(table, line, last.0, last.1);
        Ok((first.1, last.1))
  }

  /** What the least `find` position stands for. */
  lemma FirstFound(table: seq<(string, char)>, line: string)
    ensures MinByKey(Found(table, line, IndexOf)).None? <==> NoPattern(table, line)
    ensures MinByKey(Found(table, line, IndexOf)).Some? ==>
      var first := MinByKey(Found(table, line, IndexOf)).value;
      SpelledFirst(table, line, first.0, first.1)
  {
    var firsts := Found(table, line, IndexOf);
    if firsts == [] {
      NoneFound(table, line, IndexOf);
    } else {
      SomeFound(table, line, IndexOf);
      LeftmostFound(table, line, MinByKey(firsts).value);
    }
  }

  /** What the greatest `rfind` position stands for. */
  lemma LastFound(table: seq<(string, char)>, line: string)
    ensures MaxByKey(Found(table, line, LastIndexOf)).None? <==> NoPattern(table, line)
    ensures MaxByKey(Found(table, line, LastIndexOf)).Some? ==>
      var last := MaxByKey(Found(table, line, LastIndexOf)).value;
      SpelledLast(table, line, last.0, last.1)
  {
    var lasts := Found(table, line, LastIndexOf);
    if lasts == [] {
      NoneFound(table, line, LastIndexOf);
    } else {
      SomeFound(table, line, LastIndexOf);
      RightmostFound(table, line, MaxByKey(lasts).value);
    }
  }

  lemma SomeFound(table: seq<(string, char)>, line: string, search: (string, string) -> Option<nat>)
    requires search == IndexOf || search == LastIndexOf
    requires Found(table, line, search) != []
    ensures !NoPattern(table, line)
  {
    var q := Found(table, line, search)[0];
    var k :| 0 <= k < |table| && search(line, table[k].0) == Some(q.0) && table[k].1 == q.1;
    assert PatternAt(table, line, q.0);
  }

  lemma NoneFound(table: seq<(string, char)>, line: string, search: (string, string) -> Option<nat>)
    requires search == IndexOf || search == LastIndexOf
    requires Found(table, line, search) == []
    ensures NoPattern(table, line)
  {
    forall i: nat, k | 0 <= k < |table|
      ensures !OccursAt(line, table[k].0, i)
    {
      assert search(line, table[k].0).None?;
    }
  }

  lemma LeftmostFound(table: seq<(string, char)>, line: string, first: (nat, char))
    requires MinByKey(Found(table, line, IndexOf)) == Some(first)
    ensures SpelledFirst(table, line, first.0, first.1)
  {
    var firsts := Found(table, line, IndexOf);
    forall j: nat, k | j < first.0 && 0 <= k < |table|
      ensures !OccursAt(line, table[k].0, j)
    {
      var found := IndexOf(line, table[k].0);
      if found.Some? {
        assert (found.value, table[k].1) in firsts;
      }
    }
  }

  lemma RightmostFound(table: seq<(string, char)>, line: string, last: (nat, char))
    requires MaxByKey(Found(table, line, LastIndexOf)) == Some(last)
    ensures SpelledLast(table, line, last.0, last.1)
  {
    var lasts := Found(table, line, LastIndexOf);
    forall j: nat, k | last.0 < j && 0 <= k < |table|
      ensures !OccursAt(line, table[k].0, j)
    {
      var found := LastIndexOf(line, table[k].0);
      if found.Some? {
        assert (found.value, table[k].1) in lasts;
      }
    }
  }

  /** `get_first_and_last_digits_2`. */
  function FirstAndLastDigits2(line: string): (r: Result<(char, char), Error>)
    ensures r.Err? <==> NoPattern(Digits, line)
    ensures r.Err? ==> r.error == NoDigits
    ensures r.Ok? ==> exists i: nat :: SpelledFirst(Digits, line, i, r.value.0)
    ensures r.Ok? ==> exists i: nat :: SpelledLast(Digits, line, i, r.value.1)
  {
    FirstAndLastPatterns(Digits, line)
  }

  /**
   * The digit a pattern of the table starting at `i` must spell, read from
   * the character at `i` and the next one: no pattern is a prefix of another,
   * so two characters decide.
   */
  function Lead(c: char, next: Option<char>): Option<char>
  {
    if '1' <= c <= '9' then Some(c)
    else if next.None? then None
    else
      var n := next.value;
      if c == 'o' && n == 'n' then Some('1')
      else if c == 't' && n == 'w' then Some('2')
      else if c == 't' && n == 'h' then Some('3')
      else if c == 'f' && n == 'o' then Some('4')
      else if c == 'f' && n == 'i' then Some('5')
      else if c == 's' && n == 'i' then Some('6')
      else if c == 's' && n == 'e' then Some('7')
      else if c == 'e' && n == 'i' then Some('8')
      else if c == 'n' && n == 'i' then Some('9')
      else None
  }

  function LeadAt(line: string, i: nat): Option<char>
    requires i < |line|
  {
    Lead(line[i], if i + 1 < |line| then Some(line[i + 1]) else None)
  }

  /** Every pattern occurring at `i` spells the digit the two characters at `i` announce. */
  lemma PatternSpells(line: string, i: nat, k: nat)
    requires k < |Digits| && OccursAt(line, Digits[k].0, i)
    ensures i < |line| && LeadAt(line, i) == Some(Digits[k].1)
  {
    var p := Digits[k].0;
    assert |p| >= 1;
    assert line[i] == line[i..i + |p|][0] == p[0];
    if |p| > 1 {
      assert line[i + 1] == line[i..i + |p|][1] == p[1];
    }
  }

  // ---------------------------------------------------------------------------
  // Calibration values of part 2

  function CalibrationValue2(line: string): (r: Result<nat, Error>)
    ensures r.Err? ==> r.error == NoDigits
    ensures r.Ok? ==> r.value < 100
  {
    var digits :- FirstAndLastDigits2(line);
    DigitsOfTable(digits.0);
    DigitsOfTable(digits.1);
    NumberFromDigits(digits)
  }

  lemma DigitsOfTable(c: char)
    requires exists k :: 0 <= k < |Digits| && Digits[k].1 == c
    ensures IsDigit(c)
  {
  }

  /** `part2`. */
  function Part2(lines: seq<string>): (r: Result<nat, Error>)
    ensures r.Ok? <==> TryCollect(lines, CalibrationValue2).Ok?
    ensures r.Ok? ==> r.value == Sum(TryCollect(lines, CalibrationValue2).value)
    ensures r.Err? ==> r.error == NoDigits
  {
    CollectErrors2(lines);
    var values :- TryCollect(lines, CalibrationValue2);
    Ok(Sum(values))
  }

  /** The only error collecting part 2 values can report. */
  lemma CollectErrors2(lines: seq<string>)
    ensures TryCollect(lines, CalibrationValue2).Err? ==> TryCollect(lines, CalibrationValue2).error == NoDigits
  {
    var collected := TryCollect(lines, CalibrationValue2);
    if collected.Err? {
      var i :| 0 <= i < |lines| && CalibrationValue2(lines[i]).Err? && collected == Err(CalibrationValue2(lines[i]).error);
    }
  }

  /** A line has a part 2 value exactly when some pattern occurs in it. */
  lemma CalibrationValue2Defined(line: string)
    ensures CalibrationValue2(line).Ok? <==> !NoPattern(Digits, line)
  {
    var digits := FirstAndLastDigits2(line);
    if digits.Ok? {
      DigitsOfTable(digits.value.0);
      DigitsOfTable(digits.value.1);
    }
  }

  /** Part 2 succeeds exactly when every line holds some pattern. */
  lemma Part2Defined(lines: seq<string>)
    ensures Part2(lines).Ok? <==> forall i :: 0 <= i < |lines| ==> !NoPattern(Digits, lines[i])
  {
    forall i | 0 <= i < |lines|
      ensures CalibrationValue2(lines[i]).Ok? <==> !NoPattern(Digits, lines[i])
    {
      CalibrationValue2Defined(lines[i]);
    }
  }

  // ---------------------------------------------------------------------------
  // The examples

  const Example1: seq<string> := ["1abc2", "pqr3stu8vwx", "a1b2c3d4e5f", "treb7uchet"]

  /** A line's value from the positions of its first and last digit. */
  lemma ValueOfPositions(line: string, i: nat, j: nat)
    requires FirstDigitAt(line, i) && LastDigitAt(line, j)
    ensures CalibrationValue(line) == Ok(10 * DigitValue(line[i]) + DigitValue(line[j]))
  {
    FirstDigitAtIs(line, i);
    LastDigitAtIs(line, j);
  }

  lemma Example1Line1()
    ensures CalibrationValue(Example1[0]) == Ok(12)
  {
    var line := "1abc2";
    assert FirstDigitAt(line, 0);
    assert LastDigitAt(line, 4);
    ValueOfPositions(line, 0, 4);
  }

  lemma Example1Line2()
    ensures CalibrationValue(Example1[1]) == Ok(38)
  {
    var line := "pqr3stu8vwx";
    assert FirstDigitAt(line, 3);
    assert LastDigitAt(line, 7);
    ValueOfPositions(line, 3, 7);
  }

  lemma Example1Line3()
    ensures CalibrationValue(Example1[2]) == Ok(15)
  {
    var line := "a1b2c3d4e5f";
    assert FirstDigitAt(line, 1);
    assert LastDigitAt(line, 9);
    ValueOfPositions(line, 1, 9);
  }

  lemma Example1Line4()
    ensures CalibrationValue(Example1[3]) == Ok(77)
  {
    var line := "treb7uchet";
    assert FirstDigitAt(line, 4);
    assert LastDigitAt(line, 4);
    ValueOfPositions(line, 4, 4);
  }

  /** Four lines with known values collect to those values. */
  lemma CollectFour(a: string, b: string, c: string, d: string, value: string -> Result<nat, Error>,
                  va: nat, vb: nat, vc: nat, vd: nat)
    requires value(a) == Ok(va) && value(b) == Ok(vb) && value(c) == Ok(vc) && value(d) == Ok(vd)
    ensures TryCollect([a, b, c, d], value) == Ok([va, vb, vc, vd])
  {
    var lines := [a, b, c, d];
    var values := [va, vb, vc, vd];
    forall i | 0 <= i < 4
      ensures value(lines[i]) == Ok(values[i])
    {
      if i == 0 {} else if i == 1 {} else if i == 2 {} else {}
    }
    TryCollectAllOk(lines, value, values);
  }

  lemma SumOfExample1()
    ensures Sum([12, 38, 15, 77]) == 142
  {
  }

  /** The first example: 12 + 38 + 15 + 77. */
  lemma ExamplePart1()
    ensures Part1(Example1) == Ok(142)
  {
    Example1Line1();
    Example1Line2();
    Example1Line3();
    Example1Line4();
    CollectFour(Example1[0], Example1[1], Example1[2], Example1[3], CalibrationValue, 12, 38, 15, 77);
    SumOfExample1();
  }

  /** No pattern can start anywhere in `[a, b)`, by the two characters at each position. */
  predicate NoLeadIn(line: string, a: nat, b: nat)
    requires b <= |line|
    decreases b - a
  {
    a >= b || (LeadAt(line, a).None? && NoLeadIn(line, a + 1, b))
  }

  lemma {:induction false} NoLeadNoPattern(line: string, a: nat, b: nat)
    requires b <= |line| && NoLeadIn(line, a, b)
    ensures forall j: nat :: a <= j < b ==> !PatternAt(Digits, line, j)
    decreases b - a
  {
    if a < b {
      NoLeadNoPattern(line, a + 1, b);
      forall k | 0 <= k < |Digits| && OccursAt(line, Digits[k].0, a)
        ensures false
      {
        PatternSpells(line, a, k);
      }
    }
  }

  /** Patterns are not empty, so none occurs at or past the end of the line. */
  lemma NoPatternPastEnd(line: string)
    ensures forall j: nat :: |line| <= j ==> !PatternAt(Digits, line, j)
  {
    forall j: nat, k | |line| <= j && 0 <= k < |Digits|
      ensures !OccursAt(line, Digits[k].0, j)
    {
      assert |Digits[k].0| >= 1;
    }
  }

  /** The numeral entries of the table. */
  lemma DigitsEntries()
    ensures |Digits| == 18
    ensures Digits[0] == ("1", '1')
    ensures Digits[1] == ("2", '2')
    ensures Digits[2] == ("3", '3')
    ensures Digits[3] == ("4", '4')
    ensures Digits[4] == ("5", '5')
    ensures Digits[5] == ("6", '6')
    ensures Digits[6] == ("7", '7')
    ensures Digits[7] == ("8", '8')
    ensures Digits[8] == ("9", '9')
  {
  }

  /** The spelled-out entries of the table. */
  lemma DigitsWords()
    ensures |Digits| == 18
    ensures Digits[9] == ("one", '1')
    ensures Digits[10] == ("two", '2')
    ensures Digits[11] == ("three", '3')
    ensures Digits[12] == ("four", '4')
    ensures Digits[13] == ("five", '5')
    ensures Digits[14] == ("six", '6')
    ensures Digits[15] == ("seven", '7')
    ensures Digits[16] == ("eight", '8')
    ensures Digits[17] == ("nine", '9')
  {
  }

  /** Two leftmost patterns spell the same digit. */
  lemma SpelledFirstUnique(line: string, i: nat, d: char, i': nat, d': char)
    requires SpelledFirst(Digits, line, i, d) && SpelledFirst(Digits, line, i', d')
    ensures d == d'
  {
    var k :| 0 <= k < |Digits| && OccursAt(line, Digits[k].0, i) && Digits[k].1 == d;
    var k' :| 0 <= k' < |Digits| && OccursAt(line, Digits[k'].0, i') && Digits[k'].1 == d';
    assert PatternAt(Digits, line, i);
    assert PatternAt(Digits, line, i');
    assert i == i';
    PatternSpells(line, i, k);
    PatternSpells(line, i, k');
  }

  /** Two rightmost patterns spell the same digit. */
  lemma SpelledLastUnique(line: string, i: nat, d: char, i': nat, d': char)
    requires SpelledLast(Digits, line, i, d) && SpelledLast(Digits, line, i', d')
    ensures d == d'
  {
    var k :| 0 <= k < |Digits| && OccursAt(line, Digits[k].0, i) && Digits[k].1 == d;
    var k' :| 0 <= k' < |Digits| && OccursAt(line, Digits[k'].0, i') && Digits[k'].1 == d';
    assert PatternAt(Digits, line, i);
    assert PatternAt(Digits, line, i');
    assert i == i';
    PatternSpells(line, i, k);
    PatternSpells(line, i, k');
  }

  /** Entry `k` at `i` with no lead before it is the leftmost pattern. */
  lemma FirstOfPatterns(line: string, i: nat, k: nat)
    requires k < |Digits| && OccursAt(line, Digits[k].0, i) && i <= |line| && NoLeadIn(line, 0, i)
    ensures SpelledFirst(Digits, line, i, Digits[k].1)
  {
    NoLeadNoPattern(line, 0, i);
  }

  /** Entry `k` at `j` with no lead after it is the rightmost pattern. */
  lemma LastOfPatterns(line: string, j: nat, k: nat)
    requires k < |Digits| && OccursAt(line, Digits[k].0, j) && j < |line| && NoLeadIn(line, j + 1, |line|)
    ensures SpelledLast(Digits, line, j, Digits[k].1)
  {
    NoLeadNoPattern(line, j + 1, |line|);
    NoPatternPastEnd(line);
  }

  /** The leftmost and rightmost patterns decide `get_first_and_last_digits_2`. */
  lemma DigitsOfSpelled(line: string, i: nat, first: char, j: nat, last: char)
    requires SpelledFirst(Digits, line, i, first) && SpelledLast(Digits, line, j, last)
    ensures FirstAndLastDigits2(line) == Ok((first, last))
  {
    var k :| 0 <= k < |Digits| && OccursAt(line, Digits[k].0, i) && Digits[k].1 == first;
    assert PatternAt(Digits, line, i);
    var r := FirstAndLastDigits2(line);
    var i': nat :| SpelledFirst(Digits, line, i', r.value.0);
    SpelledFirstUnique(line, i, first, i', r.value.0);
    var j': nat :| SpelledLast(Digits, line, j', r.value.1);
    SpelledLastUnique(line, j, last, j', r.value.1);
  }

  /** The calibration value of two table digits. */
  lemma ValueOfDigits(line: string, first: char, last: char)
    requires FirstAndLastDigits2(line) == Ok((first, last))
    requires IsDigit(first) && IsDigit(last)
    ensures CalibrationValue2(line) == Ok(10 * DigitValue(first) + DigitValue(last))
  {
    TwoDigits(first, last);
  }

  /**
   * A line's part 2 value from its leftmost and rightmost pattern: the digit
   * spelled by the leftmost occurrence of any table pattern, and the digit
   * spelled by the rightmost one.
   */
  lemma ValueOfPatterns(line: string, i: nat, first: char, j: nat, last: char)
    requires SpelledFirst(Digits, line, i, first) && SpelledLast(Digits, line, j, last)
    ensures IsDigit(first) && IsDigit(last)
    ensures CalibrationValue2(line) == Ok(10 * DigitValue(first) + DigitValue(last))
  {
    DigitsOfSpelled(line, i, first, j, last);
    DigitsOfTable(first);
    DigitsOfTable(last);
    ValueOfDigits(line, first, last);
  }

  const Example2: seq<string> :=
    ["two1nine", "eightwothree", "abcone2threexyz", "xtwone3four", "4nineeightseven2", "zoneight234", "7pqrstsixteen"]

  lemma Example2Text1()
    ensures OccursAt("two1nine", "two", 0) && OccursAt("two1nine", "nine", 4)
    ensures NoLeadIn("two1nine", 0, 0) && NoLeadIn("two1nine", 5, 8)
  {
    var line := "two1nine";
    assert line[0..3] == "two";
    assert line[4..8] == "nine";
  }

  lemma Example2Line1()
    ensures CalibrationValue2("two1nine") == Ok(29)
  {
    DigitsEntries();
    DigitsWords();
    Example2Text1();
    FirstOfPatterns("two1nine", 0, 10);
    LastOfPatterns("two1nine", 4, 17);
    ValueOfPatterns("two1nine", 0, '2', 4, '9');
  }

  lemma Example2Text2()
    ensures OccursAt("eightwothree", "eight", 0) && OccursAt("eightwothree", "three", 7)
    ensures NoLeadIn("eightwothree", 0, 0) && NoLeadIn("eightwothree", 8, 12)
  {
    var line := "eightwothree";
    assert line[0..5] == "eight";
    assert line[7..12] == "three";
  }

  /** Overlapping words both count: "eight" is leftmost and "three" rightmost. */
  lemma Example2Line2()
    ensures CalibrationValue2("eightwothree") == Ok(83)
  {
    DigitsEntries();
    DigitsWords();
    Example2Text2();
    FirstOfPatterns("eightwothree", 0, 16);
    LastOfPatterns("eightwothree", 7, 11);
    ValueOfPatterns("eightwothree", 0, '8', 7, '3');
  }

  lemma Example2Text3()
    ensures OccursAt("abcone2threexyz", "one", 3) && OccursAt("abcone2threexyz", "three", 7)
    ensures NoLeadIn("abcone2threexyz", 0, 3) && NoLeadIn("abcone2threexyz", 8, 15)
  {
    var line := "abcone2threexyz";
    assert line[3..6] == "one";
    assert line[7..12] == "three";
  }

  lemma Example2Line3()
    ensures CalibrationValue2("abcone2threexyz") == Ok(13)
  {
    DigitsEntries();
    DigitsWords();
    Example2Text3();
    FirstOfPatterns("abcone2threexyz", 3, 9);
    LastOfPatterns("abcone2threexyz", 7, 11);
    ValueOfPatterns("abcone2threexyz", 3, '1', 7, '3');
  }

  lemma Example2Text4()
    ensures OccursAt("xtwone3four", "two", 1) && OccursAt("xtwone3four", "four", 7)
    ensures NoLeadIn("xtwone3four", 0, 1) && NoLeadIn("xtwone3four", 8, 11)
  {
    var line := "xtwone3four";
    assert line[1..4] == "two";
    assert line[7..11] == "four";
  }

  lemma Example2Line4()
    ensures CalibrationValue2("xtwone3four") == Ok(24)
  {
    DigitsEntries();
    DigitsWords();
    Example2Text4();
    FirstOfPatterns("xtwone3four", 1, 10);
    LastOfPatterns("xtwone3four", 7, 12);
    ValueOfPatterns("xtwone3four", 1, '2', 7, '4');
  }

  lemma Example2Text5()
    ensures OccursAt("4nineeightseven2", "4", 0) && OccursAt("4nineeightseven2", "2", 15)
    ensures NoLeadIn("4nineeightseven2", 0, 0) && NoLeadIn("4nineeightseven2", 16, 16)
  {
    var line := "4nineeightseven2";
    assert line[0..1] == "4";
    assert line[15..16] == "2";
  }

  lemma Example2Line5()
    ensures CalibrationValue2("4nineeightseven2") == Ok(42)
  {
    DigitsEntries();
    DigitsWords();
    Example2Text5();
    FirstOfPatterns("4nineeightseven2", 0, 3);
    LastOfPatterns("4nineeightseven2", 15, 1);
    ValueOfPatterns("4nineeightseven2", 0, '4', 15, '2');
  }

  lemma Example2Text6()
    ensures OccursAt("zoneight234", "one", 1) && OccursAt("zoneight234", "4", 10)
    ensures NoLeadIn("zoneight234", 0, 1) && NoLeadIn("zoneight234", 11, 11)
  {
    var line := "zoneight234";
    assert line[1..4] == "one";
    assert line[10..11] == "4";
  }

  lemma Example2Line6()
    ensures CalibrationValue2("zoneight234") == Ok(14)
  {
    DigitsEntries();
    DigitsWords();
    Example2Text6();
    FirstOfPatterns("zoneight234", 1, 9);
    LastOfPatterns("zoneight234", 10, 3);
    ValueOfPatterns("zoneight234", 1, '1', 10, '4');
  }

  lemma Example2Text7()
    ensures OccursAt("7pqrstsixteen", "7", 0) && OccursAt("7pqrstsixteen", "six", 6)
    ensures NoLeadIn("7pqrstsixteen", 0, 0) && NoLeadIn("7pqrstsixteen", 7, 13)
  {
    var line := "7pqrstsixteen";
    assert line[0..1] == "7";
    assert line[6..9] == "six";
  }

  lemma Example2Line7()
    ensures CalibrationValue2("7pqrstsixteen") == Ok(76)
  {
    DigitsEntries();
    DigitsWords();
    Example2Text7();
    FirstOfPatterns("7pqrstsixteen", 0, 6);
    LastOfPatterns("7pqrstsixteen", 6, 14);
    ValueOfPatterns("7pqrstsixteen", 0, '7', 6, '6');
  }

  /** Seven lines with known values collect to those values. */
  lemma CollectSeven(a: string, b: string, c: string, d: string, e: string, f: string, g: string,
                     value: string -> Result<nat, Error>, values: seq<nat>)
    requires |values| == 7
    requires value(a) == Ok(values[0]) && value(b) == Ok(values[1]) && value(c) == Ok(values[2])
    requires value(d) == Ok(values[3]) && value(e) == Ok(values[4]) && value(f) == Ok(values[5])
    requires value(g) == Ok(values[6])
    ensures TryCollect([a, b, c, d, e, f, g], value) == Ok(values)
  {
    var lines := [a, b, c, d, e, f, g];
    forall i | 0 <= i < 7
      ensures value(lines[i]) == Ok(values[i])
    {
      if i == 0 {} else if i == 1 {} else if i == 2 {} else if i == 3 {} else if i == 4 {} else if i == 5 {} else {}
    }
    TryCollectAllOk(lines, value, values);
  }

  lemma SumOfExample2()
    ensures Sum([29, 83, 13, 24, 42, 14, 76]) == 281
  {
  }

  /** The second example: 29 + 83 + 13 + 24 + 42 + 14 + 76. */
  lemma ExamplePart2()
    ensures Part2(Example2) == Ok(281)
  {
    Example2Line1();
    Example2Line2();
    Example2Line3();
    Example2Line4();
    Example2Line5();
    Example2Line6();
    Example2Line7();
    CollectSeven(Example2[0], Example2[1], Example2[2], Example2[3], Example2[4], Example2[5], Example2[6],
      CalibrationValue2, [29, 83, 13, 24, 42, 14, 76]);
    SumOfExample2();
  }
}
