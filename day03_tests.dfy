/**
 * The parsing test of day 3: two lines whose numbers are closed by a '.',
 * by a symbol, or by the end of the line, traced through the parser's
 * state machine character by character.
 */
module Day03Tests {
  import opened Results
  import opened Text
  import opened Day03

  const TestRow0: string := "123.123#123"
  const TestRow1: string := "..123.123.#.123"

  lemma DigitsValue123()
    ensures DigitsValue("123") == 123
  {
    assert "123"[..2] == "12";
    assert "12"[..1] == "1";
    assert "1"[..0] == "";
  }

  /** Reading "123" with no number open leaves a span holding it, started at its first column. */
  lemma Read123(line: string, y: nat, x: nat)
    requires x + 3 <= |line| && line[x] == '1' && line[x + 1] == '2' && line[x + 2] == '3'
    requires ScanLine(line, y, x).span.None?
    ensures ScanLine(line, y, x + 3) == ScanLine(line, y, x).(span := Some(Span("123", x)))
  {
    assert IsDigit('1') && IsDigit('2') && IsDigit('3');
    assert "1" + ['2'] == "12";
    assert "12" + ['3'] == "123";
    assert ScanLine(line, y, x + 1) == ScanLine(line, y, x).(span := Some(Span("1", x)));
    assert ScanLine(line, y, x + 2) == ScanLine(line, y, x).(span := Some(Span("12", x)));
  }

  lemma TestRow0First()
    ensures ScanLine(TestRow0, 0, 4) == Scan([Number(123, 0, 2, 0)], map[], None)
  {
    var l := TestRow0;
    assert l[0] == '1' && l[1] == '2' && l[2] == '3' && l[3] == '.';
    DigitsValue123();
    Read123(l, 0, 0);
  }

  lemma TestRow0Start()
    ensures ScanLine(TestRow0, 0, 8) == Scan([Number(123, 0, 2, 0), Number(123, 4, 6, 0)], map[(7, 0) := '#'], None)
  {
    var l := TestRow0;
    assert l[4] == '1' && l[5] == '2' && l[6] == '3' && l[7] == '#';
    DigitsValue123();
    TestRow0First();
    Read123(l, 0, 4);
  }

  /** A symbol right after a number closes it; a number running to the end of the line is closed there. */
  lemma TestRow0Scan()
    ensures ScanRow(TestRow0, 0) ==
      Scan([Number(123, 0, 2, 0), Number(123, 4, 6, 0), Number(123, 8, 10, 0)], map[(7, 0) := '#'], None)
  {
    var l := TestRow0;
    assert l[8] == '1' && l[9] == '2' && l[10] == '3';
    DigitsValue123();
    TestRow0Start();
    Read123(l, 0, 8);
  }

  lemma TestRow1Scan()
    ensures ScanRow(TestRow1, 1) ==
      Scan([Number(123, 2, 4, 1), Number(123, 6, 8, 1), Number(123, 12, 14, 1)], map[(10, 1) := '#'], None)
  {
    var l := TestRow1;
    assert l[0] == '.' && l[1] == '.' && l[2] == '1' && l[3] == '2' && l[4] == '3' && l[5] == '.';
    assert l[6] == '1' && l[7] == '2' && l[8] == '3' && l[9] == '.' && l[10] == '#' && l[11] == '.';
    assert l[12] == '1' && l[13] == '2' && l[14] == '3';
    DigitsValue123();
    assert ScanLine(l, 1, 2) == Scan([], map[], None);
    Read123(l, 1, 2);
    assert ScanLine(l, 1, 6) == Scan([Number(123, 2, 4, 1)], map[], None);
    Read123(l, 1, 6);
    assert ScanLine(l, 1, 10) == Scan([Number(123, 2, 4, 1), Number(123, 6, 8, 1)], map[], None);
    assert ScanLine(l, 1, 12) == Scan([Number(123, 2, 4, 1), Number(123, 6, 8, 1)], map[(10, 1) := '#'], None);
    Read123(l, 1, 12);
  }

  /** The schematic of the two test lines: six numbers in reading order and two symbols. */
  lemma ExampleParse()
    ensures Parsed([TestRow0, TestRow1]) == Schematic(
      [Number(123, 0, 2, 0), Number(123, 4, 6, 0), Number(123, 8, 10, 0),
       Number(123, 2, 4, 1), Number(123, 6, 8, 1), Number(123, 12, 14, 1)],
      map[(7, 0) := '#', (10, 1) := '#'])
  {
    TestRow0Scan();
    TestRow1Scan();
    assert ScanRows([TestRow0, TestRow1], 1) == Scan(ScanRow(TestRow0, 0).numbers, ScanRow(TestRow0, 0).symbols, None);
  }
}
