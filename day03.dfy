/**
 * Gear ratios (src/bin/day03.rs): an engine schematic is a grid of
 * characters holding numbers (maximal runs of digits on one row), symbols
 * (anything that is neither a digit nor '.') and empty cells ('.').
 * Part 1 sums the numbers next to a symbol; part 2 sums, over the '*'
 * symbols next to exactly two numbers, the product of those two numbers.
 */
module Day03 {
  import opened Results
  import opened Text

  /** A cell of the grid: (column x, row y). */
  type Pos = (nat, nat)

  /** `EngineSchematicNumber`: the number written on row y in columns xStart..=xEnd. */
  datatype Number = Number(value: nat, xStart: nat, xEnd: nat, y: nat)

  /** `EngineSchematic`: the numbers in the order they were read, and the symbol of each symbol cell. */
  datatype Schematic = Schematic(numbers: seq<Number>, symbols: map<Pos, char>)

  predicate IsSymbol(c: char) { c != '.' && !IsDigit(c) }

  // ---------------------------------------------------------------------------
  // The parser as a state machine over the characters of each line

  /** `current_number_span`: the digits read so far of an open number and its first column. */
  datatype Span = Span(digits: string, xStart: nat)

  /** The parser's state: what has been pushed and inserted so far, and the open span. */
  datatype Scan = Scan(numbers: seq<Number>, symbols: map<Pos, char>, span: Option<Span>)

  predicate SpanDigits(span: Option<Span>, x: nat)
  {
    span.Some? ==> span.value.xStart < x && AllDigits(span.value.digits)
  }

  /** Pushes the number of the open span, which ends at column xEnd, and closes the span. */
  function Close(st: Scan, xEnd: nat, y: nat): Scan
    requires st.span.Some? && AllDigits(st.span.value.digits)
  {
    Scan(st.numbers + [Number(DigitsValue(st.span.value.digits), st.span.value.xStart, xEnd, y)],
         st.symbols, None)
  }

  /** One step of the parser: character c in column x of row y. */
  function Step(st: Scan, c: char, x: nat, y: nat): (r: Scan)
    requires SpanDigits(st.span, x)
    ensures SpanDigits(r.span, x + 1)
  {
    match st.span
    case None =>
      if c == '.' then st
      else if IsDigit(c) then st.(span := Some(Span([c], x)))
      else st.(symbols := st.symbols[(x, y) := c])
    case Some(sp) =>
      if c == '.' then Close(st, x - 1, y)
      else if IsDigit(c) then st.(span := Some(Span(sp.digits + [c], sp.xStart)))
      else Close(st, x - 1, y).(symbols := st.symbols[(x, y) := c])
  }

  /** The state after the first n characters of row y, starting from nothing read. */
  function ScanLine(line: string, y: nat, n: nat): (r: Scan)
    requires n <= |line|
    ensures SpanDigits(r.span, n)
    decreases n
  {
    if n == 0 then Scan([], map[], None)
    else Step(ScanLine(line, y, n - 1), line[n - 1], n - 1, y)
  }

  /** What row y contributes: the scan of the whole line, with a span still open closed at the last column. */
  function ScanRow(line: string, y: nat): Scan
  {
    var st := ScanLine(line, y, |line|);
    if st.span.Some? then Close(st, |line| - 1, y) else st
  }

  /** The numbers and symbols of the first n rows. */
  function ScanRows(lines: seq<string>, n: nat): Scan
    requires n <= |lines|
  {
    if n == 0 then Scan([], map[], None)
    else
      var before := ScanRows(lines, n - 1);
      var row := ScanRow(lines[n - 1], n - 1);
      Scan(before.numbers + row.numbers, before.symbols + row.symbols, None)
  }

  /** The schematic `parse_engine_schematic` returns. */
  function Parsed(lines: seq<string>): Schematic
  {
    var st := ScanRows(lines, |lines|);
    Schematic(st.numbers, st.symbols)
  }

  /**
   * `parse_engine_schematic`: one pass over every character of every line,
   * pushing each number when the character after it is read (or the line
   * ends) and inserting each symbol at its cell.
   */
  method ParseEngineSchematic(input: seq<string>) returns (schematic: Schematic)
    ensures schematic == Parsed(input)
  {
    var numbers: seq<Number> := [];
    var symbols: map<Pos, char> := map[];
    for y := 0 to |input|
      invariant Scan(numbers, symbols, None) == ScanRows(input, y)
    {
      var line := input[y];
      ghost var before := ScanRows(input, y);
      var span: Option<Span> := None;
      for x := 0 to |line|
        invariant numbers == before.numbers + ScanLine(line, y, x).numbers
        invariant symbols == before.symbols + ScanLine(line, y, x).symbols
        invariant span == ScanLine(line, y, x).span
      {
        var c := line[x];
        ghost var row := ScanLine(line, y, x);
        assert ScanLine(line, y, x + 1) == Step(row, c, x, y);
        UnionUpdate(before.symbols, row.symbols, (x, y), c);
        match span
        case None =>
          if c == '.' {
          } else if IsDigit(c) {
            span := Some(Span([c], x));
          } else {
            symbols := symbols[(x, y) := c];
          }
        case Some(sp) =>
          if c == '.' {
            numbers := numbers + [Number(DigitsValue(sp.digits), sp.xStart, x - 1, y)];
            span := None;
          } else if IsDigit(c) {
            span := Some(Span(sp.digits + [c], sp.xStart));
          } else {
            symbols := symbols[(x, y) := c];
            numbers := numbers + [Number(DigitsValue(sp.digits), sp.xStart, x - 1, y)];
            span := None;
          }
      }
      if span.Some? {
        numbers := numbers + [Number(DigitsValue(span.value.digits), span.value.xStart, |line| - 1, y)];
      }
    }
    schematic := Schematic(numbers, symbols);
  }

  lemma UnionUpdate<K, V>(m: map<K, V>, n: map<K, V>, k: K, v: V)
    ensures (m + n)[k := v] == m + n[k := v]
  {
  }

  // ---------------------------------------------------------------------------
  // What the parser finds: the maximal digit runs and the symbol cells

  /** Columns a..=b of the line are digits, and the digit run cannot be extended either way. */
  predicate IsRun(line: string, a: nat, b: nat)
  {
    a <= b < |line| && AllDigits(line[a..b + 1])
    && (a == 0 || !IsDigit(line[a - 1]))
    && (b + 1 == |line| || !IsDigit(line[b + 1]))
  }

  /** The number written in columns a..=b of row y. */
  function RunAt(line: string, a: nat, b: nat, y: nat): Number
    requires a <= b < |line| && AllDigits(line[a..b + 1])
  {
    Number(DigitsValue(line[a..b + 1]), a, b, y)
  }

  /** k is a number of the grid: a maximal digit run of its row, with the value of its digits. */
  predicate IsNumberIn(lines: seq<string>, k: Number)
  {
    k.y < |lines| && IsRun(lines[k.y], k.xStart, k.xEnd) && k == RunAt(lines[k.y], k.xStart, k.xEnd, k.y)
  }

  predicate IsSymbolAt(lines: seq<string>, p: Pos)
  {
    p.1 < |lines| && p.0 < |lines[p.1]| && IsSymbol(lines[p.1][p.0])
  }

  /** Reading order: by row, then left to right without overlap. */
  predicate Before(k: Number, l: Number)
  {
    k.y < l.y || (k.y == l.y && k.xEnd < l.xStart)
  }

  /** ks are, left to right, the runs of row y that end before column n - 1. */
  ghost predicate RunsUpTo(ks: seq<Number>, line: string, y: nat, n: nat)
  {
    (forall k :: k in ks ==>
       k.xEnd + 1 < n && IsRun(line, k.xStart, k.xEnd) && k == RunAt(line, k.xStart, k.xEnd, y))
    && (forall a: nat, b: nat :: IsRun(line, a, b) && b + 1 < n ==> RunAt(line, a, b, y) in ks)
    && (forall i, j :: 0 <= i < j < |ks| ==> ks[i].xEnd < ks[j].xStart)
  }

  /** symbols holds exactly the symbol cells of row y before column n. */
  ghost predicate SymbolsUpTo(symbols: map<Pos, char>, line: string, y: nat, n: nat)
    requires n <= |line|
  {
    (forall p :: p in symbols <==> p.1 == y && p.0 < n && IsSymbol(line[p.0]))
    && (forall p :: p in symbols ==> p.0 < |line| && symbols[p] == line[p.0])
  }

  /** An open span is the digit run from its start up to column n - 1; no span means column n - 1 is no digit. */
  ghost predicate SpanOk(span: Option<Span>, line: string, n: nat)
    requires n <= |line|
  {
    match span
    case None => n == 0 || !IsDigit(line[n - 1])
    case Some(sp) =>
      sp.xStart < n && sp.digits == line[sp.xStart..n] && AllDigits(sp.digits)
      && (sp.xStart == 0 || !IsDigit(line[sp.xStart - 1]))
  }

  /** The invariant of the scan of row y after n characters. */
  ghost predicate Scanned(r: Scan, line: string, y: nat, n: nat)
  {
    n <= |line| && RunsUpTo(r.numbers, line, y, n) && SymbolsUpTo(r.symbols, line, y, n)
    && SpanOk(r.span, line, n)
    && (r.span.Some? ==> forall k :: k in r.numbers ==> k.xEnd + 1 < r.span.value.xStart)
  }

  /** Each column of a digit stretch is a digit. */
  lemma DigitsAt(line: string, a: nat, n: nat, j: nat)
    requires a <= j < n <= |line| && AllDigits(line[a..n])
    ensures IsDigit(line[j])
  {
    assert line[a..n][j - a] == line[j];
  }

  /** A run ending where an open span ends starts where the span starts. */
  lemma RunStartsAtSpan(line: string, xs: nat, n: nat, a: nat)
    requires xs < n <= |line| && AllDigits(line[xs..n]) && (xs == 0 || !IsDigit(line[xs - 1]))
    requires IsRun(line, a, n - 1)
    ensures a == xs
  {
    forall j | a <= j < n ensures IsDigit(line[j]) {
      DigitsAt(line, a, n, j);
    }
    forall j | xs <= j < n ensures IsDigit(line[j]) {
      DigitsAt(line, xs, n, j);
    }
  }

  /** No run ends just before a digit, and none ends at a column that is no digit. */
  lemma NoRunEndsAt(line: string, n: nat)
    requires 0 < n <= |line|
    requires (n < |line| && IsDigit(line[n])) || !IsDigit(line[n - 1])
    ensures forall a: nat, b: nat :: b + 1 == n ==> !IsRun(line, a, b)
  {
    forall a: nat | a < n && AllDigits(line[a..n]) ensures IsDigit(line[n - 1]) {
      DigitsAt(line, a, n, n - 1);
    }
  }

  /** Moving the bound past a column where no run ends keeps the runs. */
  lemma RunsExtend(ks: seq<Number>, line: string, y: nat, n: nat)
    requires RunsUpTo(ks, line, y, n)
    requires forall a: nat, b: nat :: b + 1 == n ==> !IsRun(line, a, b)
    ensures RunsUpTo(ks, line, y, n + 1)
  {
  }

  /** Closing the span before column n, where the run ends, adds exactly that run. */
  lemma CloseRuns(r: Scan, line: string, y: nat, n: nat)
    requires Scanned(r, line, y, n) && r.span.Some?
    requires n == |line| || !IsDigit(line[n])
    ensures RunsUpTo(Close(r, n - 1, y).numbers, line, y, n + 1)
  {
    var sp := r.span.value;
    var k := Number(DigitsValue(sp.digits), sp.xStart, n - 1, y);
    var ks := r.numbers + [k];
    assert Close(r, n - 1, y).numbers == ks;
    assert IsRun(line, sp.xStart, n - 1);
    assert k == RunAt(line, sp.xStart, n - 1, y);
    forall a: nat, b: nat | IsRun(line, a, b) && b + 1 < n + 1
      ensures RunAt(line, a, b, y) in ks
    {
      if b + 1 == n {
        RunStartsAtSpan(line, sp.xStart, n, a);
      }
    }
  }

  /** One character keeps the invariant. */
  /** The symbol cells before column n + 1: those before column n and possibly the cell at column n. */
  lemma SymbolsStep(symbols: map<Pos, char>, line: string, y: nat, n: nat)
    requires n < |line| && SymbolsUpTo(symbols, line, y, n)
    ensures SymbolsUpTo(if IsSymbol(line[n]) then symbols[(n, y) := line[n]] else symbols, line, y, n + 1)
  {
  }

  /** A digit after a non-digit opens a span. */
  lemma OpenScanned(r: Scan, line: string, y: nat, n: nat)
    requires n < |line| && Scanned(r, line, y, n) && r.span == None && IsDigit(line[n])
    ensures Scanned(r.(span := Some(Span([line[n]], n))), line, y, n + 1)
  {
    if n > 0 {
      NoRunEndsAt(line, n);
    }
    RunsExtend(r.numbers, line, y, n);
    SymbolsStep(r.symbols, line, y, n);
  }

  /** A digit after a digit extends the span. */
  lemma ExtendScanned(r: Scan, line: string, y: nat, n: nat)
    requires n < |line| && Scanned(r, line, y, n) && r.span.Some? && IsDigit(line[n])
    ensures Scanned(r.(span := Some(Span(r.span.value.digits + [line[n]], r.span.value.xStart))), line, y, n + 1)
  {
    NoRunEndsAt(line, n);
    RunsExtend(r.numbers, line, y, n);
    SymbolsStep(r.symbols, line, y, n);
    assert line[r.span.value.xStart..n + 1] == line[r.span.value.xStart..n] + [line[n]];
  }

  /** Outside a span, '.' changes nothing and a symbol is recorded. */
  lemma SkipScanned(r: Scan, line: string, y: nat, n: nat)
    requires n < |line| && Scanned(r, line, y, n) && r.span == None && !IsDigit(line[n])
    ensures Scanned(if line[n] == '.' then r else r.(symbols := r.symbols[(n, y) := line[n]]), line, y, n + 1)
  {
    if n > 0 {
      NoRunEndsAt(line, n);
    }
    RunsExtend(r.numbers, line, y, n);
    SymbolsStep(r.symbols, line, y, n);
  }

  /** A non-digit closes the open span; a symbol is also recorded. */
  lemma CloseScanned(r: Scan, line: string, y: nat, n: nat)
    requires n < |line| && Scanned(r, line, y, n) && r.span.Some? && !IsDigit(line[n])
    ensures Scanned(if line[n] == '.' then Close(r, n - 1, y)
                    else Close(r, n - 1, y).(symbols := r.symbols[(n, y) := line[n]]), line, y, n + 1)
  {
    CloseRuns(r, line, y, n);
    SymbolsStep(r.symbols, line, y, n);
  }

  /** One character keeps the invariant. */
  lemma StepScanned(line: string, y: nat, n: nat)
    requires n < |line| && Scanned(ScanLine(line, y, n), line, y, n)
    ensures Scanned(ScanLine(line, y, n + 1), line, y, n + 1)
  {
    var r := ScanLine(line, y, n);
    var c := line[n];
    assert ScanLine(line, y, n + 1) == Step(r, c, n, y);
    if IsDigit(c) {
      if r.span.Some? {
        ExtendScanned(r, line, y, n);
      } else {
        OpenScanned(r, line, y, n);
      }
    } else if r.span.Some? {
      CloseScanned(r, line, y, n);
    } else {
      SkipScanned(r, line, y, n);
    }
  }

  /** Before any character the invariant holds trivially. */
  lemma StartScanned(line: string, y: nat)
    ensures Scanned(ScanLine(line, y, 0), line, y, 0)
  {
  }

  lemma {:induction false} ScanLineScanned(line: string, y: nat, n: nat)
    requires n <= |line|
    ensures Scanned(ScanLine(line, y, n), line, y, n)
    decreases n
  {
    if n == 0 {
      StartScanned(line, y);
    } else {
      var m := n - 1;
      ScanLineScanned(line, y, m);
      StepScanned(line, y, m);
      assert m + 1 == n;
    }
  }

  /** Row y contributes exactly its runs, left to right, and exactly its symbol cells. */
  lemma ScanRowFinds(line: string, y: nat)
    ensures RunsUpTo(ScanRow(line, y).numbers, line, y, |line| + 1)
    ensures SymbolsUpTo(ScanRow(line, y).symbols, line, y, |line|)
  {
    var st := ScanLine(line, y, |line|);
    ScanLineScanned(line, y, |line|);
    if st.span.Some? {
      CloseRuns(st, line, y, |line|);
    } else {
      if |line| > 0 {
        NoRunEndsAt(line, |line|);
      }
      RunsExtend(st.numbers, line, y, |line|);
    }
  }

  ghost predicate NumbersOf(ks: seq<Number>, lines: seq<string>, n: nat)
    requires n <= |lines|
  {
    (forall k :: k in ks ==> k.y < n && IsNumberIn(lines, k))
    && (forall y: nat, a: nat, b: nat :: y < n && IsRun(lines[y], a, b) ==> RunAt(lines[y], a, b, y) in ks)
    && (forall i, j :: 0 <= i < j < |ks| ==> Before(ks[i], ks[j]))
  }

  ghost predicate SymbolsOf(symbols: map<Pos, char>, lines: seq<string>, n: nat)
    requires n <= |lines|
  {
    (forall p :: p in symbols <==> p.1 < n && IsSymbolAt(lines, p))
    && (forall p :: p in symbols ==> IsSymbolAt(lines, p) && symbols[p] == lines[p.1][p.0])
  }

  lemma RowsNumbers(lines: seq<string>, n: nat)
    requires 0 < n <= |lines|
    requires NumbersOf(ScanRows(lines, n - 1).numbers, lines, n - 1)
    ensures NumbersOf(ScanRows(lines, n).numbers, lines, n)
  {
    ScanRowFinds(lines[n - 1], n - 1);
    AppendRow(ScanRows(lines, n - 1).numbers, ScanRow(lines[n - 1], n - 1).numbers, lines, n);
  }

  /** Appending the runs of row n - 1 to the numbers of the rows above gives the numbers of the first n rows. */
  lemma AppendRow(before: seq<Number>, row: seq<Number>, lines: seq<string>, n: nat)
    requires 0 < n <= |lines|
    requires NumbersOf(before, lines, n - 1)
    requires RunsUpTo(row, lines[n - 1], n - 1, |lines[n - 1]| + 1)
    ensures NumbersOf(before + row, lines, n)
  {
    var ks := before + row;
    forall y: nat, a: nat, b: nat | y < n && IsRun(lines[y], a, b)
      ensures RunAt(lines[y], a, b, y) in ks
    {
      if y == n - 1 {
        assert RunAt(lines[y], a, b, y) in row;
      }
    }
    RowsInOrder(before, row, n - 1);
  }

  /** A row's numbers, left to right, follow the numbers of the rows above it. */
  lemma RowsInOrder(before: seq<Number>, row: seq<Number>, y: nat)
    requires forall i, j :: 0 <= i < j < |before| ==> Before(before[i], before[j])
    requires forall k :: k in before ==> k.y < y
    requires forall k :: k in row ==> k.y == y
    requires forall i, j :: 0 <= i < j < |row| ==> row[i].xEnd < row[j].xStart
    ensures forall i, j :: 0 <= i < j < |before + row| ==> Before((before + row)[i], (before + row)[j])
  {
    var ks := before + row;
    forall i, j | 0 <= i < j < |ks|
      ensures Before(ks[i], ks[j])
    {
      if j < |before| {
        assert Before(before[i], before[j]);
      } else if i < |before| {
        assert ks[i] in before && ks[j] in row;
      } else {
        assert ks[i] == row[i - |before|] && ks[j] == row[j - |before|];
      }
    }
  }

  lemma RowsSymbols(lines: seq<string>, n: nat)
    requires 0 < n <= |lines|
    requires SymbolsOf(ScanRows(lines, n - 1).symbols, lines, n - 1)
    ensures SymbolsOf(ScanRows(lines, n).symbols, lines, n)
  {
    ScanRowFinds(lines[n - 1], n - 1);
  }

  lemma {:induction false} ScanRowsFinds(lines: seq<string>, n: nat)
    requires n <= |lines|
    ensures NumbersOf(ScanRows(lines, n).numbers, lines, n)
    ensures SymbolsOf(ScanRows(lines, n).symbols, lines, n)
    decreases n
  {
    if n > 0 {
      ScanRowsFinds(lines, n - 1);
      RowsNumbers(lines, n);
      RowsSymbols(lines, n);
    }
  }

  /**
   * The parsed numbers are exactly the maximal digit runs of the grid, each
   * with the value of its digits, in reading order (so none is listed twice).
   */
  lemma ParsedNumbers(lines: seq<string>)
    ensures forall k :: k in Parsed(lines).numbers <==> IsNumberIn(lines, k)
    ensures forall i, j :: 0 <= i < j < |Parsed(lines).numbers| ==>
      Before(Parsed(lines).numbers[i], Parsed(lines).numbers[j])
  {
    ScanRowsFinds(lines, |lines|);
  }

  /** The parsed symbol map holds exactly the symbol cells of the grid, each with its character. */
  lemma ParsedSymbols(lines: seq<string>)
    ensures forall p :: p in Parsed(lines).symbols <==> IsSymbolAt(lines, p)
    ensures forall p :: p in Parsed(lines).symbols ==>
      IsSymbolAt(lines, p) && Parsed(lines).symbols[p] == lines[p.1][p.0]
  {
    ScanRowsFinds(lines, |lines|);
  }

  // ---------------------------------------------------------------------------
  // Neighbours and adjacency

  /** The cells lo..hi - 1 of row y, left to right (a Rust range `lo..hi`). */
  function Cells(lo: nat, hi: nat, y: nat): (r: seq<Pos>)
  {
    if lo < hi then seq(hi - lo, i requires 0 <= i < hi - lo => (lo + i, y)) else []
  }

  lemma CellsMembers(lo: nat, hi: nat, y: nat)
    ensures forall p :: p in Cells(lo, hi, y) <==> p.1 == y && lo <= p.0 < hi
  {
    forall p: Pos | p.1 == y && lo <= p.0 < hi
      ensures p in Cells(lo, hi, y)
    {
      assert Cells(lo, hi, y)[p.0 - lo] == p;
    }
  }

  /** The cells left of the number, top to bottom; none in column 0, no top one in row 0. */
  function LeftColumn(k: Number): seq<Pos>
  {
    (if k.xStart > 0 && k.y > 0 then [(k.xStart - 1, k.y - 1)] else [])
    + (if k.xStart > 0 then [(k.xStart - 1, k.y), (k.xStart - 1, k.y + 1)] else [])
  }

  /** The cells above the number and above-right of it; none in row 0. */
  function RowAbove(k: Number): seq<Pos>
  {
    if k.y > 0 then Cells(k.xStart, k.xEnd + 2, k.y - 1) else []
  }

  /** The cells below the number and below-right of it. */
  function RowBelow(k: Number): seq<Pos>
  {
    Cells(k.xStart, k.xEnd + 2, k.y + 1)
  }

  /**
   * `get_neighbours`: the cells around a number, in the order the source
   * pushes them: top-left, middle-left, bottom-left, the row above, the row
   * below and middle-right. Cells left of column 0 or above row 0 do not exist.
   */
  function Neighbours(k: Number): seq<Pos>
  {
    LeftColumn(k) + RowAbove(k) + RowBelow(k) + [(k.xEnd + 1, k.y)]
  }

  /** `Vec::extend` with the cells lo..hi - 1 of row y. */
  method ExtendCells(ns: seq<Pos>, lo: nat, hi: nat, y: nat) returns (r: seq<Pos>)
    ensures r == ns + Cells(lo, hi, y)
  {
    r := ns;
    var x := lo;
    while x < hi
      invariant lo <= x <= if lo < hi then hi else lo
      invariant r == ns + Cells(lo, x, y)
    {
      assert Cells(lo, x + 1, y) == Cells(lo, x, y) + [(x, y)];
      r := r + [(x, y)];
      x := x + 1;
    }
  }

  method GetNeighbours(k: Number) returns (ns: seq<Pos>)
    ensures ns == Neighbours(k)
  {
    ns := [];
    if k.xStart > 0 && k.y > 0 {
      ns := ns + [(k.xStart - 1, k.y - 1)];
    }
    if k.xStart > 0 {
      ns := ns + [(k.xStart - 1, k.y)];
      ns := ns + [(k.xStart - 1, k.y + 1)];
    }
    assert ns == LeftColumn(k);
    if k.y > 0 {
      ns := ExtendCells(ns, k.xStart, k.xEnd + 2, k.y - 1);
    }
    assert ns == LeftColumn(k) + RowAbove(k);
    ns := ExtendCells(ns, k.xStart, k.xEnd + 2, k.y + 1);
    ns := ns + [(k.xEnd + 1, k.y)];
  }

  /** The grid cells touching the number's cells, horizontally, vertically or diagonally, outside the number itself. */
  predicate Adjacent(p: Pos, k: Number)
  {
    k.xStart <= p.0 + 1 && p.0 <= k.xEnd + 1 && k.y <= p.1 + 1 && p.1 <= k.y + 1
    && !(p.1 == k.y && k.xStart <= p.0 <= k.xEnd)
  }

  /** Of a number spanning at least one cell, the neighbours are exactly the adjacent cells. */
  lemma NeighboursAdjacent(k: Number)
    requires k.xStart <= k.xEnd
    ensures forall p :: p in Neighbours(k) <==> Adjacent(p, k)
  {
    CellsMembers(k.xStart, k.xEnd + 2, k.y + 1);
    if k.y > 0 {
      CellsMembers(k.xStart, k.xEnd + 2, k.y - 1);
    }
  }

  predicate Distinct<T(==)>(s: seq<T>)
  {
    forall i, j :: 0 <= i < j < |s| ==> s[i] != s[j]
  }

  lemma DistinctConcat<T>(s: seq<T>, t: seq<T>)
    requires Distinct(s) && Distinct(t)
    requires forall x :: x in s ==> x !in t
    ensures Distinct(s + t)
  {
    forall i, j | 0 <= i < j < |s + t|
      ensures (s + t)[i] != (s + t)[j]
    {
      if i < |s| && |s| <= j {
        assert (s + t)[i] in s && (s + t)[j] in t;
      }
    }
  }

  /** Where the cells of each piece of the neighbourhood lie. */
  lemma NeighbourPieces(k: Number)
    ensures Distinct(LeftColumn(k)) && Distinct(RowAbove(k)) && Distinct(RowBelow(k))
    ensures forall p :: p in LeftColumn(k) ==> p.0 + 1 == k.xStart
    ensures forall p :: p in RowAbove(k) ==> p.1 + 1 == k.y && k.xStart <= p.0
    ensures forall p :: p in RowBelow(k) ==> p.1 == k.y + 1 && k.xStart <= p.0
  {
    CellsMembers(k.xStart, k.xEnd + 2, k.y + 1);
    if k.y > 0 {
      CellsMembers(k.xStart, k.xEnd + 2, k.y - 1);
    }
  }

  /** No cell is listed twice. */
  lemma NeighboursDistinct(k: Number)
    requires k.xStart <= k.xEnd
    ensures Distinct(Neighbours(k))
  {
    var left, above, below := LeftColumn(k), RowAbove(k), RowBelow(k);
    NeighbourPieces(k);
    DistinctConcat(left, above);
    DistinctConcat(left + above, below);
    DistinctConcat(left + above + below, [(k.xEnd + 1, k.y)]);
  }

  /** The single-digit number in the corner has three neighbours. */
  lemma NeighboursOfCorner()
    ensures Neighbours(Number(123, 0, 0, 0)) == [(0, 1), (1, 1), (1, 0)]
  {
  }

  /** A three-digit number away from the edges has twelve. */
  lemma NeighboursOfInterior()
    ensures |Neighbours(Number(123, 1, 3, 1))| == 12
  {
  }

  /** `is_adjacent_to_symbol`: some neighbour of the number is a symbol cell. */
  predicate IsAdjacentToSymbol(k: Number, symbols: map<Pos, char>)
  {
    exists p :: p in Neighbours(k) && p in symbols
  }

  lemma AdjacentToSymbolIff(k: Number, symbols: map<Pos, char>)
    requires k.xStart <= k.xEnd
    ensures IsAdjacentToSymbol(k, symbols) <==> exists p :: p in symbols && Adjacent(p, k)
  {
    NeighboursAdjacent(k);
  }

  /** The sum of the numbers adjacent to a symbol. */
  function SumPartNumbers(ks: seq<Number>, symbols: map<Pos, char>): nat
  {
    if ks == [] then 0
    else (if IsAdjacentToSymbol(ks[0], symbols) then ks[0].value else 0) + SumPartNumbers(ks[1..], symbols)
  }

  /** `part1`. */
  function Part1(lines: seq<string>): nat
  {
    var s := Parsed(lines);
    SumPartNumbers(s.numbers, s.symbols)
  }

  // ---------------------------------------------------------------------------
  // Gears

  /** The elements of s that keep holds of, in order (`Iterator::filter`). */
  function Filter<T>(s: seq<T>, keep: T -> bool): (r: seq<T>)
    ensures |r| <= |s|
  {
    if s == [] then [] else (if keep(s[0]) then [s[0]] else []) + Filter(s[1..], keep)
  }

  /** s[i] and s[j], with i < j, are the only elements keep holds of. */
  predicate OnlyTwo<T>(s: seq<T>, keep: T -> bool, i: nat, j: nat)
  {
    i < j < |s| && keep(s[i]) && keep(s[j])
    && forall m :: 0 <= m < |s| && keep(s[m]) ==> m == i || m == j
  }

  lemma {:induction false} FilterNone<T>(s: seq<T>, keep: T -> bool)
    requires forall m :: 0 <= m < |s| ==> !keep(s[m])
    ensures Filter(s, keep) == []
    decreases |s|
  {
    if s != [] {
      assert forall m :: 0 <= m < |s[1..]| ==> s[1..][m] == s[m + 1];
      FilterNone(s[1..], keep);
    }
  }

  lemma {:induction false} FilterAppend<T>(s: seq<T>, t: seq<T>, keep: T -> bool)
    ensures Filter(s + t, keep) == Filter(s, keep) + Filter(t, keep)
    decreases |s|
  {
    if s != [] {
      assert (s + t)[1..] == s[1..] + t;
      FilterAppend(s[1..], t, keep);
    } else {
      assert s + t == t;
    }
  }

  lemma FilterOfTwo<T>(s: seq<T>, keep: T -> bool, i: nat, j: nat)
    requires OnlyTwo(s, keep, i, j)
    ensures Filter(s, keep) == [s[i], s[j]]
  {
    var a, b, c := s[..i], s[i + 1..j], s[j + 1..];
    assert s == a + [s[i]] + b + [s[j]] + c;
    assert forall m :: 0 <= m < |b| ==> b[m] == s[i + 1 + m];
    assert forall m :: 0 <= m < |c| ==> c[m] == s[j + 1 + m];
    FilterNone(a, keep);
    FilterNone(b, keep);
    FilterNone(c, keep);
    FilterAppend(a + [s[i]] + b + [s[j]], c, keep);
    FilterAppend(a + [s[i]] + b, [s[j]], keep);
    FilterAppend(a + [s[i]], b, keep);
    FilterAppend(a, [s[i]], keep);
    assert Filter([s[i]], keep) == [s[i]];
    assert Filter([s[j]], keep) == [s[j]];
  }

  lemma {:induction false} FilterEmpty<T>(s: seq<T>, keep: T -> bool)
    requires Filter(s, keep) == []
    ensures forall m :: 0 <= m < |s| ==> !keep(s[m])
    decreases |s|
  {
    if s != [] {
      FilterEmpty(s[1..], keep);
      assert forall m :: 0 < m < |s| ==> s[m] == s[1..][m - 1];
    }
  }

  lemma {:induction false} FilterOne<T>(s: seq<T>, keep: T -> bool) returns (i: nat)
    requires |Filter(s, keep)| == 1
    ensures i < |s| && keep(s[i]) && Filter(s, keep) == [s[i]]
    ensures forall m :: 0 <= m < |s| && keep(s[m]) ==> m == i
    decreases |s|
  {
    assert forall m :: 0 < m < |s| ==> s[m] == s[1..][m - 1];
    if keep(s[0]) {
      i := 0;
      FilterEmpty(s[1..], keep);
    } else {
      var i' := FilterOne(s[1..], keep);
      i := i' + 1;
    }
  }

  lemma {:induction false} FilterTwo<T>(s: seq<T>, keep: T -> bool) returns (i: nat, j: nat)
    requires |Filter(s, keep)| == 2
    ensures OnlyTwo(s, keep, i, j)
    decreases |s|
  {
    assert forall m :: 0 < m < |s| ==> s[m] == s[1..][m - 1];
    if keep(s[0]) {
      var j' := FilterOne(s[1..], keep);
      i, j := 0, j' + 1;
    } else {
      var i', j' := FilterTwo(s[1..], keep);
      i, j := i' + 1, j' + 1;
    }
  }

  /** Whether the gear is among a number's neighbours (`any(|pos| pos == gear)`). */
  function TouchesGear(gear: Pos): Number -> bool
  {
    k => gear in Neighbours(k)
  }

  lemma TouchesGearIff(gear: Pos, k: Number)
    requires k.xStart <= k.xEnd
    ensures TouchesGear(gear)(k) <==> Adjacent(gear, k)
  {
    NeighboursAdjacent(k);
  }

  /** The gear ratio when the cells next to each number are known. */
  lemma GearOfAdjacent(gear: Pos, ks: seq<Number>, i: nat, j: nat)
    requires i < j < |ks|
    requires forall m :: 0 <= m < |ks| ==> ks[m].xStart <= ks[m].xEnd
    requires forall m :: 0 <= m < |ks| ==> (Adjacent(gear, ks[m]) <==> m == i || m == j)
    ensures GearRatio(gear, ks) == Some(ks[i].value * ks[j].value)
  {
    forall m | 0 <= m < |ks|
      ensures TouchesGear(gear)(ks[m]) <==> m == i || m == j
    {
      TouchesGearIff(gear, ks[m]);
    }
    FilterOfTwo(ks, TouchesGear(gear), i, j);
  }

  /** No gear ratio when a single number is next to the cell. */
  lemma NoGearOfOneAdjacent(gear: Pos, ks: seq<Number>, i: nat)
    requires i < |ks|
    requires forall m :: 0 <= m < |ks| ==> ks[m].xStart <= ks[m].xEnd
    requires forall m :: 0 <= m < |ks| ==> (Adjacent(gear, ks[m]) <==> m == i)
    ensures GearRatio(gear, ks) == None
  {
    forall m | 0 <= m < |ks|
      ensures TouchesGear(gear)(ks[m]) <==> m == i
    {
      TouchesGearIff(gear, ks[m]);
    }
    if |Filter(ks, TouchesGear(gear))| == 2 {
      var a, b := FilterTwo(ks, TouchesGear(gear));
      assert false;
    }
  }

  /**
   * `get_gear_ratio`: the product of the numbers next to the gear if there are
   * exactly two of them (`collect_tuple` of the filtered numbers), otherwise None.
   */
  function GearRatio(gear: Pos, ks: seq<Number>): Option<nat>
  {
    var ts := Filter(ks, TouchesGear(gear));
    if |ts| == 2 then Some(ts[0].value * ts[1].value) else None
  }

  /** A gear has a ratio exactly when two numbers, and no others, are next to it; the ratio is their product. */
  lemma GearRatioIff(gear: Pos, ks: seq<Number>)
    ensures GearRatio(gear, ks).Some? <==> exists i: nat, j: nat :: OnlyTwo(ks, TouchesGear(gear), i, j)
    ensures forall i: nat, j: nat :: OnlyTwo(ks, TouchesGear(gear), i, j) ==>
      GearRatio(gear, ks) == Some(ks[i].value * ks[j].value)
  {
    if GearRatio(gear, ks).Some? {
      var i, j := FilterTwo(ks, TouchesGear(gear));
    }
    forall i: nat, j: nat | OnlyTwo(ks, TouchesGear(gear), i, j)
      ensures GearRatio(gear, ks) == Some(ks[i].value * ks[j].value)
    {
      FilterOfTwo(ks, TouchesGear(gear), i, j);
    }
  }

  /** The '*' cells of the first n columns of row y, left to right. */
  function RowStars(line: string, y: nat, n: nat): seq<Pos>
    requires n <= |line|
  {
    if n == 0 then [] else RowStars(line, y, n - 1) + (if line[n - 1] == '*' then [(n - 1, y)] else [])
  }

  /** The '*' cells of the first n rows, in reading order. */
  function Stars(lines: seq<string>, n: nat): seq<Pos>
    requires n <= |lines|
  {
    if n == 0 then [] else Stars(lines, n - 1) + RowStars(lines[n - 1], n - 1, |lines[n - 1]|)
  }

  lemma {:induction false} RowStarsMembers(line: string, y: nat, n: nat)
    requires n <= |line|
    ensures forall p :: p in RowStars(line, y, n) <==> p.1 == y && p.0 < n && line[p.0] == '*'
    ensures Distinct(RowStars(line, y, n))
    decreases n
  {
    if n > 0 {
      RowStarsMembers(line, y, n - 1);
      DistinctConcat(RowStars(line, y, n - 1), if line[n - 1] == '*' then [(n - 1, y)] else []);
    }
  }

  lemma {:induction false} StarsMembers(lines: seq<string>, n: nat)
    requires n <= |lines|
    ensures forall p :: p in Stars(lines, n) <==> p.1 < n && p.0 < |lines[p.1]| && lines[p.1][p.0] == '*'
    ensures Distinct(Stars(lines, n))
    decreases n
  {
    if n > 0 {
      StarsMembers(lines, n - 1);
      RowStarsMembers(lines[n - 1], n - 1, |lines[n - 1]|);
      DistinctConcat(Stars(lines, n - 1), RowStars(lines[n - 1], n - 1, |lines[n - 1]|));
    }
  }

  /**
   * The cells part 2 visits are the keys of the symbol map whose symbol is
   * '*', each once: reading order stands in for the map's iteration order.
   */
  lemma StarsAreGears(lines: seq<string>)
    ensures forall p :: p in Stars(lines, |lines|) <==> p in Parsed(lines).symbols && Parsed(lines).symbols[p] == '*'
    ensures Distinct(Stars(lines, |lines|))
  {
    StarsMembers(lines, |lines|);
    ParsedSymbols(lines);
  }

  /** The sum of f over the elements of s. */
  function Sum<T>(s: seq<T>, f: T -> nat): nat
  {
    if s == [] then 0 else f(s[0]) + Sum(s[1..], f)
  }

  lemma {:induction false} SumAppend<T>(a: seq<T>, b: seq<T>, f: T -> nat)
    ensures Sum(a + b, f) == Sum(a, f) + Sum(b, f)
  {
    if a == [] {
      assert a + b == b;
    } else {
      assert (a + b)[1..] == a[1..] + b;
      SumAppend(a[1..], b, f);
    }
  }

  /** Removing the element at i removes one occurrence of it. */
  lemma RemoveAtMultiset<T>(t: seq<T>, i: nat)
    requires i < |t|
    ensures multiset(t[..i] + t[i + 1..]) == multiset(t) - multiset{t[i]}
  {
    assert t == t[..i] + [t[i]] + t[i + 1..];
  }

  /** Dropping the first element removes one occurrence of it. */
  lemma RemoveFirstMultiset<T>(s: seq<T>)
    requires s != []
    ensures multiset(s[1..]) == multiset(s) - multiset{s[0]}
  {
    assert s == [s[0]] + s[1..];
  }

  /** Where the first element of s occurs in its permutation t. */
  lemma MatchFirst<T>(s: seq<T>, t: seq<T>) returns (i: nat)
    requires s != [] && multiset(s) == multiset(t)
    ensures i < |t| && t[i] == s[0]
    ensures multiset(s[1..]) == multiset(t[..i] + t[i + 1..])
  {
    assert s[0] in multiset(t);
    i :| 0 <= i < |t| && t[i] == s[0];
    RemoveFirstMultiset(s);
    RemoveAtMultiset(t, i);
  }

  /** Removing the element at i removes its term from the sum. */
  lemma RemoveAtSum<T>(t: seq<T>, i: nat, f: T -> nat)
    requires i < |t|
    ensures Sum(t, f) == f(t[i]) + Sum(t[..i] + t[i + 1..], f)
  {
    assert t == t[..i] + ([t[i]] + t[i + 1..]);
    SumAppend(t[..i], [t[i]] + t[i + 1..], f);
    SumAppend([t[i]], t[i + 1..], f);
    SumAppend(t[..i], t[i + 1..], f);
  }

  /** A sum does not depend on the order in which the elements are listed. */
  lemma {:induction false} SumReordered<T>(s: seq<T>, t: seq<T>, f: T -> nat)
    requires multiset(s) == multiset(t)
    ensures Sum(s, f) == Sum(t, f)
    decreases |s|
  {
    if s == [] {
      assert |t| == |multiset(t)| == 0;
    } else {
      var i := MatchFirst(s, t);
      SumReordered(s[1..], t[..i] + t[i + 1..], f);
      RemoveAtSum(t, i, f);
    }
  }

  /** What a cell adds to part 2: its gear ratio, or nothing (`filter_map`). */
  function RatioOrZero(ks: seq<Number>): Pos -> nat
  {
    gear => match GearRatio(gear, ks) case Some(r) => r case None => 0
  }

  /** The sum of the gear ratios of the given cells. */
  function SumGearRatios(gears: seq<Pos>, ks: seq<Number>): nat
  {
    Sum(gears, RatioOrZero(ks))
  }

  /**
   * Listing the '*' cells in reading order gives the total that any
   * iteration order of the source's hash map gives.
   */
  lemma GearSumAnyOrder(gears: seq<Pos>, ks: seq<Number>)
    ensures forall order: seq<Pos> :: multiset(order) == multiset(gears) ==>
      SumGearRatios(order, ks) == SumGearRatios(gears, ks)
  {
    forall order: seq<Pos> | multiset(order) == multiset(gears)
      ensures SumGearRatios(order, ks) == SumGearRatios(gears, ks)
    {
      SumReordered(order, gears, RatioOrZero(ks));
    }
  }

  /** `part2`. */
  function Part2(lines: seq<string>): nat
  {
    var s := Parsed(lines);
    SumGearRatios(Stars(lines, |lines|), s.numbers)
  }

  // ---------------------------------------------------------------------------
  // The example schematic

  /** The numbers of the ten-line example grid, in reading order. */
  const ExampleNumbers: seq<Number> := [
    Number(467, 0, 2, 0), Number(114, 5, 7, 0), Number(35, 2, 3, 2), Number(633, 6, 8, 2),
    Number(617, 0, 2, 4), Number(58, 7, 8, 5), Number(592, 2, 4, 6), Number(755, 6, 8, 7),
    Number(664, 1, 3, 9), Number(598, 5, 7, 9)]

  /** Its symbols. */
  const ExampleSymbols: map<Pos, char> :=
    map[(3, 1) := '*', (6, 3) := '#', (3, 4) := '*', (5, 5) := '+', (3, 8) := '$', (5, 8) := '*']

  lemma NotNextToSymbol(k: Number, symbols: map<Pos, char>)
    requires k.xStart <= k.xEnd && forall p :: p in symbols ==> !Adjacent(p, k)
    ensures !IsAdjacentToSymbol(k, symbols)
  {
    AdjacentToSymbolIff(k, symbols);
  }

  /** 114 and 58 are the example's only numbers next to no symbol, so part 1 leaves them out. */
  lemma ExampleLoneNumbers()
    ensures !IsAdjacentToSymbol(ExampleNumbers[1], ExampleSymbols)
    ensures !IsAdjacentToSymbol(ExampleNumbers[5], ExampleSymbols)
  {
    NotNextToSymbol(ExampleNumbers[1], ExampleSymbols);
    NotNextToSymbol(ExampleNumbers[5], ExampleSymbols);
  }

  /** The example's '*' at (3, 1) touches 467 and 35: a gear with ratio 16345. */
  lemma ExampleGearAbove()
    ensures GearRatio((3, 1), ExampleNumbers) == Some(16345)
  {
    GearOfAdjacent((3, 1), ExampleNumbers, 0, 2);
  }

  /** The '*' at (3, 4) touches only 617, so it is no gear. */
  lemma ExampleNoGear()
    ensures GearRatio((3, 4), ExampleNumbers) == None
  {
    NoGearOfOneAdjacent((3, 4), ExampleNumbers, 4);
  }

  /** The '*' at (5, 8) touches 755 and 598: a gear with ratio 451490. */
  lemma ExampleGearBelow()
    ensures GearRatio((5, 8), ExampleNumbers) == Some(451490)
  {
    GearOfAdjacent((5, 8), ExampleNumbers, 7, 9);
  }
}
