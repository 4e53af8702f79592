# Advent of Code 2023, days 1 to 9, in Dafny

This project models the solvers of the first nine days of the aoc-2023
repository (`src/bin/day01.rs` to `src/bin/day09.rs`). There is one module
per source file, `Day01` to `Day09`, and `Day03Tests` traces the day 3
parsing test through the parser. Two shared modules hold the library
behaviour those files rely on:

- `Results` has `Option`, `Result` and `TryCollect`, which is Rust's
  `collect::<Result<Vec<_>, _>>()`: the first error, or every value. It
  also has `Sum`, Rust's `Iterator::sum` over natural numbers.
- `Text` has decimal `str::parse`, `find`/`rfind`, `split`,
  `split_whitespace`, `strip_prefix` and `replace`.

What each day computes:

- **Day 1, calibration values.** The first and last digit of a line make a
  two-digit number. In part 2 the spelled-out words `one` to `nine` count as
  digits too: the leftmost `find` and the rightmost `rfind` over the
  18-entry `DIGITS` table decide.
- **Day 2, cube games.** Each game is parsed into its draws. Part 1 sums the
  ids of the games possible with 12 red, 13 green and 14 blue cubes. Part 2
  sums the power of each game's componentwise-maximum draw.
- **Day 3, engine schematic.** A character-level state machine splits the
  grid into number spans and symbol cells. Part 1 sums the numbers next to a
  symbol. Part 2 sums, over each `*` with exactly two adjacent numbers, the
  product of those two numbers (its gear ratio).
- **Day 4, scratch cards.** The matches of a card are the size of the
  intersection of its two number sets. Points are `2^(n-1)`. Part 2
  propagates copies to the following cards.
- **Day 5, the almanac.** Seven stages of mapping rules convert a seed to a
  location. Part 1 takes the lowest location over the listed seeds. Part 2
  takes it over every value of the seed ranges.
- **Day 6, boat races.** The distance for a hold time uses saturating
  subtraction; the answer counts the winning hold times.
- **Day 7, Camel Cards.** Cards are ranked under two value tables. Hands are
  classified by their card counts, with joker substitution in part 2, and
  ordered by type, then card by card. Winnings are totalled by rank after
  sorting.
- **Day 8, the left/right network.** A walk with cyclic moves runs until it
  reaches a node ending in `Z`. Part 2 folds the least common multiple over
  all start nodes.
- **Day 9, sequence extrapolation.** Repeated difference sequences are
  extrapolated forwards and backwards.

Each solver's state is modelled in the source's own form:

- Loops over mutable state are methods proved against specification
  functions. These are:
  - the day 5 section parser;
  - the day 3 grid scan and neighbour list;
  - the day 2 draw parser;
  - the day 4 copy accumulator;
  - the day 7 card comparison, joker substitution and in-place sort;
  - the day 8 step loop.
- Iterator chains and recursion are functions with lemmas.

Two points of day 5 worth knowing:

- **Part 2.** `convert_all_seeds_2` enumerates every value of every seed
  range and converts each one; no seed interval is split at rule
  boundaries. `Day05.LowestLocationInRanges` therefore states part 2 as the
  minimum of `ConvertSeed` over the union of the seed ranges.
- **Rule lengths.** The parser never checks that a rule's length is
  positive, so the model accepts a zero-length rule, which matches no value.

## Model

| member | source | states |
|---|---|---|
| Results.TryCollect | src/bin/day01.rs:39-41 | Ok exactly when every item parses, with the values in item order; an Err is the error of the first failing item, every earlier item being Ok |
| Results.TryCollectAllOk | src/bin/day09.rs:41 | when every item parses to the given value, collecting yields exactly those values |
| Text.ParseNatShowNat | src/bin/day02.rs:54 | `parse` reads back the decimal rendering of every natural number |
| Text.ParseIntShowInt | src/bin/day09.rs:41 | signed `parse` reads back the rendering of every integer, negative ones included |
| Text.IndexOf | src/bin/day01.rs:97-99 | `find`: Some(i) is an occurrence with no occurrence to its left; None means the pattern occurs nowhere |
| Text.LastIndexOf | src/bin/day01.rs:101-103 | `rfind`: Some(i) is an occurrence with no occurrence to its right; None means the pattern occurs nowhere |
| Text.Split | src/bin/day09.rs:41 | `split` always yields at least one piece |
| Text.JoinSplit | src/bin/day02.rs:52 | joining the pieces of a split with the separator gives back the string |
| Text.SplitJoin | src/bin/day02.rs:52 | splitting a join of separator-free pieces gives back the pieces |
| Text.SplitPiecesAvoidSeparator | src/bin/day02.rs:52 | no piece of a split contains the separator |
| Text.Words | src/bin/day02.rs:53 | `split_whitespace` yields non-empty pieces without whitespace |
| Text.WordsOfJoin | src/bin/day02.rs:53 | non-empty whitespace-free words joined by single spaces split back into exactly those words |
| Text.WordsCover | src/bin/day02.rs:53 | the words, concatenated, are exactly the non-whitespace characters of the string in order, so none is lost or invented |
| Text.WordsOfTwo | src/bin/day02.rs:53 | two words separated by one space split into exactly those two words |
| Text.StripPrefix | src/bin/day02.rs:85-88 | Some exactly when the string starts with the prefix, and then the string is the prefix followed by the value |
| Text.RemoveAppend | src/bin/day06.rs:119 | removing a character from a concatenation removes it from each part |
| Day01.FirstDigit | src/bin/day01.rs:53 | None exactly when the line has no digit; otherwise a digit character |
| Day01.LastDigit | src/bin/day01.rs:54 | None exactly when the line has no digit; otherwise a digit character |
| Day01.DigitsOfFirst | src/bin/day01.rs:47-53 | the filtered digit list is empty exactly when the line has no digit, and its head is the first digit |
| Day01.DigitsOfLast | src/bin/day01.rs:47-54 | when the line has a digit, the last element of the filtered list is the last digit |
| Day01.FirstAndLastDigits | src/bin/day01.rs:46-57 | `NoDigits` exactly when the line has no digit; otherwise the first and the last digit of the line |
| Day01.SingleDigit | src/bin/day01.rs:46-57 | a line with a single digit yields that digit twice |
| Day01.NumberFromDigits | src/bin/day01.rs:59-61 | two digit characters give 10 times the first plus the second; a non-digit gives a parse error |
| Day01.CalibrationValue | src/bin/day01.rs:38-41 | Ok exactly when the line has a digit; the value is 10 times the first digit plus the last, below 100 |
| Day01.ValueOfPositions | src/bin/day01.rs:46-61 | a digit at i with none before it and a digit at j with none after it give 10·line[i] + line[j] |
| Day01.Part1 | src/bin/day01.rs:36-44 | Ok exactly when every line has a digit, and then the sum of the calibration values; otherwise `NoDigits` |
| Day01.ExamplePart1 | src/bin/day01.rs:139-144 | the first example sums to 142 |
| Day01.MinByKey | src/bin/day01.rs:105-107 | `min_by_key`: None only on an empty list; otherwise an element with the least key, the first such |
| Day01.MaxByKey | src/bin/day01.rs:109-111 | `max_by_key`: None only on an empty list; otherwise an element with the greatest key, the last such |
| Day01.Found | src/bin/day01.rs:95-103 | the `filter_map` keeps exactly the table entries the search finds, paired with the position found |
| Day01.FirstAndLastPatterns | src/bin/day01.rs:94-114 | `NoDigits` exactly when no table pattern occurs; otherwise the digits of the leftmost and of the rightmost pattern occurrence |
| Day01.FirstAndLastDigits2 | src/bin/day01.rs:94-114 | the same over the `DIGITS` table: the leftmost and the rightmost spelled or written digit, overlapping words included |
| Day01.DigitsEntries | src/bin/day01.rs:73-83 | the table has 18 entries, the first nine mapping "1"–"9" to their digits |
| Day01.DigitsWords | src/bin/day01.rs:84-92 | the last nine entries map "one"–"nine" to their digits |
| Day01.PatternSpells | src/bin/day01.rs:73-92 | an occurrence of a table pattern spells that entry's digit at that position |
| Day01.SpelledFirstUnique | src/bin/day01.rs:97-107 | the digit spelled at the leftmost pattern position is unique, so the tie-break among patterns is immaterial |
| Day01.SpelledLastUnique | src/bin/day01.rs:101-111 | the digit spelled at the rightmost pattern position is unique |
| Day01.DigitsOfSpelled | src/bin/day01.rs:94-114 | the leftmost and rightmost spelled digits are the result of the part 2 extraction |
| Day01.CalibrationValue2 | src/bin/day01.rs:63-71 | the only error is `NoDigits`; a value is below 100 |
| Day01.CalibrationValue2Defined | src/bin/day01.rs:94-114 | part 2's calibration value exists exactly when some digit or digit word occurs in the line |
| Day01.ValueOfPatterns | src/bin/day01.rs:94-114 | for any leftmost and rightmost pattern occurrences, wherever they sit in the line, the value is 10 times the digit the leftmost spells plus the digit the rightmost spells |
| Day01.Part2 | src/bin/day01.rs:63-71 | Ok exactly when every line's value exists, and then their sum; otherwise `NoDigits` |
| Day01.Part2Defined | src/bin/day01.rs:63-71 | part 2 succeeds exactly when every line contains a digit or a digit word |
| Day01.Example2Line2 | src/bin/day01.rs:131 | "eightwothree" gives 83: the overlapping "two" does not count as last |
| Day01.Example2Line4 | src/bin/day01.rs:133 | "xtwone3four" gives 24 |
| Day01.Example2Line6 | src/bin/day01.rs:135 | "zoneight234" gives 14 |
| Day01.ExamplePart2 | src/bin/day01.rs:147-151 | the second example sums to 281 |
| Day02.ColourNamed | src/bin/day02.rs:55-60 | the colour word is recognised exactly when it is "red", "green" or "blue" |
| Day02.WithAmount | src/bin/day02.rs:55-58 | assigning a colour sets that colour's amount and leaves the other two unchanged |
| Day02.ParseDrawnCubes | src/bin/day02.rs:44-67 | the loop over the comma-separated parts computes the draw specification `DrawOf` |
| Day02.TallyOk | src/bin/day02.rs:52-64 | the parts parse exactly when each part is a number and a colour word |
| Day02.StopsAtFirstError | src/bin/day02.rs:52-64 | the error reported is that of the first malformed part |
| Day02.TallyUnnamed | src/bin/day02.rs:48-50 | a colour no part names stays at 0 |
| Day02.TallyLastNamed | src/bin/day02.rs:55-58 | a colour named several times takes its last amount |
| Day02.ParsePartShowPart | src/bin/day02.rs:53-60 | "<amount> <colour>" parses back to that colour and amount |
| Day02.DrawOfShowDraw | src/bin/day02.rs:44-67 | every draw parses back from its rendering |
| Day02.ParseGameShowGame | src/bin/day02.rs:76-92 | every game parses back from "Game <id>: <draws>" |
| Day02.ParseGame | src/bin/day02.rs:79-92 | a line that is not two halves around ": ", or whose first half lacks "Game ", is `InvalidGame` with the line; a bad id is the integer error; otherwise the first failing draw's error, or the id and the parsed draws |
| Day02.DrawOfShowParts | src/bin/day02.rs:47-64 | a draw written as any list of parts, in any colour order, with omissions or repeats, parses to the fold of those parts from (0, 0, 0) |
| Day02.ParseGameLine | src/bin/day02.rs:47-92 | a line "Game <id>: <parts>; <parts>; …" parses to that id and one folded draw per handful |
| Day02.ExampleParseGame | src/bin/day02.rs:138-172 | "Game 1: 3 blue, 4 red; 1 red, 2 green, 6 blue; 2 green" parses to game 1 with draws (4, 0, 3), (1, 2, 6) and (0, 2, 0) |
| Day02.ParsedGameHasDraws | src/bin/day02.rs:89 | a parsed game has at least one draw |
| Day02.AllWithin | src/bin/day02.rs:105-109 | a game is possible exactly when every draw is componentwise within the bag; no draws is possible |
| Day02.MinimumDraw | src/bin/day02.rs:121-129 | the fold from (0,0,0) is componentwise at least every draw, and each colour is 0 or the amount of some draw |
| Day02.MinimumIsLeast | src/bin/day02.rs:121-129 | any bag that admits every draw admits the minimum draw |
| Day02.PossibleIffMinimumFits | src/bin/day02.rs:105-129 | a game is possible exactly when its minimum draw fits in the bag |
| Day02.PossibleWithMinimum | src/bin/day02.rs:121-129 | every game is possible under its own minimum draw |
| Day02.SumPossibleIdsAppend | src/bin/day02.rs:95-103 | the part 1 sum over a concatenation is the sum of the parts |
| Day02.ExamplePart1 | src/bin/day02.rs:174-179 | the example games give 8 under (12, 13, 14) |
| Day02.ExamplePart2 | src/bin/day02.rs:181-186 | the example's powers sum to 2286 |
| Day03.Step | src/bin/day03.rs:57-91 | one character of the scan keeps the open span made of digits ending at the current column |
| Day03.ScanLine | src/bin/day03.rs:56-92 | the span open after scanning a prefix consists of digits |
| Day03.ParseEngineSchematic | src/bin/day03.rs:49-105 | the nested loops compute the scan specification `Parsed` |
| Day03.ScanRowFinds | src/bin/day03.rs:56-101 | one row yields exactly its maximal digit runs, the last closed at the end of the line, and its symbol cells |
| Day03.ScanRowsFinds | src/bin/day03.rs:53-103 | the rows scanned so far yield exactly their numbers and symbols |
| Day03.RowsInOrder | src/bin/day03.rs:53-103 | numbers are recorded in reading order |
| Day03.ParsedNumbers | src/bin/day03.rs:49-105 | a number is recorded exactly when it is a maximal digit run of the grid, and in reading order |
| Day03.ParsedSymbols | src/bin/day03.rs:77-88 | a cell is a recorded symbol exactly when it holds neither a digit nor '.', and it maps to that character |
| Day03Tests.Read123 | src/bin/day03.rs:56-78 | reading the digits 1, 2, 3 with no number open leaves an open span "123" started at the first of them |
| Day03Tests.TestRow0Scan | src/bin/day03.rs:49-105 | "123.123#123" gives numbers at columns 0–2, 4–6 and 8–10 and the symbol '#' at column 7; the last number is closed by the end of the line |
| Day03Tests.TestRow1Scan | src/bin/day03.rs:49-105 | "..123.123.#.123" gives numbers at columns 2–4, 6–8 and 12–14 of row 1 and the symbol '#' at column 10 |
| Day03Tests.ExampleParse | src/bin/day03.rs:184-231 | the two test lines give the six numbers in reading order and the two symbols |
| Day03.CellsMembers | src/bin/day03.rs:126-142 | a row segment holds exactly the cells of that row between its bounds |
| Day03.ExtendCells | src/bin/day03.rs:126-142 | the `extend` loop appends exactly that segment |
| Day03.GetNeighbours | src/bin/day03.rs:118-145 | the pushes and extends build the neighbour list `Neighbours` |
| Day03.NeighboursAdjacent | src/bin/day03.rs:118-145 | a cell is a neighbour exactly when it touches the span, and never a cell of the span itself |
| Day03.NeighboursDistinct | src/bin/day03.rs:118-145 | no neighbour is listed twice |
| Day03.NeighboursOfCorner | src/bin/day03.rs:233-244 | the one-cell number at (0,0) has neighbours [(0,1),(1,1),(1,0)] |
| Day03.NeighboursOfInterior | src/bin/day03.rs:246-257 | an interior three-wide number has 12 neighbours |
| Day03.AdjacentToSymbolIff | src/bin/day03.rs:147-154 | a number is adjacent to a symbol exactly when some symbol cell touches it |
| Day03.FilterAppend | src/bin/day03.rs:168-171 | filtering a concatenation filters each part |
| Day03.FilterTwo | src/bin/day03.rs:168-171 | a filter with exactly two results keeps exactly two positions |
| Day03.TouchesGearIff | src/bin/day03.rs:170 | the filter keeps a number exactly when the gear is among its neighbours |
| Day03.GearRatioIff | src/bin/day03.rs:167-175 | Some exactly when exactly two numbers touch the gear, and then the product of those two |
| Day03.GearOfAdjacent | src/bin/day03.rs:167-175 | two touching numbers and no other give their product |
| Day03.NoGearOfOneAdjacent | src/bin/day03.rs:167-175 | a single touching number gives None |
| Day03.StarsAreGears | src/bin/day03.rs:156-165 | the '*' cells in reading order are exactly the recorded symbols equal to '*', each once |
| Day03.SumReordered | src/bin/day03.rs:156-165 | a sum over a list does not depend on the order of its elements |
| Day03.GearSumAnyOrder | src/bin/day03.rs:159-164 | the part 2 sum is the same for any order of the map's '*' cells |
| Day03.ExampleLoneNumbers | src/bin/day03.rs:260-271 | 114 and 58 in the example touch no symbol |
| Day03.ExampleGearAbove | src/bin/day03.rs:260-271 | the '*' at (3,1) has ratio 467·35 = 16345 |
| Day03.ExampleNoGear | src/bin/day03.rs:260-271 | the '*' at (3,4) touches one number and has no ratio |
| Day03.ExampleGearBelow | src/bin/day03.rs:260-271 | the '*' at (5,8) has ratio 755·598 = 451490 |
| Day04.CountMatches | src/bin/day04.rs:84-86 | the matches are the size of the intersection, at most the size of either set |
| Day04.CountMatchesSymmetric | src/bin/day04.rs:84-86 | swapping the two number sets does not change the matches |
| Day04.PointsFor | src/bin/day04.rs:88-96 | 0 points exactly when there are no matches, otherwise 2^(matches-1) |
| Day04.PointsDouble | src/bin/day04.rs:88-96 | one match is worth 1 and every further match doubles the points |
| Day04.PointsBound | src/bin/day04.rs:84-96 | a card scores at most 2^(n-1) points when either of its sides has n numbers |
| Day04.PointsBoundReached | src/bin/day04.rs:84-96 | a card whose two sides list the same n numbers scores exactly 2^(n-1), so the bound is tight |
| Day04.SumPointsPositive | src/bin/day04.rs:99-105 | the points total is positive exactly when some card has a match |
| Day04.Part1 | src/bin/day04.rs:99-105 | the first parse error, or the total of the points |
| Day04.Outcomes | src/bin/day04.rs:108-120 | one outcome per card, holding the card's id and its matches |
| Day04.Multiplier | src/bin/day04.rs:115 | a card contributes at least one instance |
| Day04.TotalAtLeastCards | src/bin/day04.rs:114-128 | the total number of instances is at least the number of cards |
| Day04.NoMatchesNoCopies | src/bin/day04.rs:114-128 | without matches no copies are made and the total is the number of cards |
| Day04.CountInstances | src/bin/day04.rs:110-128 | the loops over the copies map compute the copy-propagation specification `TotalBefore` |
| Day04.Part2 | src/bin/day04.rs:107-129 | the first parse error, or that total, which is at least the number of lines |
| Day04.ExamplePart1 | src/bin/day04.rs:160-165 | the example is worth 13 points |
| Day04.ExamplePart2 | src/bin/day04.rs:167-172 | the example ends with 30 cards |
| Day05.Apply | src/bin/day05.rs:45-51 | None exactly when the value is outside the half-open source interval; otherwise the value moved by the rule's offset, inside the destination interval |
| Day05.ApplyReverse | src/bin/day05.rs:45-51 | the rule with source and destination swapped undoes a match |
| Day05.ApplyExample | src/bin/day05.rs:278-289 | rule (50,98,2) maps 0→None, 98→50, 99→51, 100→None |
| Day05.ApplyAllNoMatch | src/bin/day05.rs:54-59 | no matching rule leaves the value unchanged, so no rules is the identity |
| Day05.ApplyAllFirstMatch | src/bin/day05.rs:54-59 | the first matching rule in list order decides |
| Day05.ApplyAllExample | src/bin/day05.rs:292-310 | the seed-to-soil rules map 79→81, 14→14, 55→57, 13→13 |
| Day05.ConvertSeedIsPipeline | src/bin/day05.rs:91-100 | converting a seed composes the seven stages from seed to location |
| Day05.EmptyStagesAreIdentity | src/bin/day05.rs:91-100 | stages without rules leave a seed unchanged |
| Day05.Min | src/bin/day05.rs:174-190 | the minimum is None only on an empty list, and otherwise an element no greater than any other |
| Day05.ConvertAllSeeds | src/bin/day05.rs:102-104 | one location per seed, in order |
| Day05.LowestLocation | src/bin/day05.rs:174-181 | `InvalidAlmanac` exactly when there are no seeds; otherwise the least location of a listed seed |
| Day05.SeedRanges | src/bin/day05.rs:110 | the seeds paired consecutively as (start, length); an odd last seed is dropped |
| Day05.RangeValues | src/bin/day05.rs:111 | a range yields exactly the values from its start below start + length |
| Day05.Enumerate | src/bin/day05.rs:106-114 | the enumeration holds exactly the values of some range |
| Day05.AllSeeds2 | src/bin/day05.rs:106-114 | part 2's seeds are exactly the values in the seed ranges |
| Day05.LowestLocationInRanges | src/bin/day05.rs:183-190 | `InvalidAlmanac` exactly when the ranges are empty; otherwise the least location over every seed value in a range, attained by one |
| Day05.ParseAlmanacMap | src/bin/day05.rs:61-76 | a line not of three space-separated parts is `InvalidAlmanacMap`; otherwise the three numbers, or a parse error |
| Day05.ParseAlmanacMapRoundTrip | src/bin/day05.rs:61-76 | every rule parses back from its rendering |
| Day05.ParseNats | src/bin/day05.rs:123-127 | the seed numbers parse exactly when every field is a number |
| Day05.ReadUntilBlank | src/bin/day05.rs:141-148 | reading rule lines stops at the end or just past a blank line |
| Day05.RulesFromParsesEachLine | src/bin/day05.rs:141-148 | every line read is non-blank and parses to the rule collected for it |
| Day05.Section | src/bin/day05.rs:133-151 | a section succeeds exactly when its exact header is at the position and its rule lines parse; a missing header is `InvalidAlmanac` |
| Day05.ReadRules | src/bin/day05.rs:141-148 | the loop pushing rules computes the rule-reading specification `RulesFrom` |
| Day05.ParseMaps | src/bin/day05.rs:133-151 | `parse_maps` computes the section specification `Section` |
| Day05.ParseSections | src/bin/day05.rs:153-159 | the seven sections, in header order, are the specification `SectionsFrom` |
| Day05.AlmanacOf | src/bin/day05.rs:117-172 | no "seeds: " first line is `InvalidAlmanac`; success means a blank second line, the third line the first header, and seeds read from the first line |
| Day05.AlmanacOfSeedErrors | src/bin/day05.rs:123-131 | after "seeds: ", seeds that do not parse are `ParseIntError`, and a missing or non-blank second line is `InvalidAlmanac` |
| Day05.AlmanacOfSections | src/bin/day05.rs:133-172 | past the seeds and the blank line, the first failing section's error is the result; when all seven parse, the almanac's seven map lists are those sections in header order |
| Day05.AlmanacOfOk | src/bin/day05.rs:117-172 | an almanac is read exactly when the seeds parse, the second line is blank and all seven sections parse |
| Day05.ParseAlmanac | src/bin/day05.rs:117-172 | the parser that advances the shared line position computes `AlmanacOf` |
| Day05.ParseAlmanacRoundTrip | src/bin/day05.rs:117-172 | every almanac parses back from its rendering with headers and blank separators |
| Day05.Part1 | src/bin/day05.rs:174-181 | the parse error, or the lowest location of the listed seeds |
| Day05.Part2 | src/bin/day05.rs:183-190 | the parse error, or the lowest location over the seed ranges |
| Day05.Part1Example | src/bin/day05.rs:349-354 | the example's lowest location is 35 |
| Day05.Part2Example | src/bin/day05.rs:356-361 | the example's lowest location over the ranges is 46 |
| Day06.Distance | src/bin/day06.rs:45-50 | 0 when held ≥ the time allowed, otherwise held · (time − held) |
| Day06.DistanceSymmetric | src/bin/day06.rs:45-50 | holding h and holding time − h go the same distance |
| Day06.CountWinsIsSize | src/bin/day06.rs:52-57 | the count is the number of hold times in [1, n) that beat the record |
| Day06.WaysToWin | src/bin/day06.rs:52-57 | the ways to win are the number of winning hold times in [1, time) |
| Day06.WinsInside | src/bin/day06.rs:52-57 | a winning hold time lies strictly between 0 and the time allowed |
| Day06.WinsContiguous | src/bin/day06.rs:52-57 | the winning hold times form an interval |
| Day06.WaysToWinInterval | src/bin/day06.rs:52-57 | when the winning times are exactly [lo, hi], there are hi − lo + 1 ways |
| Day06.NumberOf | src/bin/day06.rs:78-79 | a field parses exactly when it is a number, else `ParseIntError` |
| Day06.Zip | src/bin/day06.rs:91-96 | races pair times and records positionally, as many as the shorter list |
| Day06.ParseRaces | src/bin/day06.rs:63-100 | not two lines, or a missing "Time:" prefix, is `InvalidRaces`; then a bad time is `ParseIntError`; once the times parse, a missing "Distance:" prefix is `InvalidRaces` and a bad distance `ParseIntError`; success means both number lists parse and are zipped |
| Day06.ParseNumbersColumns | src/bin/day06.rs:71-89 | space-aligned columns of numbers parse back to the numbers |
| Day06.ParseRacesShowRaces | src/bin/day06.rs:63-100 | the two-line rendering of races parses back to the races |
| Day06.ParseRacesNoRaces | src/bin/day06.rs:63-100 | lines with no numbers fail with a parse error |
| Day06.ParseRace2 | src/bin/day06.rs:112-131 | the same shape errors; a success reads the time and the record with all spaces removed |
| Day06.ParseRace2ShowRaces | src/bin/day06.rs:112-131 | the single race concatenates the digits of every column |
| Day06.ProductOfWays | src/bin/day06.rs:102-110 | the product is 0 exactly when some race cannot be won |
| Day06.Part1 | src/bin/day06.rs:102-110 | the parse error, or the product of the ways over the races |
| Day06.Part2 | src/bin/day06.rs:133-137 | the parse error, or the ways to win the concatenated race |
| Day06.ExampleParses | src/bin/day06.rs:151-171 | the example parses to races (7,9), (15,40), (30,200) |
| Day06.ExampleWays | src/bin/day06.rs:173-178 | those races have 4, 8 and 9 ways to win |
| Day06.ExamplePart1 | src/bin/day06.rs:173-178 | part 1 of the example is 288 |
| Day06.LongRaceWays | src/bin/day06.rs:180-185 | the race (71530, 940200) has 71503 ways to win |
| Day06.ExamplePart2 | src/bin/day06.rs:180-185 | part 2 reads that race from the example and gives 71503 |
| Day07.CardOf | src/bin/day07.rs:55-76 | an unknown character is `InvalidCard` with that character |
| Day07.CardOfAccepts | src/bin/day07.rs:55-76 | exactly the 13 characters 2–9, T, J, Q, K, A are cards, each its own card |
| Day07.StandardValues | src/bin/day07.rs:79-95 | standard values run 2 to 14 in card order |
| Day07.JokerValues | src/bin/day07.rs:101-117 | under joker rules J is below every other card and the others keep their order |
| Day07.ValueInjective | src/bin/day07.rs:79-117 | no two cards share a value under either table |
| Day07.Compare | src/bin/day07.rs:97-121 | the comparison result agrees with <, = and > on the values |
| Day07.CompareCardsEqual | src/bin/day07.rs:124-144 | Equal exactly when every zipped position ties |
| Day07.CompareCardsFirstDifference | src/bin/day07.rs:124-144 | the first zipped position whose values differ decides |
| Day07.CompareCardsFlip | src/bin/day07.rs:124-144 | swapping the arguments flips the result |
| Day07.CompareCardsTransitive | src/bin/day07.rs:124-144 | the card comparison is transitive |
| Day07.CompareCardsLoop | src/bin/day07.rs:124-144 | the loop with its early return computes the lexicographic comparison |
| Day07.ParseCards | src/bin/day07.rs:153 | Ok exactly when every character is a card; otherwise the first invalid character |
| Day07.ParseHand | src/bin/day07.rs:149-160 | a hand is accepted exactly when it is five valid cards |
| Day07.CountsOfGet | src/bin/day07.rs:189-191 | the counts map holds each card's number of occurrences, and only cards that occur |
| Day07.TotalOfCounts | src/bin/day07.rs:189-191 | the counts add up to the number of cards |
| Day07.ProfileProperties | src/bin/day07.rs:173-180 | the sorted count list is sorted, positive and sums to the total |
| Day07.ProfileShape | src/bin/day07.rs:173-186 | its length is the number of distinct cards and its last element the largest count |
| Day07.FiveParts | src/bin/day07.rs:173-186 | for five cards the sorted counts are one of the seven partitions of 5, so the panic arm is unreachable |
| Day07.HandTypeMeaning | src/bin/day07.rs:173-186 | each hand type holds exactly when the largest count and the number of distinct cards are those of that type |
| Day07.ExampleHandType1 | src/bin/day07.rs:277-281 | "QQQJA" is three of a kind |
| Day07.Substituted | src/bin/day07.rs:208-212 | substituting jokers keeps the counted cards |
| Day07.SubstitutedTotal | src/bin/day07.rs:208-212 | a substitution keeps the total count |
| Day07.SubstituteCounts | src/bin/day07.rs:208-212 | the loop on the cloned counts computes the substitution specification `Substituted` |
| Day07.SubstituteJokersForJokers | src/bin/day07.rs:204-215 | replacing jokers by jokers changes nothing |
| Day07.TuplesComplete | src/bin/day07.rs:204-207 | every choice of replacement cards is among the tuples tried |
| Day07.MaxType | src/bin/day07.rs:216-220 | the best type tried is one of them and ranks at least every other |
| Day07.BestSubstitutedType | src/bin/day07.rs:201-222 | the result ranks at least every substitution and is attained by one |
| Day07.HandType2WithoutJokers | src/bin/day07.rs:201-203 | without a joker the joker type is the standard type |
| Day07.HandType2IsBest | src/bin/day07.rs:201-222 | the joker type is the best over all substitutions of the jokers, and attained |
| Day07.HandType2AtLeastHandType1 | src/bin/day07.rs:201-222 | the joker type is never below the standard type |
| Day07.ExampleHandType2 | src/bin/day07.rs:296-300 | "QJJQ2" is four of a kind under joker rules |
| Day07.CompareHandsByType | src/bin/day07.rs:193-199 | a stronger type wins whatever the cards |
| Day07.SameTypeFirstCard | src/bin/day07.rs:193-230 | with equal types the cards decide |
| Day07.CompareHandsFlip | src/bin/day07.rs:193-230 | swapping the hands flips the result |
| Day07.CompareHandsEqual | src/bin/day07.rs:193-230 | Equal exactly when the hands are the same |
| Day07.CompareHandsTransitive | src/bin/day07.rs:193-230 | the hand comparison is transitive |
| Day07.ExampleCompareHands1 | src/bin/day07.rs:283-294 | "33332" beats "2AAAA" |
| Day07.ExampleCompareHands2 | src/bin/day07.rs:283-294 | "77888" beats "77788" |
| Day07.ExampleCompareHands3 | src/bin/day07.rs:302-308 | under joker rules "QQQQ2" beats "JKKK2" |
| Day07.ParseHandAndBid | src/bin/day07.rs:233-240 | not two space-separated parts is `InvalidBid`; otherwise Ok exactly when the hand and the bid parse |
| Day07.ParseHandAndBidRoundTrip | src/bin/day07.rs:233-240 | every hand and bid parse back from "<cards> <bid>" |
| Day07.ParseHandsAndBids | src/bin/day07.rs:242-244 | Ok exactly when every line parses, with one entry per line |
| Day07.SortByHand | src/bin/day07.rs:250 | the in-place sort leaves the entries sorted weakest first and a permutation of the input |
| Day07.SumWinnings | src/bin/day07.rs:252-256 | the loop computes the sum of (rank + 1) · bid |
| Day07.GetTotalWinnings | src/bin/day07.rs:246-257 | sorts in place and returns the winnings of the sorted entries |
| Day07.SortedUnique | src/bin/day07.rs:246-257 | without repeated hands there is one sorted order, so the total does not depend on tie-breaking |
| Day07.Solve | src/bin/day07.rs:259-269 | the parse error, or the winnings of the parsed entries sorted by the chosen rules |
| Day08.MoveOf | src/bin/day08.rs:42-48 | 'L' is Left, 'R' is Right, anything else `InvalidMove` |
| Day08.ParseMovesAccepts | src/bin/day08.rs:75 | the move line parses exactly when it is made of 'L' and 'R' |
| Day08.ParseMovesShowMoves | src/bin/day08.rs:75 | every move list parses back from its rendering |
| Day08.NetworkOf | src/bin/day08.rs:76-79 | the network's keys are exactly the entries' nodes |
| Day08.NetworkOfLastEntry | src/bin/day08.rs:76-79 | a node listed twice keeps its last entry |
| Day08.ParseMap | src/bin/day08.rs:69-86 | fewer than two lines or a non-empty second line is `InvalidMap`; otherwise the move error or the map of moves and entries |
| Day08.MoveAt | src/bin/day08.rs:89-91 | within the first lap the move is the listed one |
| Day08.MoveAtPeriodic | src/bin/day08.rs:89-91 | moves repeat with period the number of moves |
| Day08.NextPosition | src/bin/day08.rs:93-100 | Left takes the entry's left child, Right its right child |
| Day08.WalkStep | src/bin/day08.rs:104-112 | one step of the walk applies the move at that step |
| Day08.FirstEnd | src/bin/day08.rs:103-113 | the least step count reaching a node ending in 'Z', passing only nodes that do not |
| Day08.FirstEndUnique | src/bin/day08.rs:103-113 | that step count is unique |
| Day08.StepsToEnd | src/bin/day08.rs:103-113 | the while loop returns that least step count |
| Day08.GcdDivides | src/bin/day08.rs:122 | the gcd divides both arguments |
| Day08.LcmIsMultiple | src/bin/day08.rs:122 | the lcm is a multiple of both arguments |
| Day08.LcmFoldMultiple | src/bin/day08.rs:122 | the fold from 1 is a multiple of every step count |
| Day08.LcmFoldPositive | src/bin/day08.rs:122 | the fold of positive counts is positive |
| Day08.StepsToEnd2 | src/bin/day08.rs:115-123 | the loop computes the lcm fold of the step counts; with no starts it is 1 and reads no move |
| Day08.Part1 | src/bin/day08.rs:125-129 | the parse error, or the steps from "AAA" to a 'Z' node |
| Day08.InSomeOrder | src/bin/day08.rs:134 | the listed start nodes are exactly the map's keys, in some order |
| Day08.Part2 | src/bin/day08.rs:131-137 | the parse error, or a positive multiple of every start's step count obtained by folding them in some order; `Ok(1)` when no node ends in 'A', whether or not there are moves |
| Day08.EmptyMapHasNoStarts | src/bin/day08.rs:69-86 | two empty lines parse to a map with no moves and no nodes, which has no start nodes, so part 2 gives `Ok(1)` there |
| Day08.ParseExample | src/bin/day08.rs:154-169 | the first example parses to the moves "LLR" and its network |
| Day08.Example1Steps | src/bin/day08.rs:171-176 | the first example takes 6 steps |
| Day08.Example2Part2 | src/bin/day08.rs:191-196 | the second example gives 6 whatever the order of the starts |
| Day09.DiffShape | src/bin/day09.rs:48-57 | n elements give n − 1 differences, the i-th being s[i+1] − s[i] |
| Day09.DiffOfZero | src/bin/day09.rs:59-61 | an all-zero sequence has all-zero differences |
| Day09.ExtrapolateStep | src/bin/day09.rs:63-72 | the next value is the last value plus the extrapolated difference |
| Day09.ExtrapolateBackwardsStep | src/bin/day09.rs:74-83 | the previous value is the first value minus the backwards-extrapolated difference |
| Day09.ExtrapolateExtendsDiff | src/bin/day09.rs:63-72 | appending the extrapolated value appends the extrapolated difference |
| Day09.ExtrapolateBackwardsExtendsDiff | src/bin/day09.rs:74-83 | prepending the backwards value prepends the backwards difference |
| Day09.ExtrapolateArithmetic | src/bin/day09.rs:63-83 | an arithmetic sequence continues with its next and previous terms |
| Day09.ParseNumber | src/bin/day09.rs:41 | a field is accepted exactly when it is a signed decimal integer, and gives that integer |
| Day09.ParseSequence | src/bin/day09.rs:40-44 | Ok exactly when every space-separated field is an integer, with one integer per field in order |
| Day09.ParseSequenceRoundTrip | src/bin/day09.rs:40-44 | every sequence parses back from its numbers written with single spaces |
| Day09.Solve | src/bin/day09.rs:86-99 | an error exactly when some line fails to parse; otherwise the sum of the extrapolations of the parsed sequences |
| Day09.SolveShown | src/bin/day09.rs:86-99 | lines that are renderings of non-empty sequences give the sum of those sequences' extrapolations |
| Day09.ExampleSecond | src/bin/day09.rs:108-112 | 1 3 6 10 15 21 extrapolates to 28 and back to 0 |
| Day09.ExampleSums | src/bin/day09.rs:114-126 | the example sequences' extrapolations sum to 114 forwards and 2 backwards |
| Day09.ExampleSolve | src/bin/day09.rs:107-126 | the three example lines give 114 in part 1 and 2 in part 2 |

## Left out

- Reading the input file, `main`, printing and `INPUT_PATH` are not modelled; every part takes the lines as a parameter.
- Machine integers are unbounded `nat`/`int`. Overflow of `usize`/`i64` is not modelled: `source_start + length` in day 5, the copy counts and `2usize.pow` in day 4, and the sums.
- Numbers are parsed as ASCII decimal digits with an optional leading '+', or '+' or '-' for signed numbers, as `str::parse` accepts them. Only its range limits (`usize`, `i64`) are not modelled.
- Day01: `char::is_numeric` is modelled as ASCII '0'–'9'; other Unicode numerals are not modelled.
- Day04: the regular-expression card parser is a parameter of `Part1`/`Part2`, so the card-parsing test is not modelled.
- Day08: the regular-expression entry parser `parse_network_entry` is a parameter of `ParseMap`.
- Day06: the regular expression `\s+` is modelled as splitting on ASCII whitespace.
- Day08.StepsToEnd: requires that a node ending in 'Z' is reachable. Otherwise the source loops forever or panics on a missing key; neither outcome is modelled. `StepsToEnd` and `Part1` also require at least one move, because the source panics on `steps % self.moves.len()` (src/bin/day08.rs:90) when there are none. `Part2` requires a move only when some node ends in 'A'; with no such node it returns `Ok(1)` and reads no move, as the source does.
- Day08.Part2: HashMap iteration order is modelled as some listing of the start nodes. The result is proved positive and a common multiple of every step count, not the least one.
- Day03: the '*' cells come in reading order where the source iterates a HashMap; `Day03.GearSumAnyOrder` shows the sum is the same in every order.
- Day03: the totals 4361 and 467835 of the full example are not proved. Single gears and numbers of the example are proved instead.
- Day07: the example totals 6440 and 5905 are not proved.
- Day07: `sort_unstable_by` may place equal hands in any order. The model proves the sorted order is unique when no hand repeats; the order of repeated hands with different bids is not modelled.
- Day05: the parse test's literal almanac is covered by `Day05.ParseAlmanacRoundTrip`, not checked literally.
- Day05: the cost of enumerating every seed in part 2 is not modelled; the answer is stated as a minimum over a set.
- Day02: of the five example lines only the first is proved to parse (`Day02.ExampleParseGame`); the part 1 and part 2 example lemmas start from the five parsed games.
- Day02.Part1, Day02.Part2, Day03.Part1 and Day03.Part2 carry no contract of their own; their sums are stated through `SumPossibleIds`, `SumPowers`, the adjacency and gear-ratio lemmas, and the example lemmas.
