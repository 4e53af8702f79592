/**
 * Mirage maintenance (src/bin/day09.rs): each report line is a sequence of
 * integers; the next (or previous) value is found by repeatedly taking
 * differences until the sequence is all zeros and summing back up.
 */
module Day09 {
  import opened Results
  import opened Text

  datatype Error = ParseIntError

  /** `Sequence::create_diff_sequence`: the differences of neighbouring elements (`tuple_windows`). */
  function Diff(s: seq<int>): seq<int>
  {
    if |s| == 0 then [] else seq(|s| - 1, i requires 0 <= i < |s| - 1 => s[i + 1] - s[i])
  }

  /** An n-element sequence (n >= 1) has n - 1 differences, the i-th being s[i+1] - s[i]. */
  lemma DiffShape(s: seq<int>)
    ensures |Diff(s)| == if |s| == 0 then 0 else |s| - 1
    ensures forall i :: 0 <= i < |Diff(s)| ==> Diff(s)[i] == s[i + 1] - s[i]
  {
  }

  /** `Sequence::is_zero`: every element is zero, so the empty sequence is zero. */
  predicate IsZero(s: seq<int>)
  {
    forall i :: 0 <= i < |s| ==> s[i] == 0
  }

  /**
   * `Sequence::extrapolate`: the value that continues the sequence to the right.
   * The recursion ends because a sequence that is not all zeros is not empty,
   * and its differences are one element shorter.
   */
  function Extrapolate(s: seq<int>): int
    decreases |s|
  {
    if IsZero(s) then 0 else s[|s| - 1] + Extrapolate(Diff(s))
  }

  /** `Sequence::extrapolate_backwards`: the value that continues the sequence to the left. */
  function ExtrapolateBackwards(s: seq<int>): int
    decreases |s|
  {
    if IsZero(s) then 0 else s[0] - ExtrapolateBackwards(Diff(s))
  }

  /** The differences of an all-zero sequence are all zero. */
  lemma DiffOfZero(s: seq<int>)
    requires IsZero(s)
    ensures IsZero(Diff(s))
  {
  }

  lemma ExtrapolateStep(s: seq<int>)
    requires |s| > 0
    ensures Extrapolate(s) - s[|s| - 1] == Extrapolate(Diff(s))
  {
    if IsZero(s) {
      DiffOfZero(s);
    }
  }

  lemma ExtrapolateBackwardsStep(s: seq<int>)
    requires |s| > 0
    ensures s[0] - ExtrapolateBackwards(s) == ExtrapolateBackwards(Diff(s))
  {
    if IsZero(s) {
      DiffOfZero(s);
    }
  }

  lemma DiffAppend(s: seq<int>, e: int)
    requires |s| > 0
    ensures Diff(s + [e]) == Diff(s) + [e - s[|s| - 1]]
  {
    var t := s + [e];
    var d := Diff(s);
    var dt := Diff(t);
    assert |dt| == |d| + 1;
    forall i | 0 <= i < |dt| ensures dt[i] == (d + [e - s[|s| - 1]])[i] {
      if i < |d| { assert t[i] == s[i] && t[i + 1] == s[i + 1]; }
    }
  }

  lemma DiffPrepend(s: seq<int>, e: int)
    requires |s| > 0
    ensures Diff([e] + s) == [s[0] - e] + Diff(s)
  {
    var t := [e] + s;
    var d := Diff(s);
    var dt := Diff(t);
    assert |dt| == |d| + 1;
    forall i | 0 <= i < |dt| ensures dt[i] == ([s[0] - e] + d)[i] {
      if i > 0 { assert t[i] == s[i - 1] && t[i + 1] == s[i]; }
    }
  }

  /**
   * The extrapolated value is the one that makes the difference table grow by
   * one column: appending it to the sequence appends the extrapolation of the
   * differences to the differences.
   */
  lemma ExtrapolateExtendsDiff(s: seq<int>)
    requires |s| > 0
    ensures Diff(s + [Extrapolate(s)]) == Diff(s) + [Extrapolate(Diff(s))]
  {
    var e := Extrapolate(s);
    var x := Extrapolate(Diff(s));
    ExtrapolateStep(s);
    assert e - s[|s| - 1] == x;
    DiffAppend(s, e);
  }

  /** Likewise to the left: prepending the backwards extrapolation prepends that of the differences. */
  lemma ExtrapolateBackwardsExtendsDiff(s: seq<int>)
    requires |s| > 0
    ensures Diff([ExtrapolateBackwards(s)] + s) == [ExtrapolateBackwards(Diff(s))] + Diff(s)
  {
    var e := ExtrapolateBackwards(s);
    var x := ExtrapolateBackwards(Diff(s));
    ExtrapolateBackwardsStep(s);
    assert s[0] - e == x;
    DiffPrepend(s, e);
  }

  /** The differences of an arithmetic progression are its common step. */
  lemma DiffOfArithmetic(a: int, d: int, n: nat)
    requires n >= 1
    ensures Diff(seq(n, i => a + i * d)) == seq(n - 1, i => d)
  {
    var s := seq(n, i => a + i * d);
    forall i | 0 <= i < n - 1 ensures Diff(s)[i] == d {
      assert s[i + 1] - s[i] == (a + (i + 1) * d) - (a + i * d);
    }
  }

  /** A non-empty constant sequence is continued by its value, in both directions. */
  lemma ExtrapolateConstant(d: int, m: nat)
    requires m >= 1
    ensures Extrapolate(seq(m, i => d)) == d
    ensures ExtrapolateBackwards(seq(m, i => d)) == d
  {
    var c := seq(m, i => d);
    assert IsZero(Diff(c));
    ExtrapolateStep(c);
    ExtrapolateBackwardsStep(c);
  }

  /** An arithmetic progression of at least two elements is continued by its common step. */
  lemma ExtrapolateArithmetic(a: int, d: int, n: nat)
    requires n >= 2
    ensures Extrapolate(seq(n, i => a + i * d)) == a + n * d
    ensures ExtrapolateBackwards(seq(n, i => a + i * d)) == a - d
  {
    var s := seq(n, i => a + i * d);
    DiffOfArithmetic(a, d, n);
    ExtrapolateConstant(d, n - 1);
    ExtrapolateStep(s);
    ExtrapolateBackwardsStep(s);
    assert s[0] == a;
    assert s[n - 1] == a + (n - 1) * d;
    assert (n - 1) * d + d == n * d;
  }

  /** One field parsed as a 64-bit integer (`str::parse::<i64>`). */
  function ParseNumber(field: string): (r: Result<int, Error>)
    ensures r.Ok? <==> ParseInt(field).Some?
    ensures r.Ok? ==> ParseInt(field) == Some(r.value)
  {
    match ParseInt(field)
    case None => Err(ParseIntError)
    case Some(n) => Ok(n)
  }

  /** `Sequence::from_str`: space-separated 64-bit integers, one per field. */
  function ParseSequence(line: string): (r: Result<seq<int>, Error>)
    ensures r.Ok? <==> forall i :: 0 <= i < |Split(line, " ")| ==> ParseInt(Split(line, " ")[i]).Some?
    ensures r.Ok? ==> |r.value| == |Split(line, " ")|
    ensures r.Ok? ==> forall i :: 0 <= i < |r.value| ==> ParseInt(Split(line, " ")[i]) == Some(r.value[i])
  {
    var fields := Split(line, " ");
    var r := TryCollect(fields, ParseNumber);
    assert forall i :: 0 <= i < |fields| ==> (ParseNumber(fields[i]).Ok? <==> ParseInt(fields[i]).Some?);
    assert r.Ok? ==> forall i :: 0 <= i < |fields| ==> ParseInt(fields[i]) == Some(r.value[i]) by {
      if r.Ok? {
        forall i | 0 <= i < |fields| ensures ParseInt(fields[i]) == Some(r.value[i]) {
          assert ParseNumber(fields[i]) == Ok(r.value[i]);
        }
      }
    }
    r
  }

  /** A sequence written with single spaces between its numbers, as a report line. */
  function ShowSequence(s: seq<int>): string
    requires |s| > 0
  {
    Join(seq(|s|, i requires 0 <= i < |s| => ShowInt(s[i])), " ")
  }

  /** Printing a sequence with single spaces and parsing it back gives the same sequence. */
  lemma ParseSequenceRoundTrip(s: seq<int>)
    requires |s| > 0
    ensures ParseSequence(ShowSequence(s)) == Ok(s)
  {
    var fields := seq(|s|, i requires 0 <= i < |s| => ShowInt(s[i]));
    forall k | 0 <= k < |fields| ensures Avoids(fields[k], ' ') {
      assert fields[k] == ShowInt(s[k]);
      if s[k] < 0 {
        assert forall i :: 1 <= i < |fields[k]| ==> IsDigit(fields[k][i]);
      }
    }
    SplitJoin(fields, " ");
    forall i | 0 <= i < |s| ensures ParseNumber(fields[i]) == Ok(s[i]) {
      ParseIntShowInt(s[i]);
    }
    TryCollectAllOk(fields, ParseNumber, s);
  }

  function SumExtrapolations(seqs: seq<seq<int>>, backwards: bool): int
  {
    if seqs == [] then 0
    else
      var e := if backwards then ExtrapolateBackwards(seqs[0]) else Extrapolate(seqs[0]);
      e + SumExtrapolations(seqs[1..], backwards)
  }

  /**
   * `part1` (backwards = false) and `part2` (backwards = true): an error when
   * some line does not parse, otherwise the sum of the extrapolations of the
   * collected sequences.
   */
  function Solve(lines: seq<string>, backwards: bool): (r: Result<int, Error>)
    ensures r.Err? <==> exists i :: 0 <= i < |lines| && ParseSequence(lines[i]).Err?
    ensures r.Ok? ==> r.value == SumExtrapolations(TryCollect(lines, ParseSequence).value, backwards)
  {
    match TryCollect(lines, ParseSequence)
    case Err(e) => Err(e)
    case Ok(seqs) => Ok(SumExtrapolations(seqs, backwards))
  }

  /** A report whose lines are written sequences solves to the sum of their extrapolations. */
  lemma SolveShown(seqs: seq<seq<int>>, backwards: bool)
    requires forall k :: 0 <= k < |seqs| ==> |seqs[k]| > 0
    ensures Solve(seq(|seqs|, k requires 0 <= k < |seqs| => ShowSequence(seqs[k])), backwards)
              == Ok(SumExtrapolations(seqs, backwards))
  {
    var lines := seq(|seqs|, k requires 0 <= k < |seqs| => ShowSequence(seqs[k]));
    forall k | 0 <= k < |lines| ensures ParseSequence(lines[k]) == Ok(seqs[k]) {
      ParseSequenceRoundTrip(seqs[k]);
    }
    TryCollectAllOk(lines, ParseSequence, seqs);
  }

  const Example: seq<seq<int>> := [[0, 3, 6, 9, 12, 15], [1, 3, 6, 10, 15, 21], [10, 13, 16, 21, 30, 45]]

  lemma ExampleFirst()
    ensures Extrapolate([0, 3, 6, 9, 12, 15]) == 18
    ensures ExtrapolateBackwards([0, 3, 6, 9, 12, 15]) == -3
  {
    ExtrapolateArithmetic(0, 3, 6);
    assert [0, 3, 6, 9, 12, 15] == seq(6, i => 0 + i * 3);
  }

  lemma ExampleSecond()
    ensures Extrapolate([1, 3, 6, 10, 15, 21]) == 28
    ensures ExtrapolateBackwards([1, 3, 6, 10, 15, 21]) == 0
  {
    var s := [1, 3, 6, 10, 15, 21];
    assert Diff(s) == [2, 3, 4, 5, 6];
    ExtrapolateArithmetic(2, 1, 5);
    assert [2, 3, 4, 5, 6] == seq(5, i => 2 + i * 1);
    ExtrapolateStep(s);
    ExtrapolateBackwardsStep(s);
  }

  lemma ExampleThird()
    ensures Extrapolate([10, 13, 16, 21, 30, 45]) == 68
    ensures ExtrapolateBackwards([10, 13, 16, 21, 30, 45]) == 5
  {
    var s := [10, 13, 16, 21, 30, 45];
    var d := [3, 3, 5, 9, 15];
    assert Diff(s) == d;
    assert Diff(d) == [0, 2, 4, 6];
    ExtrapolateArithmetic(0, 2, 4);
    assert [0, 2, 4, 6] == seq(4, i => 0 + i * 2);
    ExtrapolateStep(d);
    ExtrapolateBackwardsStep(d);
    ExtrapolateStep(s);
    ExtrapolateBackwardsStep(s);
  }

  /** The example report sums to 114 forwards and to 2 backwards. */
  lemma ExampleSums()
    ensures SumExtrapolations(Example, false) == 114
    ensures SumExtrapolations(Example, true) == 2
  {
    ExampleFirst();
    ExampleSecond();
    ExampleThird();
    assert Example[1..][1..][1..] == [];
  }

  lemma ShowSequenceCons(x: int, rest: seq<int>)
    requires |rest| > 0
    ensures ShowSequence([x] + rest) == ShowInt(x) + " " + ShowSequence(rest)
  {
    var s := [x] + rest;
    var texts := seq(|s|, i requires 0 <= i < |s| => ShowInt(s[i]));
    assert texts[1..] == seq(|rest|, i requires 0 <= i < |rest| => ShowInt(rest[i]));
  }

  /** Six numbers written out, one after the other. */
  lemma ShowSix(a: int, b: int, c: int, d: int, e: int, f: int)
    ensures ShowSequence([a, b, c, d, e, f])
      == ShowInt(a) + " " + (ShowInt(b) + " " + (ShowInt(c) + " " + (ShowInt(d) + " " + (ShowInt(e) + " " + ShowInt(f)))))
  {
    ShowSequenceCons(a, [b, c, d, e, f]);
    ShowSequenceCons(b, [c, d, e, f]);
    ShowSequenceCons(c, [d, e, f]);
    ShowSequenceCons(d, [e, f]);
    ShowSequenceCons(e, [f]);
    assert [a, b, c, d, e, f] == [a] + [b, c, d, e, f];
    assert [b, c, d, e, f] == [b] + [c, d, e, f];
    assert [c, d, e, f] == [c] + [d, e, f];
    assert [d, e, f] == [d] + [e, f];
    assert [e, f] == [e] + [f];
  }

  /** The example report as its three text lines. */
  const ExampleLines: seq<string> := ["0 3 6 9 12 15", "1 3 6 10 15 21", "10 13 16 21 30 45"]

  lemma ExampleLine0()
    ensures ShowSequence([0, 3, 6, 9, 12, 15]) == "0 3 6 9 12 15"
  {
    ShowSix(0, 3, 6, 9, 12, 15);
  }

  lemma ExampleLine1()
    ensures ShowSequence([1, 3, 6, 10, 15, 21]) == "1 3 6 10 15 21"
  {
    ShowSix(1, 3, 6, 10, 15, 21);
  }

  lemma ExampleLine2()
    ensures ShowSequence([10, 13, 16, 21, 30, 45]) == "10 13 16 21 30 45"
  {
    ShowSix(10, 13, 16, 21, 30, 45);
  }

  lemma ExampleLinesText()
    ensures ExampleLines == seq(|Example|, k requires 0 <= k < |Example| => ShowSequence(Example[k]))
  {
    ExampleLine0();
    ExampleLine1();
    ExampleLine2();
  }

  /** The two tests: the example report gives 114 forwards and 2 backwards. */
  lemma ExampleSolve()
    ensures Solve(ExampleLines, false) == Ok(114)
    ensures Solve(ExampleLines, true) == Ok(2)
  {
    ExampleLinesText();
    SolveShown(Example, false);
    SolveShown(Example, true);
    ExampleSums();
  }
}
