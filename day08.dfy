/**
 * Day 8: a walk through a network of nodes. The first input line lists left
 * and right moves, repeated for as long as needed; the rest of the input gives
 * each node's left and right neighbour. Part 1 counts the steps from `AAA` to
 * the first node whose name ends in `Z`; part 2 starts from every node whose
 * name ends in `A` and combines the step counts with a least-common-multiple
 * fold.
 */
module Day08 {
  import opened Results
  import opened Text

  datatype Move = Left | Right

  /** The solver's errors (`AocError` without its I/O case). */
  datatype Error = InvalidMove(move: char) | InvalidNetworkEntry(line: string) | InvalidMap(text: string)

  /** A network entry: a node and its left and right neighbours. */
  type Entry = (string, (string, string))

  datatype Map = Map(moves: seq<Move>, network: map<string, (string, string)>)

  // ---------------------------------------------------------------------------
  // Parsing

  /** `Move::try_from`: `L` and `R` are the only moves. */
  function MoveOf(c: char): (r: Result<Move, Error>)
    ensures r == Ok(Left) <==> c == 'L'
    ensures r == Ok(Right) <==> c == 'R'
    ensures r.Err? <==> r == Err(InvalidMove(c))
  {
    match c
    case 'L' => Ok(Left)
    case 'R' => Ok(Right)
    case _ => Err(InvalidMove(c))
  }

  function MoveChar(m: Move): char
  {
    match m
    case Left => 'L'
    case Right => 'R'
  }

  /** The moves line: every character a move, or the first character that is not. */
  function ParseMoves(line: string): Result<seq<Move>, Error>
  {
    TryCollect(line, MoveOf)
  }

  lemma ParseMovesAccepts(line: string)
    ensures ParseMoves(line).Ok? <==> forall i :: 0 <= i < |line| ==> line[i] == 'L' || line[i] == 'R'
    ensures ParseMoves(line).Err? ==>
      exists i :: 0 <= i < |line| && line[i] != 'L' && line[i] != 'R' && ParseMoves(line) == Err(InvalidMove(line[i]))
        && forall j :: 0 <= j < i ==> line[j] == 'L' || line[j] == 'R'
  {
    var r := ParseMoves(line);
    if r.Err? {
      var i :| 0 <= i < |line| && MoveOf(line[i]).Err? && r.error == MoveOf(line[i]).error
        && forall j :: 0 <= j < i ==> MoveOf(line[j]).Ok?;
      assert r == Err(InvalidMove(line[i]));
    }
  }

  function ShowMoves(moves: seq<Move>): (r: string)
    ensures |r| == |moves|
  {
    seq(|moves|, i requires 0 <= i < |moves| => MoveChar(moves[i]))
  }

  /** Printing moves and parsing them back gives the same moves. */
  lemma ParseMovesShowMoves(moves: seq<Move>)
    ensures ParseMoves(ShowMoves(moves)) == Ok(moves)
  {
    var line := ShowMoves(moves);
    assert forall i :: 0 <= i < |line| ==> MoveOf(line[i]) == Ok(moves[i]);
    var r := ParseMoves(line);
    assert r.Ok? && |r.value| == |moves|;
    assert r.value == moves;
  }

  /** Collecting entries into a map: a node listed twice keeps its last entry. */
  function NetworkOf(entries: seq<Entry>): (r: map<string, (string, string)>)
    ensures forall k :: k in r <==> exists i :: 0 <= i < |entries| && entries[i].0 == k
    decreases |entries|
  {
    if entries == [] then map[]
    else
      var n := |entries| - 1;
      var r := NetworkOf(entries[..n])[entries[n].0 := entries[n].1];
      assert forall i :: 0 <= i < n ==> entries[..n][i] == entries[i];
      r
  }

  /** The value of a node is its last entry's. */
  lemma {:induction false} NetworkOfLastEntry(entries: seq<Entry>, i: nat)
    requires i < |entries|
    requires forall j :: i < j < |entries| ==> entries[j].0 != entries[i].0
    ensures entries[i].0 in NetworkOf(entries)
    ensures NetworkOf(entries)[entries[i].0] == entries[i].1
    decreases |entries|
  {
    var n := |entries| - 1;
    var prefix := entries[..n];
    assert NetworkOf(entries) == NetworkOf(prefix)[entries[n].0 := entries[n].1];
    if i < n {
      assert prefix[i] == entries[i];
      forall j | i < j < n
        ensures prefix[j].0 != prefix[i].0
      {
        assert prefix[j] == entries[j];
      }
      NetworkOfLastEntry(prefix, i);
    }
  }

  /** `value.join("\n")`: the lines of a malformed input, for the error message. */
  function JoinLines(lines: seq<string>): string
  {
    if lines == [] then "" else Join(lines, "\n")
  }

  /**
   * `Map::try_from`: the moves line, an empty line, then the network entries.
   * The entry parser (a regular expression in the program) is the parameter
   * `entry`.
   */
  function ParseMap(lines: seq<string>, entry: string -> Result<Entry, Error>): (r: Result<Map, Error>)
    ensures (|lines| < 2 || lines[1] != "") ==> r == Err(InvalidMap(JoinLines(lines)))
    ensures |lines| >= 2 && lines[1] == "" && ParseMoves(lines[0]).Err? ==> r == Err(ParseMoves(lines[0]).error)
    ensures |lines| >= 2 && lines[1] == "" && ParseMoves(lines[0]).Ok? ==>
      r == match TryCollect(lines[2..], entry)
        case Err(e) => Err(e)
        case Ok(entries) => Ok(Map(ParseMoves(lines[0]).value, NetworkOf(entries)))
  {
    if |lines| < 2 || lines[1] != "" then Err(InvalidMap(JoinLines(lines)))
    else
      var moves :- ParseMoves(lines[0]);
      var entries :- TryCollect(lines[2..], entry);
      Ok(Map(moves, NetworkOf(entries)))
  }

  // ---------------------------------------------------------------------------
  // Walking the network

  /** `get_move_at`: the moves repeat, so step `steps` uses move `steps % |moves|`. */
  function MoveAt(m: Map, steps: nat): (r: Move)
    requires |m.moves| > 0
    ensures steps < |m.moves| ==> r == m.moves[steps]
  {
    m.moves[steps % |m.moves|]
  }

  lemma MulAtLeast(g: nat, d: int)
    requires d >= 1
    ensures g * d >= g
  {
    assert g * d == g + g * (d - 1);
  }

  /** Euclidean division is unique: a quotient and remainder in range are `x / n` and `x % n`. */
  lemma DivModUnique(n: nat, x: nat, q: nat, r: nat)
    requires 0 <= r < n && x == n * q + r
    ensures x / n == q && x % n == r
  {
    var d := q - x / n;
    assert x == n * (x / n) + x % n;
    assert n * d == x % n - r;
    if d >= 1 {
      MulAtLeast(n, d);
    } else if d <= -1 {
      MulAtLeast(n, -d);
    }
  }

  /** The moves are periodic with period `|moves|`. */
  lemma MoveAtPeriodic(m: Map, steps: nat)
    requires |m.moves| > 0
    ensures MoveAt(m, steps + |m.moves|) == MoveAt(m, steps)
  {
    var n := |m.moves|;
    assert steps == n * (steps / n) + steps % n;
    DivModUnique(n, steps + n, steps / n + 1, steps % n);
  }

  /** `next_position`: the left or right neighbour of the current node. */
  function NextPosition(m: Map, move: Move, position: string): (r: string)
    requires position in m.network
    ensures move == Left ==> r == m.network[position].0
    ensures move == Right ==> r == m.network[position].1
  {
    var (left, right) := m.network[position];
    match move
    case Left => left
    case Right => right
  }

  /**
   * The node reached after `n` steps from `start`, or `None` once a node
   * without an entry is reached (where the program would panic).
   */
  function Walk(m: Map, start: string, n: nat): Option<string>
    requires |m.moves| > 0
  {
    if n == 0 then Some(start)
    else match Walk(m, start, n - 1)
      case None => None
      case Some(p) => if p in m.network then Some(NextPosition(m, MoveAt(m, n - 1), p)) else None
  }

  /** A walk that reaches step `n` passed through every earlier step. */
  lemma {:induction false} WalkPrefix(m: Map, start: string, n: nat, j: nat)
    requires |m.moves| > 0 && Walk(m, start, n).Some? && j <= n
    ensures Walk(m, start, j).Some?
    decreases n - j
  {
    if j < n {
      WalkPrefix(m, start, n, j + 1);
    }
  }

  lemma WalkStep(m: Map, start: string, n: nat, p: string)
    requires |m.moves| > 0 && Walk(m, start, n) == Some(p) && p in m.network
    ensures Walk(m, start, n + 1) == Some(NextPosition(m, MoveAt(m, n), p))
  {
  }

  predicate EndsWithZ(position: string)
  {
    |position| > 0 && position[|position| - 1] == 'Z'
  }

  /** After `n` steps the walk stands on a node ending in `Z`. */
  predicate IsEnd(m: Map, start: string, n: nat)
    requires |m.moves| > 0
  {
    Walk(m, start, n).Some? && EndsWithZ(Walk(m, start, n).value)
  }

  /** Some step of the walk stands on a node ending in `Z`. */
  ghost predicate ReachesEnd(m: Map, start: string)
    requires |m.moves| > 0
  {
    exists n: nat :: IsEnd(m, start, n)
  }

  /** The first end at or after step `k`, when none comes before `k` and step `n` is one. */
  ghost function FirstEndFrom(m: Map, start: string, k: nat, n: nat): (r: nat)
    requires |m.moves| > 0 && k <= n && IsEnd(m, start, n)
    requires forall j :: 0 <= j < k ==> !IsEnd(m, start, j)
    ensures k <= r <= n && IsEnd(m, start, r)
    ensures forall j :: 0 <= j < r ==> !IsEnd(m, start, j)
    decreases n - k
  {
    if IsEnd(m, start, k) then k else FirstEndFrom(m, start, k + 1, n)
  }

  /** The least number of steps after which the walk stands on a node ending in `Z`. */
  ghost function FirstEnd(m: Map, start: string): (r: nat)
    requires |m.moves| > 0 && ReachesEnd(m, start)
    ensures IsEnd(m, start, r)
    ensures forall j :: 0 <= j < r ==> Walk(m, start, j).Some? && !EndsWithZ(Walk(m, start, j).value)
  {
    var n: nat :| IsEnd(m, start, n);
    var r := FirstEndFrom(m, start, 0, n);
    forall j | 0 <= j < r ensures Walk(m, start, j).Some? && !EndsWithZ(Walk(m, start, j).value) {
      WalkPrefix(m, start, r, j);
      assert !IsEnd(m, start, j);
    }
    r
  }

  /** Two least ends are the same step. */
  lemma FirstEndUnique(m: Map, start: string, a: nat, b: nat)
    requires |m.moves| > 0 && IsEnd(m, start, a) && IsEnd(m, start, b)
    requires forall j :: 0 <= j < a ==> !IsEnd(m, start, j)
    requires forall j :: 0 <= j < b ==> !IsEnd(m, start, j)
    ensures a == b
  {
  }

  /**
   * `steps_to_end`: walks from `start` until a node ending in `Z`. The program
   * loops forever or panics when no such node is reached, so reaching one is
   * required.
   */
  method StepsToEnd(m: Map, start: string) returns (steps: nat)
    requires |m.moves| > 0 && ReachesEnd(m, start)
    ensures steps == FirstEnd(m, start)
  {
    ghost var n := FirstEnd(m, start);
    var position := start;
    steps := 0;
    while !EndsWithZ(position)
      invariant steps <= n
      invariant Walk(m, start, steps) == Some(position)
      invariant forall j :: 0 <= j < steps ==> !IsEnd(m, start, j)
      decreases n - steps
    {
      WalkPrefix(m, start, n, steps + 1);
      position := NextPosition(m, MoveAt(m, steps), position);
      steps := steps + 1;
    }
    FirstEndUnique(m, start, steps, n);
  }

  // ---------------------------------------------------------------------------
  // Least common multiples

  /** Divisibility; only 0 is a multiple of 0. */
  predicate Divides(d: nat, n: nat)
  {
    if d == 0 then n == 0 else n % d == 0
  }

  /** Euclid's algorithm (the value of `num::integer::gcd`); `Gcd(0, 0) == 0`. */
  function Gcd(a: nat, b: nat): nat
    decreases b
  {
    if b == 0 then a else Gcd(b, a % b)
  }

  lemma MultipleMod(g: nat, x: nat)
    requires g > 0
    ensures (g * x) % g == 0
  {
    DivModUnique(g, g * x, x, 0);
  }

  lemma DividesCombination(g: nat, b: nat, r: nat, q: nat)
    requires g > 0 && b % g == 0 && r % g == 0
    ensures (q * b + r) % g == 0
  {
    var p := b / g;
    var s := r / g;
    assert b == g * p;
    assert r == g * s;
    assert q * b + r == g * (q * p + s);
    MultipleMod(g, q * p + s);
  }

  /** The greatest common divisor divides both arguments. */
  lemma {:induction false} GcdDivides(a: nat, b: nat)
    ensures Divides(Gcd(a, b), a) && Divides(Gcd(a, b), b)
    decreases b
  {
    if b != 0 {
      GcdDivides(b, a % b);
      var g := Gcd(a, b);
      if g != 0 {
        DividesCombination(g, b, a % b, a / b);
        assert a == (a / b) * b + a % b;
      }
    }
  }

  /** `num::integer::lcm`: `a * (b / gcd(a, b))`, and 0 when both are 0. */
  function Lcm(a: nat, b: nat): nat
  {
    if a == 0 && b == 0 then 0
    else
      GcdDivides(a, b);
      a * (b / Gcd(a, b))
  }

  /** The least common multiple is a common multiple. */
  lemma LcmIsMultiple(a: nat, b: nat)
    ensures Divides(a, Lcm(a, b)) && Divides(b, Lcm(a, b))
  {
    if a != 0 || b != 0 {
      GcdDivides(a, b);
      var g := Gcd(a, b);
      var q := b / g;
      var p := a / g;
      assert b == g * q && a == g * p;
      assert Lcm(a, b) == a * q;
      if a != 0 {
        MultipleMod(a, q);
      }
      assert a * q == p * b by {
        assert a * q == (g * p) * q == p * (g * q);
      }
      if b != 0 {
        MultipleMod(b, p);
        assert b * p == p * b;
      }
    }
  }

  /** Divisibility is transitive. */
  lemma DividesTransitive(a: nat, b: nat, c: nat)
    requires Divides(a, b) && Divides(b, c)
    ensures Divides(a, c)
  {
    if a != 0 && b != 0 {
      var p := b / a;
      var q := c / b;
      assert b == a * p && c == b * q;
      assert c == a * (p * q);
      MultipleMod(a, p * q);
    } else if a != 0 {
      assert c == 0;
    }
  }

  /** `fold(1, lcm)`, from the left. */
  function LcmFold(counts: seq<nat>): nat
    decreases |counts|
  {
    if counts == [] then 1
    else Lcm(LcmFold(counts[..|counts| - 1]), counts[|counts| - 1])
  }

  /** The fold is a multiple of every count. */
  lemma {:induction false} LcmFoldMultiple(counts: seq<nat>, i: nat)
    requires i < |counts|
    ensures Divides(counts[i], LcmFold(counts))
    decreases |counts|
  {
    var n := |counts| - 1;
    var prefix := counts[..n];
    LcmIsMultiple(LcmFold(prefix), counts[n]);
    if i < n {
      assert prefix[i] == counts[i];
      LcmFoldMultiple(prefix, i);
      DividesTransitive(counts[i], LcmFold(prefix), LcmFold(counts));
    }
  }

  /** The fold of positive counts is positive. */
  lemma {:induction false} LcmFoldPositive(counts: seq<nat>)
    requires forall i :: 0 <= i < |counts| ==> counts[i] > 0
    ensures LcmFold(counts) > 0
    decreases |counts|
  {
    if counts != [] {
      var n := |counts| - 1;
      var prefix := counts[..n];
      assert forall i :: 0 <= i < n ==> prefix[i] == counts[i];
      LcmFoldPositive(prefix);
      var a := LcmFold(prefix);
      var b := counts[n];
      GcdDivides(a, b);
      var g := Gcd(a, b);
      assert b == g * (b / g);
      assert b / g > 0;
      assert a * (b / g) >= a by {
        MulAtLeast(a, b / g);
      }
    }
  }

  /** Every walk from `starts` reaches a node ending in `Z`; with no starts, no move is ever read. */
  ghost predicate AllReachEnd(m: Map, starts: seq<string>)
  {
    forall i :: 0 <= i < |starts| ==> |m.moves| > 0 && ReachesEnd(m, starts[i])
  }

  /** The step counts of the walks from each start. */
  ghost function StepCounts(m: Map, starts: seq<string>): (r: seq<nat>)
    requires AllReachEnd(m, starts)
    ensures |r| == |starts|
  {
    if starts == [] then []
    else
      assert |m.moves| > 0 && ReachesEnd(m, starts[0]);
      seq(|starts|, i requires 0 <= i < |starts| && ReachesEnd(m, starts[i]) => FirstEnd(m, starts[i]))
  }

  lemma LcmFoldSnoc(counts: seq<nat>, i: nat)
    requires i < |counts|
    ensures LcmFold(counts[..i + 1]) == Lcm(LcmFold(counts[..i]), counts[i])
  {
    assert counts[..i + 1][..i] == counts[..i];
  }

  /** `steps_to_end_2`: the least-common-multiple fold of the step counts, in the order of `starts`. */
  method StepsToEnd2(m: Map, starts: seq<string>) returns (r: nat)
    requires AllReachEnd(m, starts)
    ensures r == LcmFold(StepCounts(m, starts))
  {
    ghost var counts := StepCounts(m, starts);
    r := 1;
    for i := 0 to |starts|
      invariant r == LcmFold(counts[..i])
    {
      var steps := StepsToEnd(m, starts[i]);
      LcmFoldSnoc(counts, i);
      r := Lcm(r, steps);
    }
    assert counts[..|starts|] == counts;
  }

  // ---------------------------------------------------------------------------
  // Parts

  /** `part1`: the steps from `AAA`; the walk must reach a node ending in `Z`. */
  method Part1(lines: seq<string>, entry: string -> Result<Entry, Error>) returns (r: Result<nat, Error>)
    requires ParseMap(lines, entry).Ok? ==>
      |ParseMap(lines, entry).value.moves| > 0 && ReachesEnd(ParseMap(lines, entry).value, "AAA")
    ensures ParseMap(lines, entry).Err? ==> r == Err(ParseMap(lines, entry).error)
    ensures ParseMap(lines, entry).Ok? ==> r == Ok(FirstEnd(ParseMap(lines, entry).value, "AAA"))
  {
    var parsed := ParseMap(lines, entry);
    if parsed.Err? {
      return Err(parsed.error);
    }
    var steps := StepsToEnd(parsed.value, "AAA");
    r := Ok(steps);
  }

  predicate EndsWithA(position: string)
  {
    |position| > 0 && position[|position| - 1] == 'A'
  }

  /** The start nodes of part 2: every node with an entry whose name ends in `A`. */
  function Starts(m: Map): set<string>
  {
    set k | k in m.network && EndsWithA(k)
  }

  /** Every start node's walk reaches a node ending in `Z`, so there is a move to read whenever there is a start. */
  ghost predicate StartsReachEnd(m: Map)
  {
    forall k :: k in Starts(m) ==> |m.moves| > 0 && ReachesEnd(m, k)
  }

  /** The keys of a hash map in its iteration order, which the program does not fix: any order, each key once. */
  method InSomeOrder(keys: set<string>) returns (r: seq<string>)
    ensures |r| == |keys|
    ensures forall k :: k in r <==> k in keys
  {
    r := [];
    var rest := keys;
    while rest != {}
      invariant |r| + |rest| == |keys|
      invariant forall k :: k in keys <==> k in r || k in rest
      invariant forall k :: k in r ==> k !in rest
      decreases |rest|
    {
      var k :| k in rest;
      r := r + [k];
      rest := rest - {k};
    }
  }

  /**
   * `part2`: the least-common-multiple fold over the start nodes, taken in
   * some order; every walk must reach a node ending in `Z`.
   */
  method Part2(lines: seq<string>, entry: string -> Result<Entry, Error>) returns (r: Result<nat, Error>)
    requires ParseMap(lines, entry).Ok? ==> StartsReachEnd(ParseMap(lines, entry).value)
    ensures ParseMap(lines, entry).Err? ==> r == Err(ParseMap(lines, entry).error)
    ensures ParseMap(lines, entry).Ok? ==> r.Ok? && r.value > 0
    ensures ParseMap(lines, entry).Ok? ==>
      var m := ParseMap(lines, entry).value;
      forall k :: k in Starts(m) ==> Divides(FirstEnd(m, k), r.value)
    ensures ParseMap(lines, entry).Ok? ==>
      exists starts :: FoldsStarts(ParseMap(lines, entry).value, starts, r.value)
    ensures (ParseMap(lines, entry).Ok? && Starts(ParseMap(lines, entry).value) == {}) ==> r == Ok(1)
  {
    var parsed := ParseMap(lines, entry);
    if parsed.Err? {
      return Err(parsed.error);
    }
    var steps := StepsFromStarts(parsed.value);
    r := Ok(steps);
  }

  /** `steps` is the fold of the step counts of the start nodes listed in the order `starts`, each once. */
  ghost predicate FoldsStarts(m: Map, starts: seq<string>, steps: nat)
    requires StartsReachEnd(m)
  {
    |starts| == |Starts(m)| && (forall k :: k in starts <==> k in Starts(m))
    && steps == LcmFold(StepCounts(m, starts))
  }

  /**
   * Two empty lines make a map with no moves and no nodes. Part 2 never reads a move there, so the
   * requirement of `Part2` holds and its result is `Ok(1)`, the fold of no step counts.
   */
  lemma EmptyMapHasNoStarts(entry: string -> Result<Entry, Error>)
    ensures ParseMap(["", ""], entry) == Ok(Map([], map[]))
    ensures Starts(Map([], map[])) == {} && StartsReachEnd(Map([], map[]))
  {
    var lines := ["", ""];
    assert lines[2..] == [];
    assert ParseMoves("") == Ok([]);
  }

  /** Part 2 on a parsed map: the fold over the start nodes in some order. */
  method StepsFromStarts(m: Map) returns (steps: nat)
    requires StartsReachEnd(m)
    ensures forall k :: k in Starts(m) ==> Divides(FirstEnd(m, k), steps)
    ensures steps > 0
    ensures Starts(m) == {} ==> steps == 1
    ensures exists starts :: FoldsStarts(m, starts, steps)
  {
    var starts := InSomeOrder(Starts(m));
    forall i | 0 <= i < |starts| ensures starts[i] in Starts(m) {
      assert starts[i] in starts;
    }
    steps := StepsToEnd2(m, starts);
    if starts == [] {
      assert StepCounts(m, starts) == [];
    } else {
      assert starts[0] in Starts(m);
      StartsFold(m, starts);
    }
    assert FoldsStarts(m, starts, steps);
    forall k | k in Starts(m) ensures Divides(FirstEnd(m, k), steps) {
      var i :| 0 <= i < |starts| && starts[i] == k;
    }
  }

  /** Over start nodes ending in `A`, the fold is positive and a multiple of every start's step count. */
  lemma StartsFold(m: Map, starts: seq<string>)
    requires |m.moves| > 0
    requires forall i :: 0 <= i < |starts| ==> EndsWithA(starts[i]) && ReachesEnd(m, starts[i])
    ensures forall i :: 0 <= i < |starts| ==> Divides(FirstEnd(m, starts[i]), LcmFold(StepCounts(m, starts)))
    ensures LcmFold(StepCounts(m, starts)) > 0
  {
    var counts := StepCounts(m, starts);
    forall i | 0 <= i < |starts| ensures Divides(FirstEnd(m, starts[i]), LcmFold(counts)) {
      LcmFoldMultiple(counts, i);
    }
    forall i | 0 <= i < |counts| ensures counts[i] > 0 {
      assert Walk(m, starts[i], 0) == Some(starts[i]);
      assert !IsEnd(m, starts[i], 0);
    }
    LcmFoldPositive(counts);
  }

  // ---------------------------------------------------------------------------
  // The examples of the puzzle

  /** The first example's lines. */
  const ExampleLines: seq<string> := ["LLR", "", "AAA = (BBB, BBB)", "BBB = (AAA, ZZZ)", "ZZZ = (ZZZ, ZZZ)"]

  /** The first example's map. */
  const Example1: Map := Map([Left, Left, Right], map["AAA" := ("BBB", "BBB"), "BBB" := ("AAA", "ZZZ"), "ZZZ" := ("ZZZ", "ZZZ")])

  /** The first example's entries, in the order of its lines. */
  const ExampleEntries: seq<Entry> := [("AAA", ("BBB", "BBB")), ("BBB", ("AAA", "ZZZ")), ("ZZZ", ("ZZZ", "ZZZ"))]

  lemma ExampleMoves()
    ensures ParseMoves("LLR") == Ok([Left, Left, Right])
  {
    ParseMovesShowMoves([Left, Left, Right]);
    assert ShowMoves([Left, Left, Right]) == "LLR";
  }

  lemma ExampleNetwork()
    ensures NetworkOf(ExampleEntries) == Example1.network
  {
    var entries := ExampleEntries;
    assert entries[..2][..1] == entries[..1];
    assert entries[..1][..0] == [];
  }

  /** Parsing the first example, given an entry parser that reads its three entry lines. */
  lemma ParseExample(entry: string -> Result<Entry, Error>)
    requires entry("AAA = (BBB, BBB)") == Ok(("AAA", ("BBB", "BBB")))
    requires entry("BBB = (AAA, ZZZ)") == Ok(("BBB", ("AAA", "ZZZ")))
    requires entry("ZZZ = (ZZZ, ZZZ)") == Ok(("ZZZ", ("ZZZ", "ZZZ")))
    ensures ParseMap(ExampleLines, entry) == Ok(Example1)
  {
    ExampleMoves();
    ExampleNetwork();
    var texts := ExampleLines[2..];
    assert texts == ["AAA = (BBB, BBB)", "BBB = (AAA, ZZZ)", "ZZZ = (ZZZ, ZZZ)"];
    assert forall i :: 0 <= i < |texts| ==> entry(texts[i]) == Ok(ExampleEntries[i]);
    var collected := TryCollect(texts, entry);
    assert collected.Ok?;
    assert collected.value == ExampleEntries;
  }

  /** The walk of the first example from `AAA`: `ZZZ` after six steps, never before. */
  lemma Example1Walk()
    ensures Walk(Example1, "AAA", 6) == Some("ZZZ")
    ensures forall j :: 0 <= j < 6 ==> Walk(Example1, "AAA", j) in {Some("AAA"), Some("BBB")}
  {
    var m := Example1;
    MoveAtPeriodic(m, 0);
    MoveAtPeriodic(m, 1);
    MoveAtPeriodic(m, 2);
    WalkStep(m, "AAA", 0, "AAA");
    WalkStep(m, "AAA", 1, "BBB");
    WalkStep(m, "AAA", 2, "AAA");
    WalkStep(m, "AAA", 3, "BBB");
    WalkStep(m, "AAA", 4, "AAA");
    WalkStep(m, "AAA", 5, "BBB");
  }

  /** Part 1 of the first example takes six steps. */
  lemma Example1Steps()
    ensures ReachesEnd(Example1, "AAA")
    ensures FirstEnd(Example1, "AAA") == 6
  {
    Example1Walk();
    assert IsEnd(Example1, "AAA", 6);
    forall j | 0 <= j < 6 ensures !IsEnd(Example1, "AAA", j) {
    }
    FirstEndUnique(Example1, "AAA", FirstEnd(Example1, "AAA"), 6);
  }

  /** The second example's map. */
  const Example2: Map := Map([Left, Right], map[
    "11A" := ("11B", "XXX"), "11B" := ("XXX", "11Z"), "11Z" := ("11B", "XXX"),
    "22A" := ("22B", "XXX"), "22B" := ("22C", "22C"), "22C" := ("22Z", "22Z"), "22Z" := ("22B", "22B"),
    "XXX" := ("XXX", "XXX")])

  /** The start nodes of the second example. */
  lemma Example2Starts()
    ensures Starts(Example2) == {"11A", "22A"}
  {
    var keys := Example2.network.Keys;
    assert keys == {"11A", "11B", "11Z", "22A", "22B", "22C", "22Z", "XXX"};
  }

  /** From `11A` the walk ends after two steps. */
  lemma Example2StepsFrom11A()
    ensures ReachesEnd(Example2, "11A") && FirstEnd(Example2, "11A") == 2
  {
    var m := Example2;
    WalkStep(m, "11A", 0, "11A");
    WalkStep(m, "11A", 1, "11B");
    assert IsEnd(m, "11A", 2);
    assert !IsEnd(m, "11A", 0) && !IsEnd(m, "11A", 1);
    FirstEndUnique(m, "11A", FirstEnd(m, "11A"), 2);
  }

  /** From `22A` the walk ends after three steps. */
  lemma Example2StepsFrom22A()
    ensures ReachesEnd(Example2, "22A") && FirstEnd(Example2, "22A") == 3
  {
    var m := Example2;
    MoveAtPeriodic(m, 0);
    WalkStep(m, "22A", 0, "22A");
    WalkStep(m, "22A", 1, "22B");
    WalkStep(m, "22A", 2, "22C");
    assert IsEnd(m, "22A", 3);
    assert !IsEnd(m, "22A", 0) && !IsEnd(m, "22A", 1) && !IsEnd(m, "22A", 2);
    FirstEndUnique(m, "22A", FirstEnd(m, "22A"), 3);
  }

  /** A listing of two distinct elements, each once, is one of their two orders. */
  lemma TwoOrders<T>(s: seq<T>, a: T, b: T)
    requires |s| == 2 && a != b && forall k :: k in s <==> k in {a, b}
    ensures s == [a, b] || s == [b, a]
  {
    assert s[0] in s && s[1] in s;
    assert a in s && b in s;
  }

  /** With exactly two start nodes, the fold takes them in one order or the other. */
  lemma TwoStartsFold(m: Map, a: string, b: string, starts: seq<string>, steps: nat)
    requires |m.moves| > 0 && Starts(m) == {a, b} && a != b
    requires ReachesEnd(m, a) && ReachesEnd(m, b)
    requires FoldsStarts(m, starts, steps)
    ensures steps == LcmFold([FirstEnd(m, a), FirstEnd(m, b)]) || steps == LcmFold([FirstEnd(m, b), FirstEnd(m, a)])
  {
    TwoOrders(starts, a, b);
    if starts == [a, b] {
      assert StepCounts(m, starts) == [FirstEnd(m, a), FirstEnd(m, b)];
    } else {
      assert StepCounts(m, starts) == [FirstEnd(m, b), FirstEnd(m, a)];
    }
  }

  /** The least common multiple of 2 and 3, folded in either order. */
  lemma LcmOfTwoAndThree()
    ensures LcmFold([2, 3]) == 6 && LcmFold([3, 2]) == 6
  {
    assert [2, 3][..1] == [2] && [3, 2][..1] == [3];
    assert [2][..0] == [] && [3][..0] == [];
    assert Gcd(1, 2) == 1 && Gcd(1, 3) == 1;
    assert Gcd(2, 3) == 1 && Gcd(3, 2) == 1;
  }

  /** Part 2 of the second example takes six steps, whatever order the start nodes come in. */
  lemma Example2Part2(starts: seq<string>, steps: nat)
    requires |Example2.moves| > 0 && forall k :: k in Starts(Example2) ==> ReachesEnd(Example2, k)
    requires FoldsStarts(Example2, starts, steps)
    ensures steps == 6
  {
    Example2Starts();
    Example2StepsFrom11A();
    Example2StepsFrom22A();
    LcmOfTwoAndThree();
    TwoStartsFold(Example2, "11A", "22A", starts, steps);
  }
}
