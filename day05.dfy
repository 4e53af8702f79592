/**
 * The almanac (src/bin/day05.rs): seven lookup stages, seed -> soil -> fertilizer
 * -> water -> light -> temperature -> humidity -> location, each a list of
 * rules `(destination_start, source_start, length)` mapping a half-open source
 * interval by a constant offset, with values no rule covers passing through.
 * Part 1 converts every listed seed; part 2 reads the seed list as
 * `(start, length)` pairs and converts every value of every range, one by one.
 */
module Day05 {
  import opened Results
  import opened Text

  datatype Error = ParseIntError | InvalidAlmanacMap(line: string) | InvalidAlmanac

  /** One rule of a stage (`AlmanacMap`). */
  datatype AlmanacMap = AlmanacMap(destinationStart: nat, sourceStart: nat, length: nat)

  /** The rule's source interval is the half-open `[sourceStart, sourceStart + length)`. */
  predicate InSource(m: AlmanacMap, v: nat)
  {
    m.sourceStart <= v < m.sourceStart + m.length
  }

  /** `AlmanacMap::apply`: shifts a covered value by the rule's offset, or reports no match. */
  function Apply(m: AlmanacMap, v: nat): (r: Option<nat>)
    ensures r.None? <==> !InSource(m, v)
    ensures r.Some? ==> m.destinationStart <= r.value < m.destinationStart + m.length
    ensures r.Some? ==> r.value - m.destinationStart == v - m.sourceStart
  {
    if v < m.sourceStart || v >= m.sourceStart + m.length then None
    else Some(v - m.sourceStart + m.destinationStart)
  }

  /** The rule read backwards: destination interval to source interval. */
  function Reverse(m: AlmanacMap): AlmanacMap
  {
    AlmanacMap(m.sourceStart, m.destinationStart, m.length)
  }

  /** A rule is a bijection from its source interval onto its destination interval. */
  lemma ApplyReverse(m: AlmanacMap, v: nat)
    requires Apply(m, v).Some?
    ensures Apply(Reverse(m), Apply(m, v).value) == Some(v)
  {
  }

  /** Index of the first rule, in list order, whose source interval holds `v`. */
  predicate IsFirstMatch(maps: seq<AlmanacMap>, v: nat, i: nat)
  {
    i < |maps| && InSource(maps[i], v) && forall j :: 0 <= j < i ==> !InSource(maps[j], v)
  }

  /** `apply_all`: the value of the first rule, in list order, that covers `v`, else `v` itself. */
  function ApplyAll(maps: seq<AlmanacMap>, v: nat): nat
    decreases |maps|
  {
    if maps == [] then v
    else match Apply(maps[0], v)
      case Some(w) => w
      case None => ApplyAll(maps[1..], v)
  }

  /** A value no rule covers passes through a stage unchanged. */
  lemma {:induction false} ApplyAllNoMatch(maps: seq<AlmanacMap>, v: nat)
    requires forall i :: 0 <= i < |maps| ==> !InSource(maps[i], v)
    ensures ApplyAll(maps, v) == v
    decreases |maps|
  {
    if maps != [] {
      assert !InSource(maps[0], v);
      ApplyAllNoMatch(maps[1..], v);
    }
  }

  /** A covered value is mapped by the first covering rule; later overlapping rules are ignored. */
  lemma {:induction false} ApplyAllFirstMatch(maps: seq<AlmanacMap>, v: nat, i: nat)
    requires IsFirstMatch(maps, v, i)
    ensures Some(ApplyAll(maps, v)) == Apply(maps[i], v)
    decreases i
  {
    if i > 0 {
      assert !InSource(maps[0], v);
      ApplyAllFirstMatch(maps[1..], v, i - 1);
    }
  }

  datatype Almanac = Almanac(
    seeds: seq<nat>,
    seedToSoil: seq<AlmanacMap>,
    soilToFertilizer: seq<AlmanacMap>,
    fertilizerToWater: seq<AlmanacMap>,
    waterToLight: seq<AlmanacMap>,
    lightToTemperature: seq<AlmanacMap>,
    temperatureToHumidity: seq<AlmanacMap>,
    humidityToLocation: seq<AlmanacMap>)

  /** The seven stages in the fixed seed-to-location order. */
  function Stages(a: Almanac): seq<seq<AlmanacMap>>
  {
    [a.seedToSoil, a.soilToFertilizer, a.fertilizerToWater, a.waterToLight,
     a.lightToTemperature, a.temperatureToHumidity, a.humidityToLocation]
  }

  /** Threading a value through a list of stages, left to right. */
  function Pipeline(stages: seq<seq<AlmanacMap>>, v: nat): nat
    decreases |stages|
  {
    if stages == [] then v else Pipeline(stages[1..], ApplyAll(stages[0], v))
  }

  /** `Almanac::convert_seed`. */
  function ConvertSeed(a: Almanac, seed: nat): nat
  {
    var soil := ApplyAll(a.seedToSoil, seed);
    var fertilizer := ApplyAll(a.soilToFertilizer, soil);
    var water := ApplyAll(a.fertilizerToWater, fertilizer);
    var light := ApplyAll(a.waterToLight, water);
    var temperature := ApplyAll(a.lightToTemperature, light);
    var humidity := ApplyAll(a.temperatureToHumidity, temperature);
    ApplyAll(a.humidityToLocation, humidity)
  }

  /** Converting a seed is the left-to-right composition of the seven stages. */
  lemma ConvertSeedIsPipeline(a: Almanac, seed: nat)
    ensures ConvertSeed(a, seed) == Pipeline(Stages(a), seed)
  {
    var st := Stages(a);
    var v1 := ApplyAll(st[0], seed);
    var v2 := ApplyAll(st[1], v1);
    var v3 := ApplyAll(st[2], v2);
    var v4 := ApplyAll(st[3], v3);
    var v5 := ApplyAll(st[4], v4);
    var v6 := ApplyAll(st[5], v5);
    var v7 := ApplyAll(st[6], v6);
    assert Pipeline(st[7..], v7) == v7;
    assert Pipeline(st[6..], v6) == Pipeline(st[7..], v7);
    assert Pipeline(st[5..], v5) == Pipeline(st[6..], v6);
    assert Pipeline(st[4..], v4) == Pipeline(st[5..], v5);
    assert Pipeline(st[3..], v3) == Pipeline(st[4..], v4);
    assert Pipeline(st[2..], v2) == Pipeline(st[3..], v3);
    assert Pipeline(st[1..], v1) == Pipeline(st[2..], v2);
    assert Pipeline(st, seed) == Pipeline(st[1..], v1);
  }

  /** Stages without rules leave every value unchanged. */
  lemma {:induction false} EmptyStagesAreIdentity(stages: seq<seq<AlmanacMap>>, v: nat)
    requires forall i :: 0 <= i < |stages| ==> stages[i] == []
    ensures Pipeline(stages, v) == v
    decreases |stages|
  {
    if stages != [] {
      EmptyStagesAreIdentity(stages[1..], v);
    }
  }

  // ---------------------------------------------------------------------------
  // Part 1 and part 2

  /** `Iterator::min`: `None` on an empty sequence. */
  function Min(s: seq<nat>): (r: Option<nat>)
    ensures r.None? <==> s == []
    ensures r.Some? ==> exists k :: 0 <= k < |s| && r.value == s[k]
    ensures r.Some? ==> forall k :: 0 <= k < |s| ==> r.value <= s[k]
    decreases |s|
  {
    if s == [] then None
    else match Min(s[1..])
      case None => Some(s[0])
      case Some(m) =>
        assert forall k :: 1 <= k < |s| ==> s[k] == s[1..][k - 1];
        var k :| 0 <= k < |s[1..]| && m == s[1..][k];
        assert s[k + 1] == m;
        Some(if s[0] <= m then s[0] else m)
  }

  /** `Almanac::convert_all_seeds`. */
  function ConvertAllSeeds(a: Almanac): (r: seq<nat>)
    ensures |r| == |a.seeds|
    ensures forall i :: 0 <= i < |a.seeds| ==> r[i] == ConvertSeed(a, a.seeds[i])
  {
    seq(|a.seeds|, i requires 0 <= i < |a.seeds| => ConvertSeed(a, a.seeds[i]))
  }

  /** `part1`'s minimum: the lowest location of a listed seed, an error when no seed is listed. */
  function LowestLocation(a: Almanac): (r: Result<nat, Error>)
    ensures r.Err? <==> a.seeds == []
    ensures r.Err? ==> r.error == InvalidAlmanac
    ensures r.Ok? ==> exists i :: 0 <= i < |a.seeds| && r.value == ConvertSeed(a, a.seeds[i])
    ensures r.Ok? ==> forall i :: 0 <= i < |a.seeds| ==> r.value <= ConvertSeed(a, a.seeds[i])
  {
    match Min(ConvertAllSeeds(a))
    case None => Err(InvalidAlmanac)
    case Some(m) => Ok(m)
  }

  /** `tuples()` over the seed list: consecutive `(start, length)` pairs, a trailing odd seed dropped. */
  function SeedRanges(seeds: seq<nat>): (r: seq<(nat, nat)>)
    ensures |r| == |seeds| / 2
    ensures forall i :: 0 <= i < |r| ==> r[i] == (seeds[2 * i], seeds[2 * i + 1])
  {
    seq(|seeds| / 2, i requires 0 <= i < |seeds| / 2 => (seeds[2 * i], seeds[2 * i + 1]))
  }

  /** The values `start..start + length`, in increasing order. */
  function RangeValues(start: nat, length: nat): (r: seq<nat>)
    ensures |r| == length
    ensures forall v :: v in r <==> start <= v < start + length
  {
    var r := seq(length, i requires 0 <= i < length => start + i);
    forall v | start <= v < start + length ensures v in r {
      assert r[v - start] == v;
    }
    r
  }

  /** The flat_map over the ranges: every value of every range, range by range. */
  function Enumerate(ranges: seq<(nat, nat)>): (r: seq<nat>)
    ensures forall v :: v in r <==> exists i :: 0 <= i < |ranges| && ranges[i].0 <= v < ranges[i].0 + ranges[i].1
    decreases |ranges|
  {
    if ranges == [] then []
    else
      var r := RangeValues(ranges[0].0, ranges[0].1) + Enumerate(ranges[1..]);
      assert forall v :: (exists i :: 0 <= i < |ranges| && ranges[i].0 <= v < ranges[i].0 + ranges[i].1) ==> v in r by {
        forall v | exists i :: 0 <= i < |ranges| && ranges[i].0 <= v < ranges[i].0 + ranges[i].1
          ensures v in r
        {
          var i :| 0 <= i < |ranges| && ranges[i].0 <= v < ranges[i].0 + ranges[i].1;
          if i > 0 { assert ranges[1..][i - 1] == ranges[i]; }
        }
      }
      r
  }

  /** Membership in the union of the seed ranges `[start, start + length)`. */
  predicate InSeedRanges(a: Almanac, v: nat)
  {
    exists i :: 0 <= i < |a.seeds| / 2 && a.seeds[2 * i] <= v < a.seeds[2 * i] + a.seeds[2 * i + 1]
  }

  /** `Almanac::convert_all_seeds_2`, as the sequence of values it converts. */
  function AllSeeds2(a: Almanac): (r: seq<nat>)
    ensures forall v :: v in r <==> InSeedRanges(a, v)
  {
    var ranges := SeedRanges(a.seeds);
    Enumerate(ranges)
  }

  function ConvertAllSeeds2(a: Almanac): seq<nat>
  {
    var all := AllSeeds2(a);
    seq(|all|, i requires 0 <= i < |all| => ConvertSeed(a, all[i]))
  }

  /**
   * `part2`'s minimum: the least `ConvertSeed` over the union of the seed ranges,
   * an error when the union is empty.
   */
  function LowestLocationInRanges(a: Almanac): (r: Result<nat, Error>)
    ensures r.Err? <==> forall v: nat :: !InSeedRanges(a, v)
    ensures r.Err? ==> r.error == InvalidAlmanac
    ensures r.Ok? ==> exists v: nat :: InSeedRanges(a, v) && r.value == ConvertSeed(a, v)
    ensures r.Ok? ==> forall v: nat :: InSeedRanges(a, v) ==> r.value <= ConvertSeed(a, v)
  {
    var all := AllSeeds2(a);
    var converted := ConvertAllSeeds2(a);
    assert forall i :: 0 <= i < |all| ==> converted[i] in converted;
    match Min(converted)
    case None =>
      assert forall v: nat :: !InSeedRanges(a, v) by {
        forall v: nat ensures !InSeedRanges(a, v) {
          assert v !in all;
        }
      }
      Err(InvalidAlmanac)
    case Some(m) =>
      var k :| 0 <= k < |converted| && converted[k] == m;
      assert all[k] in all;
      assert forall v: nat :: InSeedRanges(a, v) ==> m <= ConvertSeed(a, v) by {
        forall v: nat | InSeedRanges(a, v) ensures m <= ConvertSeed(a, v) {
          assert v in all;
          var j :| 0 <= j < |all| && all[j] == v;
          assert converted[j] in converted;
        }
      }
      Ok(m)
  }

  // ---------------------------------------------------------------------------
  // Parsing

  /** `AlmanacMap::from_str`: exactly three space-separated integers. */
  function ParseAlmanacMap(line: string): (r: Result<AlmanacMap, Error>)
    ensures |Split(line, " ")| != 3 ==> r == Err(InvalidAlmanacMap(line))
    ensures |Split(line, " ")| == 3 ==> (r.Err? <==> r == Err(ParseIntError))
    ensures r.Ok? ==> (ParseNat(Split(line, " ")[0]) == Some(r.value.destinationStart)
      && ParseNat(Split(line, " ")[1]) == Some(r.value.sourceStart)
      && ParseNat(Split(line, " ")[2]) == Some(r.value.length))
  {
    var fields := Split(line, " ");
    if |fields| != 3 then Err(InvalidAlmanacMap(line))
    else match (ParseNat(fields[0]), ParseNat(fields[1]), ParseNat(fields[2]))
      case (Some(d), Some(s), Some(l)) => Ok(AlmanacMap(d, s, l))
      case _ => Err(ParseIntError)
  }

  function ShowAlmanacMap(m: AlmanacMap): string
  {
    ShowNat(m.destinationStart) + " " + ShowNat(m.sourceStart) + " " + ShowNat(m.length)
  }

  lemma ShowNatAvoidsSpace(n: nat)
    ensures Avoids(ShowNat(n), ' ')
  {
    var s := ShowNat(n);
    forall i | 0 <= i < |s| ensures s[i] != ' ' { assert IsDigit(s[i]); }
  }

  /** A rule line printed as three numbers parses back to the same rule. */
  lemma ParseAlmanacMapRoundTrip(m: AlmanacMap)
    ensures ParseAlmanacMap(ShowAlmanacMap(m)) == Ok(m)
  {
    var fields := [ShowNat(m.destinationStart), ShowNat(m.sourceStart), ShowNat(m.length)];
    ShowNatAvoidsSpace(m.destinationStart);
    ShowNatAvoidsSpace(m.sourceStart);
    ShowNatAvoidsSpace(m.length);
    assert Join(fields, [' ']) == ShowAlmanacMap(m) by {
      assert Join(fields[2..], [' ']) == fields[2];
      assert Join(fields[1..], [' ']) == fields[1] + " " + fields[2];
    }
    SplitJoin(fields, " ");
    ParseNatShowNat(m.destinationStart);
    ParseNatShowNat(m.sourceStart);
    ParseNatShowNat(m.length);
  }

  /** Every field of the seeds line parsed as an integer, or the first failure. */
  function ParseNats(fields: seq<string>): (r: Option<seq<nat>>)
    ensures r.Some? <==> forall i :: 0 <= i < |fields| ==> ParseNat(fields[i]).Some?
    ensures r.Some? ==> |r.value| == |fields|
    ensures r.Some? ==> forall i :: 0 <= i < |fields| ==> ParseNat(fields[i]) == Some(r.value[i])
    decreases |fields|
  {
    if fields == [] then Some([])
    else match (ParseNat(fields[0]), ParseNats(fields[1..]))
      case (Some(n), Some(ns)) => Some([n] + ns)
      case _ => None
  }

  /**
   * The items of a section, read from line `k` on with `parse`: every line up
   * to the first empty line (which is consumed) or the end of the input.  The
   * second component is the position of the next unread line.
   */
  function ReadUntilBlank<T>(lines: seq<string>, k: nat, parse: string -> Result<T, Error>): (r: Result<(seq<T>, nat), Error>)
    requires k <= |lines|
    ensures r.Ok? ==> k <= r.value.1 <= |lines|
    ensures r.Ok? ==> r.value.1 == |lines| || (k < r.value.1 && lines[r.value.1 - 1] == "")
    decreases |lines| - k
  {
    if k == |lines| then Ok(([], k))
    else if lines[k] == "" then Ok(([], k + 1))
    else match parse(lines[k])
      case Err(e) => Err(e)
      case Ok(m) =>
        match ReadUntilBlank(lines, k + 1, parse)
        case Err(e) => Err(e)
        case Ok(rest) => Ok(([m] + rest.0, rest.1))
  }

  /** The rules of a section, read from line `k` on. */
  function RulesFrom(lines: seq<string>, k: nat): (r: Result<(seq<AlmanacMap>, nat), Error>)
    requires k <= |lines|
    ensures r.Ok? ==> k <= r.value.1 <= |lines|
    ensures r.Ok? ==> r.value.1 == |lines| || (k < r.value.1 && lines[r.value.1 - 1] == "")
  {
    ReadUntilBlank(lines, k, ParseAlmanacMap)
  }

  /** Every item read is the parse of the non-empty line at its position. */
  lemma {:induction false} ReadUntilBlankParsesEachLine<T>(lines: seq<string>, k: nat, parse: string -> Result<T, Error>, i: nat)
    requires k <= |lines| && ReadUntilBlank(lines, k, parse).Ok? && i < |ReadUntilBlank(lines, k, parse).value.0|
    ensures k + i < ReadUntilBlank(lines, k, parse).value.1
    ensures k + i < |lines| && lines[k + i] != "" && parse(lines[k + i]) == Ok(ReadUntilBlank(lines, k, parse).value.0[i])
    decreases i
  {
    if i > 0 {
      ReadUntilBlankParsesEachLine(lines, k + 1, parse, i - 1);
    }
  }

  /** Every rule of a section is the parse of the line at its position below the header. */
  lemma RulesFromParsesEachLine(lines: seq<string>, k: nat, i: nat)
    requires k <= |lines| && RulesFrom(lines, k).Ok? && i < |RulesFrom(lines, k).value.0|
    ensures k + i < RulesFrom(lines, k).value.1
    ensures k + i < |lines| && lines[k + i] != "" && ParseAlmanacMap(lines[k + i]) == Ok(RulesFrom(lines, k).value.0[i])
  {
    ReadUntilBlankParsesEachLine(lines, k, ParseAlmanacMap, i);
  }

  /** `parse_maps` as a function: the header line at `pos`, then the rules below it. */
  function Section(lines: seq<string>, header: string, pos: nat): (r: Result<(seq<AlmanacMap>, nat), Error>)
    requires pos <= |lines|
    ensures r.Ok? ==> pos < r.value.1 <= |lines|
    ensures r.Ok? <==> pos < |lines| && lines[pos] == header && RulesFrom(lines, pos + 1).Ok?
    ensures (pos == |lines| || lines[pos] != header) ==> r == Err(InvalidAlmanac)
  {
    if pos == |lines| || lines[pos] != header then Err(InvalidAlmanac)
    else RulesFrom(lines, pos + 1)
  }

  /** Prefixing the rules already read to the outcome of reading the rest. */
  function PrependRules(maps: seq<AlmanacMap>, r: Result<(seq<AlmanacMap>, nat), Error>): Result<(seq<AlmanacMap>, nat), Error>
  {
    match r
    case Err(e) => Err(e)
    case Ok(rest) => Ok((maps + rest.0, rest.1))
  }

  lemma PrependRulesAppend(maps: seq<AlmanacMap>, m: AlmanacMap, r: Result<(seq<AlmanacMap>, nat), Error>)
    ensures PrependRules(maps, PrependRules([m], r)) == PrependRules(maps + [m], r)
  {
    if r.Ok? {
      assert maps + ([m] + r.value.0) == maps + [m] + r.value.0;
    }
  }

  /** Reading rules at a non-empty line: its parse, then the rules after it. */
  lemma RulesFromLine(lines: seq<string>, k: nat)
    requires k < |lines| && lines[k] != ""
    ensures ParseAlmanacMap(lines[k]).Err? ==> RulesFrom(lines, k) == Err(ParseAlmanacMap(lines[k]).error)
    ensures ParseAlmanacMap(lines[k]).Ok? ==>
      RulesFrom(lines, k) == PrependRules([ParseAlmanacMap(lines[k]).value], RulesFrom(lines, k + 1))
  {
  }

  lemma PrependNoRules(r: Result<(seq<AlmanacMap>, nat), Error>)
    ensures PrependRules([], r) == r
  {
    if r.Ok? {
      assert [] + r.value.0 == r.value.0;
    }
  }

  /** `parse_maps`'s loop step: the rules read so far, extended by the rule on line `k`. */
  lemma ReadRuleLine(lines: seq<string>, start: nat, k: nat, maps: seq<AlmanacMap>)
    requires start <= k < |lines| && lines[k] != ""
    requires RulesFrom(lines, start) == PrependRules(maps, RulesFrom(lines, k))
    ensures ParseAlmanacMap(lines[k]).Err? ==> RulesFrom(lines, start) == Err(ParseAlmanacMap(lines[k]).error)
    ensures ParseAlmanacMap(lines[k]).Ok? ==>
      RulesFrom(lines, start) == PrependRules(maps + [ParseAlmanacMap(lines[k]).value], RulesFrom(lines, k + 1))
  {
    RulesFromLine(lines, k);
    if ParseAlmanacMap(lines[k]).Ok? {
      PrependRulesAppend(maps, ParseAlmanacMap(lines[k]).value, RulesFrom(lines, k + 1));
    }
  }

  /** `parse_maps`'s loop exit: the rules read so far are the whole section. */
  lemma ReadRulesEnd(lines: seq<string>, start: nat, k: nat, maps: seq<AlmanacMap>)
    requires start <= k <= |lines| && (k == |lines| || lines[k] == "")
    requires RulesFrom(lines, start) == PrependRules(maps, RulesFrom(lines, k))
    ensures RulesFrom(lines, start) == Ok((maps, if k < |lines| then k + 1 else k))
  {
    assert maps + [] == maps;
  }

  /**
   * `parse_maps`: advances the shared line iterator, here the index `pos`,
   * past the header, the rules and the blank line that ends them.
   */
  method ParseMaps(lines: seq<string>, header: string, pos: nat) returns (r: Result<(seq<AlmanacMap>, nat), Error>)
    requires pos <= |lines|
    ensures r == Section(lines, header, pos)
  {
    if pos == |lines| || lines[pos] != header {
      return Err(InvalidAlmanac);
    }
    r := ReadRules(lines, pos + 1);
  }

  /** The loop of `parse_maps`: rule lines from `start` up to a blank line or the end of the input. */
  method ReadRules(lines: seq<string>, start: nat) returns (r: Result<(seq<AlmanacMap>, nat), Error>)
    requires start <= |lines|
    ensures r == RulesFrom(lines, start)
  {
    var maps: seq<AlmanacMap> := [];
    var k := start;
    PrependNoRules(RulesFrom(lines, k));
    while k < |lines| && lines[k] != ""
      invariant start <= k <= |lines|
      invariant RulesFrom(lines, start) == PrependRules(maps, RulesFrom(lines, k))
      decreases |lines| - k
    {
      var m := ParseAlmanacMap(lines[k]);
      ReadRuleLine(lines, start, k, maps);
      if m.Err? {
        return Err(m.error);
      }
      maps := maps + [m.value];
      k := k + 1;
    }
    ReadRulesEnd(lines, start, k, maps);
    if k < |lines| {
      k := k + 1;
    }
    r := Ok((maps, k));
  }

  /** The seven section headers, in the order the sections must appear. */
  const Headers: seq<string> := [
    "seed-to-soil map:", "soil-to-fertilizer map:", "fertilizer-to-water map:",
    "water-to-light map:", "light-to-temperature map:", "temperature-to-humidity map:",
    "humidity-to-location map:"]

  /** The sections named by `headers`, one after the other from line `pos`. */
  function SectionsFrom(lines: seq<string>, headers: seq<string>, pos: nat): (r: Result<seq<seq<AlmanacMap>>, Error>)
    requires pos <= |lines|
    ensures r.Ok? ==> |r.value| == |headers|
    decreases |headers|
  {
    if headers == [] then Ok([])
    else match Section(lines, headers[0], pos)
      case Err(e) => Err(e)
      case Ok(first) =>
        match SectionsFrom(lines, headers[1..], first.1)
        case Err(e) => Err(e)
        case Ok(rest) => Ok([first.0] + rest)
  }

  /** `Almanac::try_from` as a function: seeds line, blank line, then the seven sections. */
  function AlmanacOf(lines: seq<string>): (r: Result<Almanac, Error>)
    ensures (|lines| == 0 || !StartsWith(lines[0], "seeds: ")) ==> r == Err(InvalidAlmanac)
    ensures r.Ok? ==> |lines| > 2 && StartsWith(lines[0], "seeds: ") && lines[1] == "" && lines[2] == Headers[0]
    ensures r.Ok? ==> ParseNats(Split(lines[0][|"seeds: "|..], " ")) == Some(r.value.seeds)
  {
    if |lines| == 0 then Err(InvalidAlmanac)
    else match StripPrefix(lines[0], "seeds: ")
      case None => Err(InvalidAlmanac)
      case Some(text) =>
        match ParseNats(Split(text, " "))
        case None => Err(ParseIntError)
        case Some(seeds) =>
          if |lines| < 2 || lines[1] != "" then Err(InvalidAlmanac)
          else match SectionsFrom(lines, Headers, 2)
            case Err(e) => Err(e)
            case Ok(s) => Ok(Almanac(seeds, s[0], s[1], s[2], s[3], s[4], s[5], s[6]))
  }

  /** Seeds that do not parse are `ParseIntError`; a second line that is missing or not blank is `InvalidAlmanac`. */
  lemma AlmanacOfSeedErrors(lines: seq<string>)
    requires |lines| > 0 && StartsWith(lines[0], "seeds: ")
    ensures ParseNats(Split(lines[0][|"seeds: "|..], " ")).None? ==> AlmanacOf(lines) == Err(ParseIntError)
    ensures (ParseNats(Split(lines[0][|"seeds: "|..], " ")).Some? && (|lines| < 2 || lines[1] != "")) ==>
      AlmanacOf(lines) == Err(InvalidAlmanac)
  {
    assert StripPrefix(lines[0], "seeds: ") == Some(lines[0][|"seeds: "|..]);
  }

  /**
   * Past the seeds line and the blank line, the almanac is exactly the seven sections in header order,
   * and the first section that fails decides the error.
   */
  lemma AlmanacOfSections(lines: seq<string>)
    requires |lines| >= 2 && StartsWith(lines[0], "seeds: ") && lines[1] == ""
    requires ParseNats(Split(lines[0][|"seeds: "|..], " ")).Some?
    ensures SectionsFrom(lines, Headers, 2).Err? ==> AlmanacOf(lines) == Err(SectionsFrom(lines, Headers, 2).error)
    ensures SectionsFrom(lines, Headers, 2).Ok? ==>
      AlmanacOf(lines).Ok? && Stages(AlmanacOf(lines).value) == SectionsFrom(lines, Headers, 2).value
  {
    var text := lines[0][|"seeds: "|..];
    assert StripPrefix(lines[0], "seeds: ") == Some(text);
    var sections := SectionsFrom(lines, Headers, 2);
    if sections.Ok? {
      var s := sections.value;
      var seeds := ParseNats(Split(text, " ")).value;
      AlmanacOfParts(lines, text, seeds, s);
      StagesOfSections(seeds, s);
    }
  }

  lemma StagesOfSections(seeds: seq<nat>, s: seq<seq<AlmanacMap>>)
    requires |s| == 7
    ensures Stages(Almanac(seeds, s[0], s[1], s[2], s[3], s[4], s[5], s[6])) == s
  {
  }

  /** An almanac is read exactly when the seeds parse, the second line is blank and all seven sections parse. */
  lemma AlmanacOfOk(lines: seq<string>)
    ensures AlmanacOf(lines).Ok? <==>
      (|lines| >= 2 && StartsWith(lines[0], "seeds: ") && ParseNats(Split(lines[0][|"seeds: "|..], " ")).Some?
       && lines[1] == "" && SectionsFrom(lines, Headers, 2).Ok?)
  {
    if |lines| > 0 && StartsWith(lines[0], "seeds: ") {
      AlmanacOfSeedErrors(lines);
      if |lines| >= 2 && lines[1] == "" && ParseNats(Split(lines[0][|"seeds: "|..], " ")).Some? {
        AlmanacOfSections(lines);
      }
    }
  }

  function PrependSections(done: seq<seq<AlmanacMap>>, r: Result<seq<seq<AlmanacMap>>, Error>): Result<seq<seq<AlmanacMap>>, Error>
  {
    match r
    case Err(e) => Err(e)
    case Ok(rest) => Ok(done + rest)
  }

  lemma PrependSectionsAppend(done: seq<seq<AlmanacMap>>, maps: seq<AlmanacMap>, r: Result<seq<seq<AlmanacMap>>, Error>)
    ensures PrependSections(done, PrependSections([maps], r)) == PrependSections(done + [maps], r)
  {
    if r.Ok? {
      assert done + ([maps] + r.value) == done + [maps] + r.value;
    }
  }

  /** One header of `SectionsFrom`: its section read at `pos`, then the remaining headers. */
  lemma SectionsFromStep(lines: seq<string>, headers: seq<string>, pos: nat)
    requires pos <= |lines| && headers != []
    ensures Section(lines, headers[0], pos).Err? ==>
      SectionsFrom(lines, headers, pos) == Err(Section(lines, headers[0], pos).error)
    ensures Section(lines, headers[0], pos).Ok? ==>
      var first := Section(lines, headers[0], pos).value;
      SectionsFrom(lines, headers, pos) == PrependSections([first.0], SectionsFrom(lines, headers[1..], first.1))
  {
  }

  /** The `parse_maps` calls of `Almanac::try_from`: one per header, in order, on the shared position. */
  method ParseSections(lines: seq<string>, headers: seq<string>, start: nat) returns (r: Result<seq<seq<AlmanacMap>>, Error>)
    requires start <= |lines|
    ensures r == SectionsFrom(lines, headers, start)
  {
    ghost var all := SectionsFrom(lines, headers, start);
    assert headers[0..] == headers;
    if all.Ok? {
      assert [] + all.value == all.value;
    }
    var sections: seq<seq<AlmanacMap>> := [];
    var pos: nat := start;
    for i := 0 to |headers|
      invariant pos <= |lines|
      invariant all == PrependSections(sections, SectionsFrom(lines, headers[i..], pos))
    {
      SectionsFromStep(lines, headers[i..], pos);
      assert headers[i..][1..] == headers[i + 1..];
      var section := ParseMaps(lines, headers[i], pos);
      if section.Err? {
        return Err(section.error);
      }
      PrependSectionsAppend(sections, section.value.0, SectionsFrom(lines, headers[i + 1..], section.value.1));
      sections := sections + [section.value.0];
      pos := section.value.1;
    }
    assert headers[|headers|..] == [];
    assert sections + [] == sections;
    r := Ok(sections);
  }

  /** `Almanac::try_from`: the seeds line, a blank line, then the seven sections. */
  method ParseAlmanac(lines: seq<string>) returns (r: Result<Almanac, Error>)
    ensures r == AlmanacOf(lines)
  {
    if |lines| == 0 {
      return Err(InvalidAlmanac);
    }
    var text := StripPrefix(lines[0], "seeds: ");
    if text.None? {
      return Err(InvalidAlmanac);
    }
    var seeds := ParseNats(Split(text.value, " "));
    if seeds.None? {
      return Err(ParseIntError);
    }
    if |lines| < 2 || lines[1] != "" {
      return Err(InvalidAlmanac);
    }
    var sections := ParseSections(lines, Headers, 2);
    if sections.Err? {
      return Err(sections.error);
    }
    var s := sections.value;
    r := Ok(Almanac(seeds.value, s[0], s[1], s[2], s[3], s[4], s[5], s[6]));
  }

  // ---------------------------------------------------------------------------
  // The almanac printed back as lines, and the parser's round trip

  function MapLines(maps: seq<AlmanacMap>): (r: seq<string>)
    ensures |r| == |maps|
  {
    seq(|maps|, i requires 0 <= i < |maps| => ShowAlmanacMap(maps[i]))
  }

  /** Each section as its header and rule lines; sections separated by one blank line. */
  function ShowSections(headers: seq<string>, sections: seq<seq<AlmanacMap>>): seq<string>
    requires |headers| == |sections|
    decreases |headers|
  {
    if headers == [] then []
    else
      var first := [headers[0]] + MapLines(sections[0]);
      if |headers| == 1 then first else first + [""] + ShowSections(headers[1..], sections[1..])
  }

  function ShowNats(ns: seq<nat>): (r: seq<string>)
    ensures |r| == |ns|
  {
    seq(|ns|, i requires 0 <= i < |ns| => ShowNat(ns[i]))
  }

  /** The almanac in the layout the parser reads. */
  function ShowAlmanac(a: Almanac): seq<string>
    requires |a.seeds| > 0
  {
    ["seeds: " + Join(ShowNats(a.seeds), " "), ""] + ShowSections(Headers, Stages(a))
  }

  /** A non-empty line that `parse` reads as `item`. */
  ghost predicate ParsesTo<T>(parse: string -> Result<T, Error>, line: string, item: T)
  {
    line != "" && parse(line) == Ok(item)
  }

  /** Lines that each parse, ended by the end of input or a blank line, are read as those items. */
  lemma {:induction false} ReadParsedLines<T>(lines: seq<string>, k: nat, parse: string -> Result<T, Error>, items: seq<T>)
    requires k + |items| <= |lines|
    requires forall i :: 0 <= i < |items| ==> ParsesTo(parse, lines[k + i], items[i])
    requires k + |items| == |lines| || lines[k + |items|] == ""
    ensures ReadUntilBlank(lines, k, parse) == Ok((items, if k + |items| == |lines| then |lines| else k + |items| + 1))
    decreases |items|
  {
    if items != [] {
      var tail := items[1..];
      assert ParsesTo(parse, lines[k + 0], items[0]);
      forall i | 0 <= i < |tail| ensures ParsesTo(parse, lines[k + 1 + i], tail[i]) {
        assert ParsesTo(parse, lines[k + (i + 1)], items[i + 1]);
      }
      ReadParsedLines(lines, k + 1, parse, tail);
      assert [items[0]] + tail == items;
    }
  }

  /** Every printed rule line is non-empty and parses back to its rule. */
  lemma MapLinesParse(lines: seq<string>, k: nat, maps: seq<AlmanacMap>)
    requires k + |maps| <= |lines|
    requires lines[k..k + |maps|] == MapLines(maps)
    ensures forall i :: 0 <= i < |maps| ==> ParsesTo(ParseAlmanacMap, lines[k + i], maps[i])
  {
    forall i | 0 <= i < |maps| ensures ParsesTo(ParseAlmanacMap, lines[k + i], maps[i]) {
      assert lines[k + i] == lines[k..k + |maps|][i] == ShowAlmanacMap(maps[i]);
      ParseAlmanacMapRoundTrip(maps[i]);
    }
  }

  /** Where the first printed section's header, rules and trailing blank line sit in `lines`. */
  lemma ShownLayout(lines: seq<string>, headers: seq<string>, sections: seq<seq<AlmanacMap>>, pos: nat)
    requires |headers| == |sections| > 0
    requires pos <= |lines| && lines[pos..] == ShowSections(headers, sections)
    ensures pos + 1 + |sections[0]| <= |lines|
    ensures lines[pos] == headers[0]
    ensures lines[pos + 1..pos + 1 + |sections[0]|] == MapLines(sections[0])
    ensures |headers| == 1 ==> pos + 1 + |sections[0]| == |lines|
    ensures |headers| > 1 ==> pos + 1 + |sections[0]| < |lines| && lines[pos + 1 + |sections[0]|] == ""
  {
    var n := |sections[0]|;
    var shown := lines[pos..];
    var first := [headers[0]] + MapLines(sections[0]);
    assert shown[..1 + n] == first;
    assert lines[pos + 1..pos + 1 + n] == shown[1..1 + n];
  }

  /** After the first printed section and its blank line come the remaining sections. */
  lemma ShownRest(lines: seq<string>, headers: seq<string>, sections: seq<seq<AlmanacMap>>, pos: nat)
    requires |headers| == |sections| > 1
    requires pos <= |lines| && lines[pos..] == ShowSections(headers, sections)
    ensures pos + |sections[0]| + 2 <= |lines|
    ensures lines[pos + |sections[0]| + 2..] == ShowSections(headers[1..], sections[1..])
  {
    var n := |sections[0]|;
    var shown := lines[pos..];
    var first := [headers[0]] + MapLines(sections[0]);
    assert shown == first + [""] + ShowSections(headers[1..], sections[1..]);
    assert lines[pos + n + 2..] == shown[n + 2..];
  }

  /** A header line, the printed rules, then the end of input or a blank line: a section that parses back. */
  lemma SectionOfShownRules(lines: seq<string>, header: string, maps: seq<AlmanacMap>, pos: nat)
    requires pos + 1 + |maps| <= |lines|
    requires lines[pos] == header && lines[pos + 1..pos + 1 + |maps|] == MapLines(maps)
    requires pos + 1 + |maps| == |lines| || lines[pos + 1 + |maps|] == ""
    ensures Section(lines, header, pos) ==
      Ok((maps, if pos + 1 + |maps| == |lines| then |lines| else pos + |maps| + 2))
  {
    MapLinesParse(lines, pos + 1, maps);
    SectionOfParsedLines(lines, header, maps, pos);
  }

  /** A header line, then lines that each parse as a rule, then the end of input or a blank line. */
  lemma SectionOfParsedLines(lines: seq<string>, header: string, maps: seq<AlmanacMap>, pos: nat)
    requires pos + 1 + |maps| <= |lines| && lines[pos] == header
    requires forall i :: 0 <= i < |maps| ==> ParsesTo(ParseAlmanacMap, lines[pos + 1 + i], maps[i])
    requires pos + 1 + |maps| == |lines| || lines[pos + 1 + |maps|] == ""
    ensures Section(lines, header, pos) ==
      Ok((maps, if pos + 1 + |maps| == |lines| then |lines| else pos + |maps| + 2))
  {
    ReadParsedLines(lines, pos + 1, ParseAlmanacMap, maps);
  }

  lemma {:induction false} SectionsFromShown(lines: seq<string>, headers: seq<string>, sections: seq<seq<AlmanacMap>>, pos: nat)
    requires |headers| == |sections|
    requires pos <= |lines| && lines[pos..] == ShowSections(headers, sections)
    ensures SectionsFrom(lines, headers, pos) == Ok(sections)
    decreases |headers|
  {
    if headers != [] {
      ShownLayout(lines, headers, sections, pos);
      SectionOfShownRules(lines, headers[0], sections[0], pos);
      SectionsFromStep(lines, headers, pos);
      var next := Section(lines, headers[0], pos).value.1;
      var rest := SectionsFrom(lines, headers[1..], next);
      if |headers| > 1 {
        ShownRest(lines, headers, sections, pos);
        SectionsFromShown(lines, headers[1..], sections[1..], next);
      } else {
        assert rest == Ok([]);
        assert sections[1..] == [];
      }
      assert rest == Ok(sections[1..]);
      assert [sections[0]] + sections[1..] == sections;
    }
  }

  lemma AlmanacOfParts(lines: seq<string>, text: string, seeds: seq<nat>, s: seq<seq<AlmanacMap>>)
    requires |lines| >= 2 && lines[1] == ""
    requires StripPrefix(lines[0], "seeds: ") == Some(text)
    requires ParseNats(Split(text, " ")) == Some(seeds)
    requires SectionsFrom(lines, Headers, 2) == Ok(s)
    ensures AlmanacOf(lines) == Ok(Almanac(seeds, s[0], s[1], s[2], s[3], s[4], s[5], s[6]))
  {
  }

  /** Printing an almanac with at least one seed and parsing the lines back gives the same almanac. */
  lemma ParseAlmanacRoundTrip(a: Almanac)
    requires |a.seeds| > 0
    ensures AlmanacOf(ShowAlmanac(a)) == Ok(a)
  {
    var lines := ShowAlmanac(a);
    var fields := ShowNats(a.seeds);
    forall k | 0 <= k < |fields| ensures Avoids(fields[k], ' ') {
      ShowNatAvoidsSpace(a.seeds[k]);
    }
    SplitJoin(fields, " ");
    forall k | 0 <= k < |fields| ensures ParseNat(fields[k]) == Some(a.seeds[k]) {
      ParseNatShowNat(a.seeds[k]);
    }
    assert StripPrefix(lines[0], "seeds: ") == Some(Join(fields, " "));
    var seeds := ParseNats(fields);
    assert seeds.value == a.seeds;
    assert lines[2..] == ShowSections(Headers, Stages(a));
    SectionsFromShown(lines, Headers, Stages(a), 2);
    var st := Stages(a);
    AlmanacOfParts(lines, Join(fields, " "), a.seeds, st);
    assert Almanac(a.seeds, st[0], st[1], st[2], st[3], st[4], st[5], st[6]) == a;
  }

  /** `part1`: parse, then the lowest location of the listed seeds. */
  method Part1(lines: seq<string>) returns (r: Result<nat, Error>)
    ensures AlmanacOf(lines).Err? ==> r == Err(AlmanacOf(lines).error)
    ensures AlmanacOf(lines).Ok? ==> r == LowestLocation(AlmanacOf(lines).value)
  {
    var almanac :- ParseAlmanac(lines);
    r := LowestLocation(almanac);
  }

  /** `part2`: parse, then the lowest location over the seed ranges. */
  method Part2(lines: seq<string>) returns (r: Result<nat, Error>)
    ensures AlmanacOf(lines).Err? ==> r == Err(AlmanacOf(lines).error)
    ensures AlmanacOf(lines).Ok? ==> r == LowestLocationInRanges(AlmanacOf(lines).value)
  {
    var almanac :- ParseAlmanac(lines);
    r := LowestLocationInRanges(almanac);
  }

  // ---------------------------------------------------------------------------
  // The worked examples

  lemma ApplyExample()
    ensures Apply(AlmanacMap(50, 98, 2), 0) == None
    ensures Apply(AlmanacMap(50, 98, 2), 98) == Some(50)
    ensures Apply(AlmanacMap(50, 98, 2), 99) == Some(51)
    ensures Apply(AlmanacMap(50, 98, 2), 100) == None
  {
  }

  const SeedToSoil: seq<AlmanacMap> := [AlmanacMap(50, 98, 2), AlmanacMap(52, 50, 48)]

  lemma ApplyAllExample()
    ensures ApplyAll(SeedToSoil, 79) == 81
    ensures ApplyAll(SeedToSoil, 14) == 14
    ensures ApplyAll(SeedToSoil, 55) == 57
    ensures ApplyAll(SeedToSoil, 13) == 13
  {
    ApplyAllNoMatch(SeedToSoil, 14);
    ApplyAllNoMatch(SeedToSoil, 13);
    ApplyAllFirstMatch(SeedToSoil, 79, 1);
    ApplyAllFirstMatch(SeedToSoil, 55, 1);
  }

  const Example := Almanac(
    [79, 14, 55, 13],
    SeedToSoil,
    [AlmanacMap(0, 15, 37), AlmanacMap(37, 52, 2), AlmanacMap(39, 0, 15)],
    [AlmanacMap(49, 53, 8), AlmanacMap(0, 11, 42), AlmanacMap(42, 0, 7), AlmanacMap(57, 7, 4)],
    [AlmanacMap(88, 18, 7), AlmanacMap(18, 25, 70)],
    [AlmanacMap(45, 77, 23), AlmanacMap(81, 45, 19), AlmanacMap(68, 64, 13)],
    [AlmanacMap(0, 69, 1), AlmanacMap(1, 0, 69)],
    [AlmanacMap(60, 56, 37), AlmanacMap(56, 93, 4)])

  lemma Seed79()
    ensures ConvertSeed(Example, 79) == 82
  {
    ApplyAllFirstMatch(Example.seedToSoil, 79, 1);
    ApplyAllNoMatch(Example.soilToFertilizer, 81);
    ApplyAllNoMatch(Example.fertilizerToWater, 81);
    ApplyAllFirstMatch(Example.waterToLight, 81, 1);
    ApplyAllFirstMatch(Example.lightToTemperature, 74, 2);
    ApplyAllNoMatch(Example.temperatureToHumidity, 78);
    ApplyAllFirstMatch(Example.humidityToLocation, 78, 0);
  }

  lemma Seed14()
    ensures ConvertSeed(Example, 14) == 43
  {
    ApplyAllNoMatch(Example.seedToSoil, 14);
    ApplyAllFirstMatch(Example.soilToFertilizer, 14, 2);
    ApplyAllFirstMatch(Example.fertilizerToWater, 53, 0);
    ApplyAllFirstMatch(Example.waterToLight, 49, 1);
    ApplyAllNoMatch(Example.lightToTemperature, 42);
    ApplyAllFirstMatch(Example.temperatureToHumidity, 42, 1);
    ApplyAllNoMatch(Example.humidityToLocation, 43);
  }

  lemma Seed55()
    ensures ConvertSeed(Example, 55) == 86
  {
    ApplyAllFirstMatch(Example.seedToSoil, 55, 1);
    ApplyAllNoMatch(Example.soilToFertilizer, 57);
    ApplyAllFirstMatch(Example.fertilizerToWater, 57, 0);
    ApplyAllFirstMatch(Example.waterToLight, 53, 1);
    ApplyAllFirstMatch(Example.lightToTemperature, 46, 1);
    ApplyAllNoMatch(Example.temperatureToHumidity, 82);
    ApplyAllFirstMatch(Example.humidityToLocation, 82, 0);
  }

  lemma Seed13()
    ensures ConvertSeed(Example, 13) == 35
  {
    ApplyAllNoMatch(Example.seedToSoil, 13);
    ApplyAllFirstMatch(Example.soilToFertilizer, 13, 2);
    ApplyAllFirstMatch(Example.fertilizerToWater, 52, 1);
    ApplyAllFirstMatch(Example.waterToLight, 41, 1);
    ApplyAllNoMatch(Example.lightToTemperature, 34);
    ApplyAllFirstMatch(Example.temperatureToHumidity, 34, 1);
    ApplyAllNoMatch(Example.humidityToLocation, 35);
  }

  /** The lowest location is any listed seed's location that no other listed seed's location undercuts. */
  lemma LowestLocationIs(a: Almanac, k: nat)
    requires k < |a.seeds|
    requires forall i :: 0 <= i < |a.seeds| ==> ConvertSeed(a, a.seeds[k]) <= ConvertSeed(a, a.seeds[i])
    ensures LowestLocation(a) == Ok(ConvertSeed(a, a.seeds[k]))
  {
    var r := LowestLocation(a);
    var i :| 0 <= i < |a.seeds| && r.value == ConvertSeed(a, a.seeds[i]);
  }

  /** Seed 13 ends at location 35, the least of the four listed seeds' locations. */
  lemma Part1Example()
    ensures LowestLocation(Example) == Ok(35)
  {
    var s := Example.seeds;
    forall i | 0 <= i < |s| ensures ConvertSeed(Example, s[3]) <= ConvertSeed(Example, s[i]) {
      Seed13();
      if i == 0 {
        Seed79();
      } else if i == 1 {
        Seed14();
      } else if i == 2 {
        Seed55();
      }
    }
    LowestLocationIs(Example, 3);
    Seed13();
  }

  // Part 2 on the example: the ranges [79, 93) and [55, 68), traced stage by
  // stage in pieces on which every stage applies a single rule (or none).

  lemma FirstRangeLow(v: nat)
    requires 79 <= v < 82
    ensures ConvertSeed(Example, v) == v + 3
  {
    ApplyAllFirstMatch(Example.seedToSoil, v, 1);
    ApplyAllNoMatch(Example.soilToFertilizer, v + 2);
    ApplyAllNoMatch(Example.fertilizerToWater, v + 2);
    ApplyAllFirstMatch(Example.waterToLight, v + 2, 1);
    ApplyAllFirstMatch(Example.lightToTemperature, v - 5, 2);
    ApplyAllNoMatch(Example.temperatureToHumidity, v - 1);
    ApplyAllFirstMatch(Example.humidityToLocation, v - 1, 0);
  }

  lemma FirstRangeMiddle(v: nat)
    requires 82 <= v < 92
    ensures ConvertSeed(Example, v) == v - 36
  {
    ApplyAllFirstMatch(Example.seedToSoil, v, 1);
    ApplyAllNoMatch(Example.soilToFertilizer, v + 2);
    ApplyAllNoMatch(Example.fertilizerToWater, v + 2);
    ApplyAllFirstMatch(Example.waterToLight, v + 2, 1);
    ApplyAllFirstMatch(Example.lightToTemperature, v - 5, 0);
    ApplyAllFirstMatch(Example.temperatureToHumidity, v - 37, 1);
    ApplyAllNoMatch(Example.humidityToLocation, v - 36);
  }

  lemma FirstRangeHigh()
    ensures ConvertSeed(Example, 92) == 60
  {
    ApplyAllFirstMatch(Example.seedToSoil, 92, 1);
    ApplyAllNoMatch(Example.soilToFertilizer, 94);
    ApplyAllNoMatch(Example.fertilizerToWater, 94);
    ApplyAllFirstMatch(Example.waterToLight, 94, 1);
    ApplyAllFirstMatch(Example.lightToTemperature, 87, 0);
    ApplyAllFirstMatch(Example.temperatureToHumidity, 55, 1);
    ApplyAllFirstMatch(Example.humidityToLocation, 56, 0);
  }

  lemma SecondRangeLow(v: nat)
    requires 55 <= v < 59
    ensures ConvertSeed(Example, v) == v + 31
  {
    ApplyAllFirstMatch(Example.seedToSoil, v, 1);
    ApplyAllNoMatch(Example.soilToFertilizer, v + 2);
    ApplyAllFirstMatch(Example.fertilizerToWater, v + 2, 0);
    ApplyAllFirstMatch(Example.waterToLight, v - 2, 1);
    ApplyAllFirstMatch(Example.lightToTemperature, v - 9, 1);
    ApplyAllNoMatch(Example.temperatureToHumidity, v + 27);
    ApplyAllFirstMatch(Example.humidityToLocation, v + 27, 0);
  }

  lemma SecondRangeMiddle(v: nat)
    requires 59 <= v < 62
    ensures ConvertSeed(Example, v) == v + 35
  {
    ApplyAllFirstMatch(Example.seedToSoil, v, 1);
    ApplyAllNoMatch(Example.soilToFertilizer, v + 2);
    ApplyAllNoMatch(Example.fertilizerToWater, v + 2);
    ApplyAllFirstMatch(Example.waterToLight, v + 2, 1);
    ApplyAllFirstMatch(Example.lightToTemperature, v - 5, 1);
    ApplyAllNoMatch(Example.temperatureToHumidity, v + 31);
    ApplyAllFirstMatch(Example.humidityToLocation, v + 31, 0);
  }

  lemma SecondRangeHigh(v: nat)
    requires 62 <= v < 66
    ensures ConvertSeed(Example, v) == v - 6
  {
    ApplyAllFirstMatch(Example.seedToSoil, v, 1);
    ApplyAllNoMatch(Example.soilToFertilizer, v + 2);
    ApplyAllNoMatch(Example.fertilizerToWater, v + 2);
    ApplyAllFirstMatch(Example.waterToLight, v + 2, 1);
    ApplyAllFirstMatch(Example.lightToTemperature, v - 5, 1);
    ApplyAllNoMatch(Example.temperatureToHumidity, v + 31);
    ApplyAllFirstMatch(Example.humidityToLocation, v + 31, 1);
  }

  lemma SecondRangeTop(v: nat)
    requires 66 <= v < 68
    ensures ConvertSeed(Example, v) == v + 31
  {
    ApplyAllFirstMatch(Example.seedToSoil, v, 1);
    ApplyAllNoMatch(Example.soilToFertilizer, v + 2);
    ApplyAllNoMatch(Example.fertilizerToWater, v + 2);
    ApplyAllFirstMatch(Example.waterToLight, v + 2, 1);
    ApplyAllFirstMatch(Example.lightToTemperature, v - 5, 1);
    ApplyAllNoMatch(Example.temperatureToHumidity, v + 31);
    ApplyAllNoMatch(Example.humidityToLocation, v + 31);
  }

  /** The lowest location over the ranges is attained at `w` when no value in the ranges undercuts it. */
  lemma LowestLocationInRangesIs(a: Almanac, w: nat)
    requires InSeedRanges(a, w)
    requires forall v: nat :: InSeedRanges(a, v) ==> ConvertSeed(a, w) <= ConvertSeed(a, v)
    ensures LowestLocationInRanges(a) == Ok(ConvertSeed(a, w))
  {
    var r := LowestLocationInRanges(a);
    assert r.Ok?;
    LeastIsAttained(r, (v: nat) => InSeedRanges(a, v), (v: nat) => ConvertSeed(a, v), w);
  }

  /** A minimum of `f` over the values `inSet` accepts is `f(w)` for any `w` no accepted value undercuts. */
  lemma LeastIsAttained(r: Result<nat, Error>, inSet: nat -> bool, f: nat -> nat, w: nat)
    requires inSet(w)
    requires forall v: nat :: inSet(v) ==> f(w) <= f(v)
    requires r.Ok?
    requires exists v: nat :: inSet(v) && r.value == f(v)
    requires forall v: nat :: inSet(v) ==> r.value <= f(v)
    ensures r == Ok(f(w))
  {
    var v: nat :| inSet(v) && r.value == f(v);
  }

  /** No seed of the example's ranges reaches a location below 46. */
  lemma ExampleRangesBound(a: Almanac, v: nat)
    requires a == Example && InSeedRanges(a, v)
    ensures 46 <= ConvertSeed(a, v)
  {
    var s := a.seeds;
    var i :| 0 <= i < |s| / 2 && s[2 * i] <= v < s[2 * i] + s[2 * i + 1];
    if i == 0 {
      assert 79 <= v < 93;
      if v < 82 { FirstRangeLow(v); }
      else if v < 92 { FirstRangeMiddle(v); }
      else { FirstRangeHigh(); }
    } else {
      assert 55 <= v < 68;
      if v < 59 { SecondRangeLow(v); }
      else if v < 62 { SecondRangeMiddle(v); }
      else if v < 66 { SecondRangeHigh(v); }
      else { SecondRangeTop(v); }
    }
  }

  /** Seed 82 of the range [79, 93) reaches location 46, and no seed of either range gets lower. */
  lemma Part2Example(a: Almanac)
    requires a == Example
    ensures LowestLocationInRanges(a) == Ok(46)
  {
    assert InSeedRanges(a, 82) by {
      assert a.seeds[2 * 0] <= 82 < a.seeds[2 * 0] + a.seeds[2 * 0 + 1];
    }
    FirstRangeMiddle(82);
    forall v: nat | InSeedRanges(a, v) ensures ConvertSeed(a, 82) <= ConvertSeed(a, v) {
      ExampleRangesBound(a, v);
    }
    LowestLocationInRangesIs(a, 82);
  }
}
