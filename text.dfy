/**
 * The pieces of Rust's `str` API the solvers rely on, over `seq<char>`:
 * decimal integer parsing (`str::parse`), `find`/`rfind`, `split`,
 * `split_whitespace`, `strip_prefix` and `replace(c, "")`.
 * Only ASCII digits and ASCII whitespace are modelled.
 */
module Text {
  import opened Results

  // ---------------------------------------------------------------------------
  // Decimal digits and integer parsing

  predicate IsDigit(c: char) { '0' <= c <= '9' }

  function DigitValue(c: char): (d: nat)
    requires IsDigit(c)
    ensures d < 10
  {
    (c as int) - ('0' as int)
  }

  function DigitChar(d: nat): (c: char)
    requires d < 10
    ensures IsDigit(c) && DigitValue(c) == d
  {
    (('0' as int) + d) as char
  }

  predicate AllDigits(s: string) { forall i :: 0 <= i < |s| ==> IsDigit(s[i]) }

  /** The value of a string of decimal digits, most significant digit first. */
  function DigitsValue(s: string): nat
    requires AllDigits(s)
    decreases |s|
  {
    if s == [] then 0 else 10 * DigitsValue(s[..|s| - 1]) + DigitValue(s[|s| - 1])
  }

  function Pow10(n: nat): (r: nat)
    ensures r > 0
  {
    if n == 0 then 1 else 10 * Pow10(n - 1)
  }

  /** Digits written after others shift the others' value left by their length. */
  lemma {:induction false} DigitsValueAppend(a: string, b: string)
    requires AllDigits(a) && AllDigits(b)
    ensures AllDigits(a + b)
    ensures DigitsValue(a + b) == DigitsValue(a) * Pow10(|b|) + DigitsValue(b)
    decreases |b|
  {
    var s := a + b;
    assert forall i :: 0 <= i < |s| ==> s[i] == if i < |a| then a[i] else b[i - |a|];
    if b == [] {
      assert s == a;
    } else {
      var n := |b| - 1;
      var front := b[..n];
      assert s[..|s| - 1] == a + front;
      assert s[|s| - 1] == b[n];
      DigitsValueAppend(a, front);
      var x := DigitsValue(a);
      var p := Pow10(n);
      ShiftTen(x, p);
    }
  }

  lemma ShiftTen(x: nat, p: nat)
    ensures 10 * (x * p) == x * (10 * p)
  {
  }

  /** Decimal rendering of a natural number, without sign or leading zeros. */
  function ShowNat(n: nat): (r: string)
    ensures |r| > 0 && AllDigits(r)
    decreases n
  {
    if n < 10 then [DigitChar(n)] else ShowNat(n / 10) + [DigitChar(n % 10)]
  }

  lemma {:induction false} DigitsValueOfShowNat(n: nat)
    ensures DigitsValue(ShowNat(n)) == n
    decreases n
  {
    if n >= 10 {
      var s := ShowNat(n);
      assert s[..|s| - 1] == ShowNat(n / 10);
      DigitsValueOfShowNat(n / 10);
    }
  }

  /**
   * Parsing an unsigned integer the way Rust's `str::parse::<usize>` does:
   * an optional '+' followed by at least one digit; anything else is an error.
   * Rust's overflow error is not modelled: integers are unbounded.
   */
  function ParseNat(s: string): (r: Option<nat>)
  {
    if |s| > 0 && AllDigits(s) then Some(DigitsValue(s))
    else if |s| > 1 && s[0] == '+' && AllDigits(s[1..]) then Some(DigitsValue(s[1..]))
    else None
  }

  lemma ParseNatShowNat(n: nat)
    ensures ParseNat(ShowNat(n)) == Some(n)
  {
    DigitsValueOfShowNat(n);
  }

  /** Rust's `str::parse::<i64>`: an optional '+' or '-' followed by at least one digit. */
  function ParseInt(s: string): (r: Option<int>)
  {
    if |s| > 1 && s[0] == '-' && AllDigits(s[1..]) then Some(0 - DigitsValue(s[1..]))
    else match ParseNat(s)
      case Some(n) => Some(n)
      case None => None
  }

  function ShowInt(i: int): (r: string)
  {
    if i < 0 then "-" + ShowNat(-i) else ShowNat(i)
  }

  /** A minus sign followed by the digits of n parses to -n. */
  lemma ParseIntNegative(n: nat)
    ensures ParseInt("-" + ShowNat(n)) == Some(0 - n)
  {
    var t := ShowNat(n);
    assert ("-" + t)[1..] == t;
    DigitsValueOfShowNat(n);
  }

  lemma ParseIntShowInt(i: int)
    ensures ParseInt(ShowInt(i)) == Some(i)
  {
    if i < 0 {
      ParseIntNegative(-i);
    } else {
      assert IsDigit(ShowNat(i)[0]);
      ParseNatShowNat(i);
    }
  }

  // ---------------------------------------------------------------------------
  // Searching for a pattern: `str::find` and `str::rfind`

  predicate OccursAt(s: string, pat: string, i: nat)
  {
    i + |pat| <= |s| && s[i..i + |pat|] == pat
  }

  lemma OccursAtTail(s: string, pat: string, i: nat)
    requires |s| > 0
    ensures OccursAt(s[1..], pat, i) <==> OccursAt(s, pat, i + 1)
  {
    if i + 1 + |pat| <= |s| {
      assert s[1..][i..i + |pat|] == s[i + 1..i + 1 + |pat|];
    }
  }

  lemma OccursAtPrefix(s: string, pat: string, i: nat)
    requires |s| > 0
    ensures OccursAt(s[..|s| - 1], pat, i) <==> OccursAt(s, pat, i) && i + |pat| < |s|
  {
    if i + |pat| < |s| {
      assert s[..|s| - 1][i..i + |pat|] == s[i..i + |pat|];
    }
  }

  /** `s.find(pat)`: the leftmost position at which `pat` occurs in `s`. */
  function IndexOf(s: string, pat: string): (r: Option<nat>)
    ensures r.Some? ==> OccursAt(s, pat, r.value)
    ensures r.Some? ==> forall j: nat :: j < r.value ==> !OccursAt(s, pat, j)
    ensures r.None? ==> forall j: nat :: !OccursAt(s, pat, j)
    decreases |s|
  {
    if |s| < |pat| then None
    else if s[..|pat|] == pat then Some(0)
    else
      var r := IndexOf(s[1..], pat);
      assert forall j: nat :: OccursAt(s[1..], pat, j) <==> OccursAt(s, pat, j + 1) by {
        forall j: nat ensures OccursAt(s[1..], pat, j) <==> OccursAt(s, pat, j + 1) {
          OccursAtTail(s, pat, j);
        }
      }
      assert !OccursAt(s, pat, 0);
      match r
      case None =>
        assert forall j: nat :: !OccursAt(s, pat, j) by {
          forall j: nat ensures !OccursAt(s, pat, j) {
            if j > 0 { assert !OccursAt(s[1..], pat, j - 1); }
          }
        }
        None
      case Some(i) =>
        assert forall j: nat :: j < i + 1 ==> !OccursAt(s, pat, j) by {
          forall j: nat | j < i + 1 ensures !OccursAt(s, pat, j) {
            if j > 0 { assert !OccursAt(s[1..], pat, j - 1); }
          }
        }
        Some(i + 1)
  }

  /** `s.rfind(pat)`: the rightmost position at which `pat` occurs in `s`. */
  function LastIndexOf(s: string, pat: string): (r: Option<nat>)
    ensures r.Some? ==> OccursAt(s, pat, r.value)
    ensures r.Some? ==> forall j: nat :: r.value < j ==> !OccursAt(s, pat, j)
    ensures r.None? ==> forall j: nat :: !OccursAt(s, pat, j)
    decreases |s|
  {
    if |s| < |pat| then None
    else if s[|s| - |pat|..] == pat then Some(|s| - |pat|)
    else
      assert forall j: nat :: OccursAt(s[..|s| - 1], pat, j) <==> OccursAt(s, pat, j) && j + |pat| < |s| by {
        forall j: nat ensures OccursAt(s[..|s| - 1], pat, j) <==> OccursAt(s, pat, j) && j + |pat| < |s| {
          OccursAtPrefix(s, pat, j);
        }
      }
      LastIndexOf(s[..|s| - 1], pat)
  }

  // ---------------------------------------------------------------------------
  // `str::split` on a non-empty separator, and its inverse

  /** The pieces of `s` between the non-overlapping, leftmost-first occurrences of `sep`. */
  function Split(s: string, sep: string): (r: seq<string>)
    requires |sep| > 0
    ensures |r| > 0
    decreases |s|
  {
    match IndexOf(s, sep)
    case None => [s]
    case Some(i) => [s[..i]] + Split(s[i + |sep|..], sep)
  }

  function Join(pieces: seq<string>, sep: string): string
    requires |pieces| > 0
  {
    if |pieces| == 1 then pieces[0] else pieces[0] + sep + Join(pieces[1..], sep)
  }

  lemma {:induction false} JoinSplit(s: string, sep: string)
    requires |sep| > 0
    ensures Join(Split(s, sep), sep) == s
    decreases |s|
  {
    match IndexOf(s, sep)
    case None =>
    case Some(i) =>
      JoinSplit(s[i + |sep|..], sep);
      assert s == s[..i] + sep + s[i + |sep|..];
  }

  /** No piece produced by `Split` contains the separator. */
  lemma {:induction false} SplitPiecesAvoidSeparator(s: string, sep: string)
    requires |sep| > 0
    ensures forall k :: 0 <= k < |Split(s, sep)| ==> IndexOf(Split(s, sep)[k], sep).None?
    decreases |s|
  {
    match IndexOf(s, sep)
    case None =>
    case Some(i) =>
      var rest := s[i + |sep|..];
      SplitPiecesAvoidSeparator(rest, sep);
      var p := s[..i];
      if IndexOf(p, sep).Some? {
        var j := IndexOf(p, sep).value;
        assert p[j..j + |sep|] == s[j..j + |sep|];
        assert OccursAt(s, sep, j);
        assert false;
      }
      var pieces := Split(s, sep);
      assert pieces == [p] + Split(rest, sep);
      forall k | 0 <= k < |pieces| ensures IndexOf(pieces[k], sep).None? {
        if k > 0 {
          assert pieces[k] == Split(rest, sep)[k - 1];
        }
      }
  }

  predicate Avoids(s: string, c: char) { forall i :: 0 <= i < |s| ==> s[i] != c }

  /** Joining pieces that avoid c with a separator that avoids c gives a string that avoids c. */
  lemma {:induction false} JoinAvoids(pieces: seq<string>, sep: string, c: char)
    requires |pieces| > 0 && Avoids(sep, c)
    requires forall k :: 0 <= k < |pieces| ==> Avoids(pieces[k], c)
    ensures Avoids(Join(pieces, sep), c)
    decreases |pieces|
  {
    if |pieces| > 1 {
      JoinAvoids(pieces[1..], sep, c);
    }
  }

  /** The first occurrence is the one with no occurrence before it. */
  lemma IndexOfIs(s: string, pat: string, i: nat)
    requires OccursAt(s, pat, i) && forall j: nat :: j < i ==> !OccursAt(s, pat, j)
    ensures IndexOf(s, pat) == Some(i)
  {
  }

  /** The separator cannot occur at a position whose character differs from its first one. */
  lemma NotOccursAt(s: string, sep: string, j: nat)
    requires |sep| > 0 && (j < |s| ==> s[j] != sep[0])
    ensures !OccursAt(s, sep, j)
  {
    if j + |sep| <= |s| {
      assert s[j..j + |sep|][0] == s[j];
    }
  }

  /** A piece that avoids the separator's first character is not split. */
  lemma SplitOne(p: string, sep: string)
    requires |sep| > 0 && Avoids(p, sep[0])
    ensures Split(p, sep) == [p]
  {
    forall j: nat ensures !OccursAt(p, sep, j) {
      NotOccursAt(p, sep, j);
    }
  }

  /** The first separator after such a piece ends it. */
  lemma SplitFirst(p: string, sep: string, rest: string)
    requires |sep| > 0 && Avoids(p, sep[0])
    ensures Split(p + sep + rest, sep) == [p] + Split(rest, sep)
  {
    var tail := sep + rest;
    var s := p + tail;
    assert p + sep + rest == s;
    assert tail[..|sep|] == sep && tail[|sep|..] == rest;
    assert s[..|p|] == p && s[|p|..] == tail;
    assert s[|p|..|p| + |sep|] == tail[..|sep|];
    forall j: nat | j < |p| ensures !OccursAt(s, sep, j) {
      assert s[j] == p[j];
      NotOccursAt(s, sep, j);
    }
    IndexOfIs(s, sep, |p|);
    assert s[|p| + |sep|..] == tail[|sep|..];
  }

  /**
   * Splitting undoes joining pieces that do not contain the separator's first
   * character (so that no occurrence of the separator starts inside a piece).
   */
  lemma {:induction false} SplitJoin(pieces: seq<string>, sep: string)
    requires |pieces| > 0 && |sep| > 0
    requires forall k :: 0 <= k < |pieces| ==> Avoids(pieces[k], sep[0])
    ensures Split(Join(pieces, sep), sep) == pieces
    decreases |pieces|
  {
    if |pieces| == 1 {
      SplitOne(pieces[0], sep);
    } else {
      var tail := pieces[1..];
      assert Join(pieces, sep) == pieces[0] + sep + Join(tail, sep);
      assert forall k :: 0 <= k < |tail| ==> tail[k] == pieces[k + 1];
      SplitFirst(pieces[0], sep, Join(tail, sep));
      SplitJoin(tail, sep);
    }
  }

  // ---------------------------------------------------------------------------
  // `str::split_whitespace`

  /** ASCII whitespace: tab, line feed, vertical tab, form feed, carriage return, space. */
  predicate IsSpace(c: char) { c == ' ' || '\t' <= c <= '\r' }

  predicate NoSpace(s: string) { forall i :: 0 <= i < |s| ==> !IsSpace(s[i]) }

  /** The length of the run of non-whitespace characters that starts `s`. */
  function WordLength(s: string): (n: nat)
    ensures n <= |s| && NoSpace(s[..n]) && (n == |s| || IsSpace(s[n]))
    decreases |s|
  {
    if s == [] || IsSpace(s[0]) then 0
    else
      var n := WordLength(s[1..]);
      assert s[..n + 1] == [s[0]] + s[1..][..n];
      n + 1
  }

  /** The maximal runs of non-whitespace characters of `s`, in order. */
  function Words(s: string): (r: seq<string>)
    ensures forall k :: 0 <= k < |r| ==> |r[k]| > 0 && NoSpace(r[k])
    decreases |s|
  {
    if s == [] then []
    else if IsSpace(s[0]) then Words(s[1..])
    else
      var n := WordLength(s);
      [s[..n]] + Words(s[n..])
  }

  /** A word followed by whitespace is measured exactly. */
  lemma {:induction false} WordLengthOfWord(a: string, rest: string)
    requires NoSpace(a) && (rest == [] || IsSpace(rest[0]))
    ensures WordLength(a + rest) == |a|
    decreases |a|
  {
    if a != [] {
      assert (a + rest)[1..] == a[1..] + rest;
      WordLengthOfWord(a[1..], rest);
    }
  }

  /** A word followed by whitespace or the end is the first word. */
  lemma WordsOfWordThen(a: string, rest: string)
    requires |a| > 0 && NoSpace(a) && (rest == [] || IsSpace(rest[0]))
    ensures Words(a + rest) == [a] + Words(rest)
  {
    var s := a + rest;
    WordLengthOfWord(a, rest);
    assert s[..|a|] == a && s[|a|..] == rest;
  }

  /** Two words separated by one space split back into those two words. */
  lemma WordsOfTwo(a: string, b: string)
    requires |a| > 0 && |b| > 0 && NoSpace(a) && NoSpace(b)
    ensures Words(a + " " + b) == [a, b]
  {
    assert a + " " + b == a + (" " + b);
    WordsOfWordThen(a, " " + b);
    assert (" " + b)[1..] == b;
    assert b + [] == b;
    WordsOfWordThen(b, []);
  }

  /** Whitespace before the words is skipped. */
  lemma WordsAfterSpace(c: char, rest: string)
    requires IsSpace(c)
    ensures Words([c] + rest) == Words(rest)
  {
    assert ([c] + rest)[1..] == rest;
  }

  /** Words written with single spaces between them split back into those words. */
  lemma {:induction false} WordsOfJoin(ws: seq<string>)
    requires |ws| > 0
    requires forall k :: 0 <= k < |ws| ==> |ws[k]| > 0 && NoSpace(ws[k])
    ensures Words(Join(ws, " ")) == ws
    decreases |ws|
  {
    if |ws| == 1 {
      assert ws[0] + [] == ws[0];
      WordsOfWordThen(ws[0], []);
    } else {
      var tail := Join(ws[1..], " ");
      assert Join(ws, " ") == ws[0] + (" " + tail);
      WordsOfWordThen(ws[0], " " + tail);
      WordsAfterSpace(' ', tail);
      WordsOfJoin(ws[1..]);
      assert ws == [ws[0]] + ws[1..];
    }
  }

  /** The characters of `s` that are not whitespace, in order. */
  function NonSpace(s: string): (r: string)
    ensures NoSpace(r) && |r| <= |s|
    decreases |s|
  {
    if s == [] then []
    else (if IsSpace(s[0]) then [] else [s[0]]) + NonSpace(s[1..])
  }

  /** The words written one after the other. */
  function Concat(ws: seq<string>): string
    decreases |ws|
  {
    if ws == [] then [] else ws[0] + Concat(ws[1..])
  }

  lemma {:induction false} NonSpaceAppend(a: string, b: string)
    ensures NonSpace(a + b) == NonSpace(a) + NonSpace(b)
    decreases |a|
  {
    if a != [] {
      assert (a + b)[0] == a[0] && (a + b)[1..] == a[1..] + b;
      NonSpaceAppend(a[1..], b);
      var head := if IsSpace(a[0]) then [] else [a[0]];
      assert NonSpace(a + b) == head + (NonSpace(a[1..]) + NonSpace(b));
      assert NonSpace(a) == head + NonSpace(a[1..]);
    } else {
      assert a + b == b;
    }
  }

  lemma {:induction false} NonSpaceOfWord(a: string)
    requires NoSpace(a)
    ensures NonSpace(a) == a
    decreases |a|
  {
    if a != [] {
      NonSpaceOfWord(a[1..]);
      assert a == [a[0]] + a[1..];
    }
  }

  /** Together the words hold exactly the non-whitespace characters of `s`, in order. */
  lemma {:induction false} WordsCover(s: string)
    ensures Concat(Words(s)) == NonSpace(s)
    decreases |s|
  {
    if s != [] {
      if IsSpace(s[0]) {
        WordsCover(s[1..]);
      } else {
        var n := WordLength(s);
        var word, rest := s[..n], s[n..];
        WordsCover(rest);
        assert s == word + rest;
        NonSpaceAppend(word, rest);
        NonSpaceOfWord(word);
        var ws := Words(s);
        assert ws == [word] + Words(rest);
        assert ws[1..] == Words(rest);
      }
    }
  }

  // ---------------------------------------------------------------------------
  // Prefixes and character removal

  predicate StartsWith(s: string, prefix: string)
  {
    |prefix| <= |s| && s[..|prefix|] == prefix
  }

  /** `s.strip_prefix(prefix)`. */
  function StripPrefix(s: string, prefix: string): (r: Option<string>)
    ensures r.Some? <==> StartsWith(s, prefix)
    ensures r.Some? ==> s == prefix + r.value
  {
    if StartsWith(s, prefix) then Some(s[|prefix|..]) else None
  }

  /** `s.replace(c, "")`: `s` with every occurrence of `c` removed. */
  function Remove(s: string, c: char): (r: string)
    ensures Avoids(r, c)
    ensures |r| <= |s|
    ensures Avoids(s, c) ==> r == s
    decreases |s|
  {
    if s == [] then []
    else if s[0] == c then Remove(s[1..], c)
    else [s[0]] + Remove(s[1..], c)
  }

  /** Removal distributes over concatenation. */
  lemma {:induction false} RemoveAppend(a: string, b: string, c: char)
    ensures Remove(a + b, c) == Remove(a, c) + Remove(b, c)
    decreases |a|
  {
    if a != [] {
      var s := a + b;
      assert s[0] == a[0] && s[1..] == a[1..] + b;
      RemoveAppend(a[1..], b, c);
      if a[0] != c {
        assert Remove(s, c) == [a[0]] + Remove(s[1..], c);
        assert Remove(a, c) == [a[0]] + Remove(a[1..], c);
        assert [a[0]] + (Remove(a[1..], c) + Remove(b, c)) == ([a[0]] + Remove(a[1..], c)) + Remove(b, c);
      } else {
        assert Remove(s, c) == Remove(s[1..], c);
      }
    } else {
      assert a + b == b;
    }
  }
}
