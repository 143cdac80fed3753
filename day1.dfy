/**
 * Day 1 (src/bin/day1.rs): calibration values.  Part one reads the first and
 * last ASCII digit of each line; part two also reads the digit words "zero"
 * to "nine", scanning the line with `FindNextDigit` until nothing is left.
 *
 * A word match keeps the word's last letter in the remainder so that chained
 * words such as "twone" give both digits, except "five", whose four letters
 * are all consumed: "fiveight" gives 5 only.  `FindNextDigit` models the code
 * as written; `FindNextDigitOverlapping` keeps the "e" of "five" as well and
 * is proved to read the digit at every position of the line.
 */
module Day1 {
  import opened Wrappers
  import opened Ascii

  /** `str::starts_with`. */
  predicate StartsWith(s: string, prefix: string) {
    |prefix| <= |s| && s[..|prefix|] == prefix
  }

  /** The word spelling digit d. */
  function Spelling(d: nat): (w: string)
    requires d <= 9
    ensures 3 <= |w| <= 5
  {
    ["zero", "one", "two", "three", "four", "five", "six", "seven", "eight", "nine"][d]
  }

  /** No two digit words start the same string: their first two letters differ. */
  lemma SpellingsExclusive(s: string)
    ensures forall d, e :: 0 <= d <= 9 && 0 <= e <= 9 ==>
              (StartsWith(s, Spelling(d)) && StartsWith(s, Spelling(e)) ==> d == e)
  {
    forall d, e | 0 <= d <= 9 && 0 <= e <= 9 && StartsWith(s, Spelling(d)) && StartsWith(s, Spelling(e))
      ensures d == e
    {
      assert s[0] == Spelling(d)[0] == Spelling(e)[0];
      assert s[1] == Spelling(d)[1] == Spelling(e)[1];
    }
  }

  /** What one step of the scan reads: maybe a digit, and the rest of the line if any. */
  type Step = (Option<nat>, Option<string>)

  /**
   * `find_next_digit`: a leading ASCII digit, or a leading digit word, is read
   * and consumed; a word keeps its last letter in the remainder, except "five"
   * which is consumed whole; any other leading char is skipped.  The empty
   * line yields nothing and no remainder.
   */
  function FindNextDigit(input: string): (r: Step)
    ensures input == [] <==> r.1.None?
    ensures input == [] ==> r.0.None?
    ensures r.1.Some? ==> |r.1.value| < |input| && r.1.value == input[|input| - |r.1.value|..]
    ensures input != [] && IsAsciiDigit(input[0]) ==>
              r == (Some(DigitValue(input[0])), Some(input[1..]))
    ensures input != [] && !IsAsciiDigit(input[0]) ==>
              forall d :: 0 <= d <= 9 && StartsWith(input, Spelling(d)) ==>
                r == (Some(d), Some(input[Consumed(d)..]))
    ensures input != [] && !IsAsciiDigit(input[0]) && NoWordAt(input) ==>
              r == (None, Some(input[1..]))
  {
    SpellingsExclusive(input);
    if input == [] then (None, None)
    else if IsAsciiDigit(input[0]) then (Some(DigitValue(input[0])), Some(input[1..]))
    else if StartsWith(input, "zero") then (Some(0), Some(input[3..]))
    else if StartsWith(input, "one") then (Some(1), Some(input[2..]))
    else if StartsWith(input, "two") then (Some(2), Some(input[2..]))
    else if StartsWith(input, "three") then (Some(3), Some(input[4..]))
    else if StartsWith(input, "four") then (Some(4), Some(input[3..]))
    else if StartsWith(input, "five") then (Some(5), Some(input[4..]))
    else if StartsWith(input, "six") then (Some(6), Some(input[2..]))
    else if StartsWith(input, "seven") then (Some(7), Some(input[4..]))
    else if StartsWith(input, "eight") then (Some(8), Some(input[4..]))
    else if StartsWith(input, "nine") then (Some(9), Some(input[3..]))
    else (None, Some(input[1..]))
  }

  /** No digit word starts the string. */
  predicate NoWordAt(s: string) {
    forall d :: 0 <= d <= 9 ==> !StartsWith(s, Spelling(d))
  }

  /** The digit a step read, as a list of zero or one digits. */
  function Emitted(d: Option<nat>): seq<nat> {
    if d.Some? then [d.value] else []
  }

  /**
   * The digits `parse_line` collects: the scan of `FindNextDigit` steps, each
   * on the remainder the previous one left, until no remainder is left.
   */
  function ScanDigits(input: string): (ds: seq<nat>)
    ensures |ds| <= |input|
    ensures forall i :: 0 <= i < |ds| ==> ds[i] <= 9
    decreases |input|
  {
    var step := FindNextDigit(input);
    Emitted(step.0) + if step.1.Some? then ScanDigits(step.1.value) else []
  }

  /** The digits still to be read after a step: the scan of its remainder, if any. */
  function ScanRest(step: Step): seq<nat>
  {
    if step.1.Some? then ScanDigits(step.1.value) else []
  }

  /** One more step of `parse_line` keeps the digits collected so far a prefix of the scan. */
  lemma ScanAdvance(digits: seq<nat>, rest: string, input: string)
    requires digits + ScanDigits(rest) == ScanDigits(input)
    ensures var next := FindNextDigit(rest);
      (if next.0.Some? then digits + [next.0.value] else digits) + ScanRest(next) == ScanDigits(input)
  {
    var next := FindNextDigit(rest);
    var tail := ScanRest(next);
    assert ScanDigits(rest) == Emitted(next.0) + tail;
    if next.0.Some? {
      assert digits + ([next.0.value] + tail) == (digits + [next.0.value]) + tail;
    } else {
      assert Emitted(next.0) + tail == tail;
    }
  }

  /** `parse_line`: the while loop that repeats `find_next_digit` on the remainder. */
  method ParseLine(input: string) returns (digits: seq<nat>)
    ensures digits == ScanDigits(input)
  {
    digits := [];
    var next := FindNextDigit(input);
    ScanAdvance([], input, input);
    if next.0.Some? {
      digits := digits + [next.0.value];
    }
    while next.1.Some?
      invariant digits + ScanRest(next) == ScanDigits(input)
      decreases if next.1.Some? then |next.1.value| + 1 else 0
    {
      var rest := next.1.value;
      ScanAdvance(digits, rest, input);
      next := FindNextDigit(rest);
      if next.0.Some? {
        digits := digits + [next.0.value];
      }
    }
  }

  /** c is neither an ASCII digit nor the first letter of a digit word. */
  predicate StartsNothing(c: char) {
    !IsAsciiDigit(c) && c !in {'z', 'o', 't', 'f', 's', 'e', 'n'}
  }

  /** A string whose first char starts nothing has no digit word at its start. */
  lemma NoWordAfter(c: char, t: string)
    requires StartsNothing(c)
    ensures NoWordAt([c] + t)
  {
    forall d | 0 <= d <= 9
      ensures !StartsWith([c] + t, Spelling(d))
    {
      PrefixChars([c] + t, Spelling(d));
    }
  }

  /** A char that starts nothing is skipped and yields no digit. */
  lemma {:induction false} ScanSkips(c: char, t: string)
    requires StartsNothing(c)
    ensures ScanDigits([c] + t) == ScanDigits(t)
  {
    NoWordAfter(c, t);
    assert ([c] + t)[1..] == t;
  }

  /** How many letters of word d a match consumes: all but the last, and all four of "five". */
  function Consumed(d: nat): (n: nat)
    requires d <= 9
    ensures n >= 2
    ensures d != 5 <==> n == |Spelling(d)| - 1
    ensures d == 5 ==> n == |Spelling(d)|
  {
    if d == 5 then 4 else |Spelling(d)| - 1
  }

  /** A leading word is read as its digit and the step leaves what follows the consumed letters. */
  lemma FindWord(d: nat, t: string)
    requires d <= 9
    ensures FindNextDigit(Spelling(d) + t) == (Some(d), Some(Spelling(d)[Consumed(d)..] + t))
  {
    var s := Spelling(d) + t;
    assert s[..|Spelling(d)|] == Spelling(d);
    assert s[Consumed(d)..] == Spelling(d)[Consumed(d)..] + t;
  }

  /** A leading word yields its digit and the scan resumes after the letters it consumes. */
  lemma ScanWord(d: nat, t: string)
    requires d <= 9
    ensures ScanDigits(Spelling(d) + t) == [d] + ScanDigits(Spelling(d)[Consumed(d)..] + t)
  {
    FindWord(d, t);
  }

  /**
   * "zerone" followed by anything, written as the words the scan meets.  This
   * only regroups literals for the verifier; it models nothing of the source.
   */
  lemma ZeroneSpelled(u: string)
    ensures "zerone" + u == Spelling(0) + ("ne" + u)
    ensures Spelling(0)[Consumed(0)..] + ("ne" + u) == Spelling(1) + u
    ensures Spelling(1)[Consumed(1)..] + u == "e" + u
  {
  }

  /**
   * Two digits read one after the other.  This only regroups a sequence for
   * the verifier; it models nothing of the source.
   */
  lemma Regroup(a: nat, b: nat, rest: seq<nat>)
    ensures [a] + ([b] + rest) == [a, b] + rest
  {
  }

  /** Chained words both count: "zerone" reads 0 then 1, the "o" being shared. */
  lemma ScanDigitsExample(u: string)
    ensures ScanDigits("zerone" + u) == [0, 1] + ScanDigits("e" + u)
  {
    ZeroneSpelled(u);
    ScanWord(0, "ne" + u);
    ScanWord(1, u);
    Regroup(0, 1, ScanDigits("e" + u));
  }

  /** The first and last digit of a line as the two-digit number they spell. */
  function LineValue(digits: seq<nat>): (v: nat)
    requires digits != [] && forall i :: 0 <= i < |digits| ==> digits[i] <= 9
    ensures v <= 99
    ensures v / 10 == digits[0] && v % 10 == digits[|digits| - 1]
  {
    10 * digits[0] + digits[|digits| - 1]
  }

  /** The ASCII digits of a line, in order. */
  function DigitChars(line: string): (ds: string)
    ensures |ds| <= |line|
    ensures forall i :: 0 <= i < |ds| ==> IsAsciiDigit(ds[i])
    ensures ds == [] <==> forall i :: 0 <= i < |line| ==> !IsAsciiDigit(line[i])
  {
    if line == [] then []
    else (if IsAsciiDigit(line[0]) then [line[0]] else []) + DigitChars(line[1..])
  }

  /** The first ASCII digit of the line is the first char the filter keeps. */
  lemma {:induction false} DigitCharsFirst(line: string, i: nat)
    requires i < |line| && IsAsciiDigit(line[i])
    requires forall j :: 0 <= j < i ==> !IsAsciiDigit(line[j])
    ensures DigitChars(line) != [] && DigitChars(line)[0] == line[i]
  {
    if i > 0 {
      DigitCharsFirst(line[1..], i - 1);
    }
  }

  /** The last ASCII digit of the line is the last char the filter keeps. */
  lemma {:induction false} DigitCharsLast(line: string, i: nat)
    requires i < |line| && IsAsciiDigit(line[i])
    requires forall j :: i < j < |line| ==> !IsAsciiDigit(line[j])
    ensures DigitChars(line) != [] && DigitChars(line)[|DigitChars(line)| - 1] == line[i]
  {
    if i == 0 {
      assert DigitChars(line[1..]) == [] by {
        assert forall j :: 0 <= j < |line[1..]| ==> line[1..][j] == line[j + 1];
      }
    } else {
      DigitCharsLast(line[1..], i - 1);
    }
  }

  /** The values of a string of ASCII digits. */
  function DigitValues(ds: string): (vs: seq<nat>)
    requires forall i :: 0 <= i < |ds| ==> IsAsciiDigit(ds[i])
    ensures |vs| == |ds|
    ensures forall i :: 0 <= i < |vs| ==> vs[i] == DigitValue(ds[i])
  {
    if ds == [] then [] else [DigitValue(ds[0])] + DigitValues(ds[1..])
  }

  /** Every line holds an ASCII digit: `part_one` unwraps the first and the last. */
  predicate EachHasDigit(lines: seq<string>) {
    forall i :: 0 <= i < |lines| ==> DigitChars(lines[i]) != []
  }

  /**
   * `part_one`: the sum over the lines of the number spelled by the first and
   * the last ASCII digit of the line.
   */
  function PartOne(lines: seq<string>): (total: nat)
    requires EachHasDigit(lines)
    ensures total <= 99 * |lines|
  {
    if lines == [] then 0
    else LineValue(DigitValues(DigitChars(lines[0]))) + PartOne(lines[1..])
  }

  /**
   * A line whose first ASCII digit is at i and whose last is at k adds
   * 10 * (value at i) + (value at k) to `part_one`.
   */
  lemma PartOneLine(line: string, i: nat, k: nat)
    requires i <= k < |line| && IsAsciiDigit(line[i]) && IsAsciiDigit(line[k])
    requires forall j :: 0 <= j < i ==> !IsAsciiDigit(line[j])
    requires forall j :: k < j < |line| ==> !IsAsciiDigit(line[j])
    ensures EachHasDigit([line])
    ensures PartOne([line]) == 10 * DigitValue(line[i]) + DigitValue(line[k])
  {
    DigitCharsFirst(line, i);
    DigitCharsLast(line, k);
    assert [line][1..] == [];
  }

  /** Every line reads at least one digit: `part_two` unwraps the first and the last. */
  predicate EachScansDigit(lines: seq<string>) {
    forall i :: 0 <= i < |lines| ==> ScanDigits(lines[i]) != []
  }

  /** `part_two`: the sum over the lines of 10 * first + last of the digits `parse_line` reads. */
  function PartTwo(lines: seq<string>): (total: nat)
    requires EachScansDigit(lines)
    ensures total <= 99 * |lines|
  {
    if lines == [] then 0
    else LineValue(ScanDigits(lines[0])) + PartTwo(lines[1..])
  }

  /** No digit word starts anywhere in the string. */
  predicate NoWords(s: string) {
    forall i :: 0 <= i < |s| ==> NoWordAt(s[i..])
  }

  /** Without digit words, the scan reads exactly the ASCII digits of the line. */
  lemma {:induction false} ScanWithoutWords(s: string)
    requires NoWords(s)
    ensures ScanDigits(s) == DigitValues(DigitChars(s))
    decreases |s|
  {
    if s != [] {
      assert NoWordAt(s[0..]);
      assert s[0..] == s;
      assert NoWords(s[1..]) by {
        forall i | 0 <= i < |s[1..]|
          ensures NoWordAt(s[1..][i..])
        {
          assert s[1..][i..] == s[i + 1..];
        }
      }
      ScanWithoutWords(s[1..]);
    }
  }

  /** Lines without digit words give the same sum in both parts. */
  lemma {:induction false} PartTwoWithoutWords(lines: seq<string>)
    requires EachHasDigit(lines)
    requires forall i :: 0 <= i < |lines| ==> NoWords(lines[i])
    ensures EachScansDigit(lines)
    ensures PartTwo(lines) == PartOne(lines)
  {
    forall i | 0 <= i < |lines|
      ensures ScanDigits(lines[i]) == DigitValues(DigitChars(lines[i]))
    {
      ScanWithoutWords(lines[i]);
    }
    if lines != [] {
      PartTwoWithoutWords(lines[1..]);
    }
  }

  /** The first digit word starting s among those of digits e to 9. */
  function WordAt(s: string, e: nat): (r: Option<nat>)
    requires e <= 10
    ensures r.Some? ==> e <= r.value <= 9 && StartsWith(s, Spelling(r.value))
    ensures r.None? <==> forall d :: e <= d <= 9 ==> !StartsWith(s, Spelling(d))
    decreases 10 - e
  {
    if e == 10 then None
    else if StartsWith(s, Spelling(e)) then Some(e)
    else WordAt(s, e + 1)
  }

  /** The digit written or spelled at the start of s, if any. */
  function DigitAt(s: string): Option<nat> {
    if s == [] then None
    else if IsAsciiDigit(s[0]) then Some(DigitValue(s[0]))
    else WordAt(s, 0)
  }

  /** The intended reading of a line: the digit written or spelled at each position, in order. */
  function AllDigits(s: string): seq<nat> {
    if s == [] then [] else Emitted(DigitAt(s)) + AllDigits(s[1..])
  }

  /**
   * `find_next_digit` with every word keeping its last letter, "five"
   * included: the reading the comment on the function asks for.
   */
  function FindNextDigitOverlapping(input: string): (r: Step)
    ensures input == [] <==> r.1.None?
    ensures input == [] ==> r.0.None?
    ensures r.1.Some? ==> |r.1.value| < |input| && r.1.value == input[|input| - |r.1.value|..]
    ensures input != [] && IsAsciiDigit(input[0]) ==>
              r == (Some(DigitValue(input[0])), Some(input[1..]))
    ensures input != [] && !IsAsciiDigit(input[0]) ==>
              forall d :: 0 <= d <= 9 && StartsWith(input, Spelling(d)) ==>
                r == (Some(d), Some(input[|Spelling(d)| - 1..]))
    ensures input != [] && !IsAsciiDigit(input[0]) && NoWordAt(input) ==>
              r == (None, Some(input[1..]))
  {
    SpellingsExclusive(input);
    if input == [] then (None, None)
    else if IsAsciiDigit(input[0]) then (Some(DigitValue(input[0])), Some(input[1..]))
    else if StartsWith(input, "zero") then (Some(0), Some(input[3..]))
    else if StartsWith(input, "one") then (Some(1), Some(input[2..]))
    else if StartsWith(input, "two") then (Some(2), Some(input[2..]))
    else if StartsWith(input, "three") then (Some(3), Some(input[4..]))
    else if StartsWith(input, "four") then (Some(4), Some(input[3..]))
    else if StartsWith(input, "five") then (Some(5), Some(input[3..]))
    else if StartsWith(input, "six") then (Some(6), Some(input[2..]))
    else if StartsWith(input, "seven") then (Some(7), Some(input[4..]))
    else if StartsWith(input, "eight") then (Some(8), Some(input[4..]))
    else if StartsWith(input, "nine") then (Some(9), Some(input[3..]))
    else (None, Some(input[1..]))
  }

  /** The scan of `FindNextDigitOverlapping` steps. */
  function ScanOverlapping(input: string): seq<nat>
    decreases |input|
  {
    var step := FindNextDigitOverlapping(input);
    Emitted(step.0) + if step.1.Some? then ScanOverlapping(step.1.value) else []
  }

  /** A string starting with a word of two letters or more starts with those two letters. */
  lemma PrefixChars(x: string, v: string)
    ensures StartsWith(x, v) && |v| >= 2 ==> x[0] == v[0] && x[1] == v[1]
  {
    if StartsWith(x, v) && |v| >= 2 {
      assert x[..|v|][0] == v[0] && x[..|v|][1] == v[1];
    }
  }

  /** No digit is written or spelled strictly inside a digit word, before its last letter. */
  lemma InsideWordNoDigit(s: string, d: nat, j: nat)
    requires d <= 9 && StartsWith(s, Spelling(d)) && 1 <= j < |Spelling(d)| - 1
    ensures DigitAt(s[j..]) == None
  {
    var w := Spelling(d);
    assert s[j..][0] == w[j] && s[j..][1] == w[j + 1];
    forall e | 0 <= e <= 9
      ensures !StartsWith(s[j..], Spelling(e))
    {
      PrefixChars(s[j..], Spelling(e));
    }
  }

  /** A position that holds no digit adds nothing to the reading. */
  lemma SkipEmptyPosition(s: string, i: nat)
    requires i < |s| && DigitAt(s[i..]) == None
    ensures AllDigits(s[i..]) == AllDigits(s[i + 1..])
  {
    assert s[i..][1..] == s[i + 1..];
  }

  /** Positions that hold no digit add nothing to the reading. */
  lemma {:induction false} SkipEmptyPositions(s: string, i: nat, k: nat)
    requires 1 <= i <= k <= |s|
    requires forall j :: i <= j < k ==> DigitAt(s[j..]) == None
    ensures AllDigits(s[i..]) == AllDigits(s[k..])
    decreases k - i
  {
    if i < k {
      SkipEmptyPosition(s, i);
      SkipEmptyPositions(s, i + 1, k);
    }
  }

  /** The corrected scan reads the digit at every position of the line. */
  lemma {:induction false} ScanOverlappingReadsEveryPosition(s: string)
    ensures ScanOverlapping(s) == AllDigits(s)
    decreases |s|
  {
    if s != [] {
      var step := FindNextDigitOverlapping(s);
      var rest := step.1.value;
      ScanOverlappingReadsEveryPosition(rest);
      if IsAsciiDigit(s[0]) {
      } else if !NoWordAt(s) {
        var d :| 0 <= d <= 9 && StartsWith(s, Spelling(d));
        var k := |Spelling(d)| - 1;
        assert WordAt(s, 0) == Some(d) by {
          SpellingsExclusive(s);
        }
        forall j | 1 <= j < k
          ensures DigitAt(s[j..]) == None
        {
          InsideWordNoDigit(s, d, j);
        }
        SkipEmptyPositions(s, 1, k);
      } else {
        assert WordAt(s, 0) == None;
      }
    }
  }


  /** A leading word is read as its digit and the corrected step keeps its last letter. */
  lemma FindWordOverlapping(d: nat, t: string)
    requires d <= 9
    ensures FindNextDigitOverlapping(Spelling(d) + t) == (Some(d), Some(Spelling(d)[|Spelling(d)| - 1..] + t))
  {
    var s := Spelling(d) + t;
    assert s[..|Spelling(d)|] == Spelling(d);
    assert s[|Spelling(d)| - 1..] == Spelling(d)[|Spelling(d)| - 1..] + t;
  }

  /** A leading word yields its digit and the corrected scan resumes at its last letter. */
  lemma ScanOverlappingWord(d: nat, t: string)
    requires d <= 9
    ensures ScanOverlapping(Spelling(d) + t) == [d] + ScanOverlapping(Spelling(d)[|Spelling(d)| - 1..] + t)
  {
    FindWordOverlapping(d, t);
  }

  /**
   * "fiveight" followed by anything, written as the words each scan meets.
   * This only regroups literals for the verifier; it models nothing of the
   * source.
   */
  lemma FiveEightSpelled(u: string)
    ensures "fiveight" + u == Spelling(5) + (['i'] + (['g'] + (['h'] + ("t" + u))))
    ensures Spelling(5)[Consumed(5)..] + (['i'] + (['g'] + (['h'] + ("t" + u)))) == ['i'] + (['g'] + (['h'] + ("t" + u)))
    ensures "fiveight" + u == Spelling(5) + ("ight" + u)
    ensures Spelling(5)[|Spelling(5)| - 1..] + ("ight" + u) == Spelling(8) + u
    ensures Spelling(8)[|Spelling(8)| - 1..] + u == "t" + u
  {
    assert Spelling(5) == "five" && Spelling(8) == "eight" && Consumed(5) == 4;
    assert Spelling(5)[4..] == [] && Spelling(5)[3..] == "e" && Spelling(8)[4..] == "t";
    assert ['i'] + (['g'] + (['h'] + ("t" + u))) == "ight" + u;
  }

  /**
   * "five" is consumed whole, so the "eight" sharing its "e" is lost: whatever
   * follows, the scan as written reads 5 where the line spells 5 then 8.
   */
  lemma FiveEightAsWritten(u: string)
    ensures ScanDigits("fiveight" + u) == [5] + ScanDigits("t" + u)
    ensures AllDigits("fiveight" + u) == [5, 8] + AllDigits("t" + u)
  {
    FiveEightSpelled(u);
    ScanWord(5, ['i'] + (['g'] + (['h'] + ("t" + u))));
    ScanSkips('i', ['g'] + (['h'] + ("t" + u)));
    ScanSkips('g', ['h'] + ("t" + u));
    ScanSkips('h', "t" + u);
    ScanOverlappingWord(5, "ight" + u);
    ScanOverlappingWord(8, u);
    Regroup(5, 8, ScanOverlapping("t" + u));
    ScanOverlappingReadsEveryPosition("fiveight" + u);
    ScanOverlappingReadsEveryPosition("t" + u);
  }

  /** The line "fiveight" itself: the scan as written reads 5, the line spells 5 and 8. */
  lemma FiveEightLine()
    ensures ScanDigits("fiveight") == [5]
    ensures AllDigits("fiveight") == [5, 8]
  {
    FiveEightAsWritten("");
    assert "fiveight" + "" == "fiveight" && "t" + "" == "t";
    assert ScanDigits("t") == [] && AllDigits("t") == [];
  }

  /** Every line spells or writes at least one digit. */
  predicate EachReadsDigit(lines: seq<string>) {
    forall i :: 0 <= i < |lines| ==> AllDigits(lines[i]) != []
  }

  /**
   * `part_two` as intended: the sum over the lines of 10 * first + last of the
   * digits written or spelled at every position, read by the corrected scan.
   */
  function PartTwoIntended(lines: seq<string>): (total: nat)
    requires EachReadsDigit(lines)
    ensures total <= 99 * |lines|
  {
    if lines == [] then 0
    else
      var digits := ScanOverlapping(lines[0]);
      ScanOverlappingReadsEveryPosition(lines[0]);
      assert forall i :: 0 <= i < |digits| ==> digits[i] <= 9 by {
        AllDigitsBelowTen(lines[0]);
      }
      LineValue(digits) + PartTwoIntended(lines[1..])
  }

  /** The intended reading holds decimal digits only. */
  lemma {:induction false} AllDigitsBelowTen(s: string)
    ensures forall i :: 0 <= i < |AllDigits(s)| ==> AllDigits(s)[i] <= 9
    decreases |s|
  {
    if s != [] {
      AllDigitsBelowTen(s[1..]);
    }
  }

  /** The sum as written over a single line is that line's value. */
  lemma PartTwoOneLine(l: string, ds: seq<nat>)
    requires ScanDigits(l) == ds && ds != []
    ensures EachScansDigit([l]) && PartTwo([l]) == LineValue(ds)
  {
    assert [l][1..] == [];
  }

  /** The intended sum over a single line is that line's value. */
  lemma PartTwoIntendedOneLine(l: string, ds: seq<nat>)
    requires AllDigits(l) == ds && ds != []
    ensures EachReadsDigit([l])
    ensures forall i :: 0 <= i < |ds| ==> ds[i] <= 9
    ensures PartTwoIntended([l]) == LineValue(ds)
  {
    AllDigitsBelowTen(l);
    ScanOverlappingReadsEveryPosition(l);
    assert [l][1..] == [];
  }

  /** The line "fiveight" adds 55 to the sum as written and 58 to the intended sum. */
  lemma FiveEightPartTwo()
    ensures EachScansDigit(["fiveight"]) && PartTwo(["fiveight"]) == 55
    ensures EachReadsDigit(["fiveight"]) && PartTwoIntended(["fiveight"]) == 58
  {
    FiveEightLine();
    PartTwoOneLine("fiveight", [5]);
    PartTwoIntendedOneLine("fiveight", [5, 8]);
  }

  /** "fiveight" starts at no position of the string. */
  predicate NoFiveEight(s: string) {
    forall i :: 0 <= i <= |s| ==> !StartsWith(s[i..], "fiveight")
  }

  /** A suffix of a string without "fiveight" has none either. */
  lemma NoFiveEightSuffix(s: string, k: nat)
    requires NoFiveEight(s) && k <= |s|
    ensures NoFiveEight(s[k..])
  {
    forall i | 0 <= i <= |s[k..]|
      ensures !StartsWith(s[k..][i..], "fiveight")
    {
      assert s[k..][i..] == s[k + i..];
    }
  }

  /**
   * After a leading "five" that does not run on into "eight", the "e" the
   * corrected step keeps starts no word, so the corrected scan also goes on
   * after the four letters of "five".
   */
  lemma FiveAloneSkipsItsE(s: string)
    requires StartsWith(s, "five") && !StartsWith(s, "fiveight")
    ensures FindNextDigitOverlapping(s[3..]) == (None, Some(s[4..]))
  {
    var e := s[3..];
    assert e[0] == 'e';
    assert !StartsWith(e, "eight") by {
      if |e| >= 5 {
        assert s[..8] == s[..3] + e[..5];
      }
    }
    forall d | 0 <= d <= 9
      ensures !StartsWith(e, Spelling(d))
    {
      PrefixChars(e, Spelling(d));
    }
    assert e[1..] == s[4..];
  }

  /** Except on a leading "five", one step as written is one corrected step. */
  lemma StepsAgreeExceptFive(s: string)
    requires s != [] && (IsAsciiDigit(s[0]) || !StartsWith(s, Spelling(5)))
    ensures FindNextDigit(s) == FindNextDigitOverlapping(s)
  {
    if !IsAsciiDigit(s[0]) && !NoWordAt(s) {
      var d :| 0 <= d <= 9 && StartsWith(s, Spelling(d));
      assert FindNextDigit(s) == (Some(d), Some(s[Consumed(d)..]));
    }
  }

  /**
   * Where "fiveight" does not start, the corrected scan reads what one step as
   * written reads and goes on with the scan of the same remainder.
   */
  lemma CorrectedScanFollowsStep(s: string)
    requires s != [] && !StartsWith(s, "fiveight")
    ensures ScanOverlapping(s) == Emitted(FindNextDigit(s).0) + ScanOverlapping(FindNextDigit(s).1.value)
  {
    if !IsAsciiDigit(s[0]) && StartsWith(s, Spelling(5)) {
      assert FindNextDigit(s) == (Some(5), Some(s[4..]));
      assert FindNextDigitOverlapping(s) == (Some(5), Some(s[3..]));
      FiveAloneSkipsItsE(s);
      assert ScanOverlapping(s[3..]) == ScanOverlapping(s[4..]);
    } else {
      StepsAgreeExceptFive(s);
    }
  }

  /**
   * Away from "fiveight" the scan as written agrees with the corrected one:
   * "five" is the only word that loses its last letter, and only "eight"
   * could start with that letter.
   */
  lemma {:induction false} ScanAgreesAwayFromFiveEight(s: string)
    requires NoFiveEight(s)
    ensures ScanDigits(s) == ScanOverlapping(s)
    decreases |s|
  {
    if s != [] {
      var step := FindNextDigit(s);
      var rest := step.1.value;
      NoFiveEightSuffix(s, |s| - |rest|);
      ScanAgreesAwayFromFiveEight(rest);
      assert s[0..] == s;
      CorrectedScanFollowsStep(s);
    }
  }

  /**
   * The scan as written reads the digit at every position of every line in
   * which "fiveight" does not occur: `five` is the only place where it falls
   * short of the comment on `find_next_digit`.
   */
  lemma ScanDigitsReadsEveryPosition(s: string)
    requires NoFiveEight(s)
    ensures ScanDigits(s) == AllDigits(s)
  {
    ScanAgreesAwayFromFiveEight(s);
    ScanOverlappingReadsEveryPosition(s);
  }
}
