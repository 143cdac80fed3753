/**
 * Day 1, part two as `src/main.rs` writes it: the same scan as `Day1`, but the
 * digits are kept as chars and the words run from "one" to "nine" only, so a
 * "zero" is skipped letter by letter.  Part one of `src/main.rs` is the same
 * text as part one of `src/bin/day1.rs` and is modelled once, by `Day1.PartOne`.
 */
module Day1Chars {
  import opened Wrappers
  import opened Ascii
  import D = Day1

  /** The ASCII char of digit d. */
  function DigitChar(d: nat): (c: char)
    requires d <= 9
    ensures IsAsciiDigit(c) && DigitValue(c) == d
  {
    ('0' as int + d) as char
  }

  /** Reading an ASCII digit and writing it back gives the same char. */
  lemma DigitCharValue(c: char)
    requires IsAsciiDigit(c)
    ensures DigitChar(DigitValue(c)) == c
  {
  }

  /** What one step of the scan reads: maybe a digit char, and the rest of the line if any. */
  type Step = (Option<char>, Option<string>)

  /**
   * `find_next_digit`: a leading ASCII digit is returned as it is; a leading
   * word "one" to "nine" is read as its digit char and consumed as in `Day1`
   * (all but its last letter, all of "five"); any other leading char, the "z"
   * of "zero" included, is skipped.  The empty line yields nothing and no
   * remainder.
   */
  function FindNextDigit(input: string): (r: Step)
    ensures input == [] <==> r.1.None?
    ensures input == [] ==> r.0.None?
    ensures r.1.Some? ==> |r.1.value| < |input| && r.1.value == input[|input| - |r.1.value|..]
    ensures r.0.Some? ==> IsAsciiDigit(r.0.value)
    ensures input != [] && IsAsciiDigit(input[0]) ==> r == (Some(input[0]), Some(input[1..]))
    ensures input != [] && !IsAsciiDigit(input[0]) ==>
              forall d :: 1 <= d <= 9 && D.StartsWith(input, D.Spelling(d)) ==>
                r == (Some(DigitChar(d)), Some(input[D.Consumed(d)..]))
    ensures input != [] && !IsAsciiDigit(input[0]) && D.WordAt(input, 1).None? ==>
              r == (None, Some(input[1..]))
  {
    D.SpellingsExclusive(input);
    if input == [] then (None, None)
    else if IsAsciiDigit(input[0]) then (Some(input[0]), Some(input[1..]))
    else if D.StartsWith(input, "one") then (Some('1'), Some(input[2..]))
    else if D.StartsWith(input, "two") then (Some('2'), Some(input[2..]))
    else if D.StartsWith(input, "three") then (Some('3'), Some(input[4..]))
    else if D.StartsWith(input, "four") then (Some('4'), Some(input[3..]))
    else if D.StartsWith(input, "five") then (Some('5'), Some(input[4..]))
    else if D.StartsWith(input, "six") then (Some('6'), Some(input[2..]))
    else if D.StartsWith(input, "seven") then (Some('7'), Some(input[4..]))
    else if D.StartsWith(input, "eight") then (Some('8'), Some(input[4..]))
    else if D.StartsWith(input, "nine") then (Some('9'), Some(input[3..]))
    else (None, Some(input[1..]))
  }

  /** The digit a step read, as a string of zero or one chars. */
  function Emitted(c: Option<char>): string {
    if c.Some? then [c.value] else []
  }

  /** The digit chars `parse_line` collects, step after step until no remainder is left. */
  function ScanDigits(input: string): (ds: string)
    ensures |ds| <= |input|
    ensures forall i :: 0 <= i < |ds| ==> IsAsciiDigit(ds[i])
    decreases |input|
  {
    var step := FindNextDigit(input);
    Emitted(step.0) + if step.1.Some? then ScanDigits(step.1.value) else []
  }

  /** The digits still to be read after a step: the scan of its remainder, if any. */
  function ScanRest(step: Step): string {
    if step.1.Some? then ScanDigits(step.1.value) else []
  }

  /** One more step of `parse_line` keeps the digits collected so far a prefix of the scan. */
  lemma ScanAdvance(digits: string, rest: string, input: string)
    requires digits + ScanDigits(rest) == ScanDigits(input)
    ensures var next := FindNextDigit(rest);
      (if next.0.Some? then digits + [next.0.value] else digits) + ScanRest(next) == ScanDigits(input)
  {
    var next := FindNextDigit(rest);
    var tail := ScanRest(next);
    assert ScanDigits(rest) == Emitted(next.0) + tail;
    if next.0.Some? {
      assert digits + ([next.0.value] + tail) == (digits + [next.0.value]) + tail;
    } else {
      assert Emitted(next.0) + tail == tail;
    }
  }

  /** `parse_line`: the while loop that repeats `find_next_digit` on the remainder. */
  method ParseLine(input: string) returns (digits: string)
    ensures digits == ScanDigits(input)
  {
    digits := [];
    var next := FindNextDigit(input);
    ScanAdvance([], input, input);
    if next.0.Some? {
      digits := digits + [next.0.value];
    }
    while next.1.Some?
      invariant digits + ScanRest(next) == ScanDigits(input)
      decreases if next.1.Some? then |next.1.value| + 1 else 0
    {
      var rest := next.1.value;
      ScanAdvance(digits, rest, input);
      next := FindNextDigit(rest);
      if next.0.Some? {
        digits := digits + [next.0.value];
      }
    }
  }

  /** The number a line gives: its first and last digit chars, parsed as a decimal number. */
  function LineNumber(digits: string): (n: nat)
    requires digits != [] && forall i :: 0 <= i < |digits| ==> IsAsciiDigit(digits[i])
    ensures n <= 99
    ensures n / 10 == DigitValue(digits[0]) && n % 10 == DigitValue(digits[|digits| - 1])
  {
    10 * DigitValue(digits[0]) + DigitValue(digits[|digits| - 1])
  }

  /** Every line reads at least one digit: `part_two` unwraps the first and the last. */
  predicate EachScansDigit(lines: seq<string>) {
    forall i :: 0 <= i < |lines| ==> ScanDigits(lines[i]) != []
  }

  /** `part_two`: the sum over the lines of the number `LineNumber` reads from `parse_line`'s digits. */
  function PartTwo(lines: seq<string>): (total: nat)
    requires EachScansDigit(lines)
    ensures total <= 99 * |lines|
  {
    if lines == [] then 0
    else LineNumber(ScanDigits(lines[0])) + PartTwo(lines[1..])
  }

  /** The digit chars of a list of digits. */
  function Chars(ds: seq<nat>): (cs: string)
    requires forall i :: 0 <= i < |ds| ==> ds[i] <= 9
    ensures |cs| == |ds|
    ensures forall i :: 0 <= i < |cs| ==> cs[i] == DigitChar(ds[i])
  {
    if ds == [] then [] else [DigitChar(ds[0])] + Chars(ds[1..])
  }

  /** "zero" starts nowhere in the string. */
  predicate NoZero(s: string) {
    forall i :: 0 <= i < |s| ==> !D.StartsWith(s[i..], D.Spelling(0))
  }

  /** Without a leading "zero", one step here and one step of `Day1` read the same digit and leave the same rest. */
  lemma StepsAgree(s: string)
    requires !D.StartsWith(s, D.Spelling(0))
    ensures FindNextDigit(s).1 == D.FindNextDigit(s).1
    ensures FindNextDigit(s).0.Some? <==> D.FindNextDigit(s).0.Some?
    ensures FindNextDigit(s).0.Some? ==> D.FindNextDigit(s).0.value <= 9
    ensures FindNextDigit(s).0.Some? ==> FindNextDigit(s).0.value == DigitChar(D.FindNextDigit(s).0.value)
  {
    if s != [] {
      if IsAsciiDigit(s[0]) {
        DigitCharValue(s[0]);
      } else if D.WordAt(s, 1).Some? {
        var d := D.WordAt(s, 1).value;
        assert D.StartsWith(s, D.Spelling(d));
      } else {
        assert D.NoWordAt(s);
      }
    }
  }

  /** A suffix of a string without "zero" has none either. */
  lemma NoZeroSuffix(s: string, k: nat)
    requires NoZero(s) && k <= |s|
    ensures NoZero(s[k..])
  {
    forall i | 0 <= i < |s[k..]|
      ensures !D.StartsWith(s[k..][i..], D.Spelling(0))
    {
      assert s[k..][i..] == s[k + i..];
    }
  }

  /** On a line without "zero", this scan reads the chars of the digits `Day1`'s scan reads. */
  lemma {:induction false} ScanAgreesWithoutZero(s: string)
    requires NoZero(s)
    ensures ScanDigits(s) == Chars(D.ScanDigits(s))
    decreases |s|
  {
    if s != [] {
      assert s[0..] == s;
      StepsAgree(s);
      var rest := FindNextDigit(s).1.value;
      NoZeroSuffix(s, |s| - |rest|);
      ScanAgreesWithoutZero(rest);
      var ds := D.ScanDigits(s);
      var step := D.FindNextDigit(s);
      assert ds == D.Emitted(step.0) + D.ScanDigits(rest);
      if step.0.Some? {
        assert Chars(ds) == [DigitChar(step.0.value)] + Chars(D.ScanDigits(rest)) by {
          assert ds[1..] == D.ScanDigits(rest);
        }
      }
    }
  }

  /** On lines without "zero", part two here and part two of `Day1` give the same sum. */
  lemma {:induction false} PartTwoAgreesWithoutZero(lines: seq<string>)
    requires forall i :: 0 <= i < |lines| ==> NoZero(lines[i])
    requires D.EachScansDigit(lines)
    ensures EachScansDigit(lines)
    ensures PartTwo(lines) == D.PartTwo(lines)
  {
    forall i | 0 <= i < |lines|
      ensures ScanDigits(lines[i]) == Chars(D.ScanDigits(lines[i]))
    {
      ScanAgreesWithoutZero(lines[i]);
    }
    if lines != [] {
      PartTwoAgreesWithoutZero(lines[1..]);
    }
  }

  /**
   * On a line in which neither "zero" nor "fiveight" occurs, this scan reads,
   * as chars, the digit written or spelled at every position.
   */
  lemma ScanReadsEveryPosition(s: string)
    requires NoZero(s) && D.NoFiveEight(s)
    ensures D.ScanDigits(s) == D.AllDigits(s)
    ensures ScanDigits(s) == Chars(D.AllDigits(s))
  {
    ScanAgreesWithoutZero(s);
    D.ScanDigitsReadsEveryPosition(s);
  }

  /** A leading word "one" to "nine" is read as its digit char and the step leaves what follows the consumed letters. */
  lemma FindWord(d: nat, t: string)
    requires 1 <= d <= 9
    ensures FindNextDigit(D.Spelling(d) + t) == (Some(DigitChar(d)), Some(D.Spelling(d)[D.Consumed(d)..] + t))
  {
    var s := D.Spelling(d) + t;
    assert s[..|D.Spelling(d)|] == D.Spelling(d);
    assert s[D.Consumed(d)..] == D.Spelling(d)[D.Consumed(d)..] + t;
  }

  /** A leading word yields its digit char and the scan resumes after the letters it consumes. */
  lemma ScanWord(d: nat, t: string)
    requires 1 <= d <= 9
    ensures ScanDigits(D.Spelling(d) + t) == [DigitChar(d)] + ScanDigits(D.Spelling(d)[D.Consumed(d)..] + t)
  {
    FindWord(d, t);
  }

  /**
   * "twoneighthree" followed by anything, written as the words the scan
   * meets.  This only regroups literals for the verifier; it models nothing
   * of the source.
   */
  lemma TwoneighthreeSpelled(u: string)
    ensures "twoneighthree" + u == D.Spelling(2) + ("neighthree" + u)
    ensures D.Spelling(2)[D.Consumed(2)..] + ("neighthree" + u) == D.Spelling(1) + ("ighthree" + u)
    ensures D.Spelling(1)[D.Consumed(1)..] + ("ighthree" + u) == D.Spelling(8) + ("hree" + u)
    ensures D.Spelling(8)[D.Consumed(8)..] + ("hree" + u) == D.Spelling(3) + u
    ensures D.Spelling(3)[D.Consumed(3)..] + u == "e" + u
  {
    assert D.Spelling(1) == "one" && D.Spelling(2) == "two" && D.Spelling(3) == "three" && D.Spelling(8) == "eight";
    assert D.Spelling(2)[2..] == "o" && D.Spelling(1)[2..] == "e" && D.Spelling(8)[4..] == "t" && D.Spelling(3)[4..] == "e";
  }

  /**
   * Four digit chars read one after the other.  This only regroups a sequence
   * for the verifier; it models nothing of the source.
   */
  lemma Regroup(a: char, b: char, c: char, d: char, rest: string)
    ensures [a] + ([b] + ([c] + ([d] + rest))) == [a, b, c, d] + rest
  {
  }

  /** The test case of `parse_line`: in "twoneighthree" the chained words all count. */
  lemma ScanDigitsExample(u: string)
    ensures ScanDigits("twoneighthree" + u) == "2183" + ScanDigits("e" + u)
  {
    TwoneighthreeSpelled(u);
    ScanWord(2, "neighthree" + u);
    ScanWord(1, "ighthree" + u);
    ScanWord(8, "hree" + u);
    ScanWord(3, u);
    Regroup('2', '1', '8', '3', ScanDigits("e" + u));
  }

  /** `test_parse_line`. */
  method ParseLineExample() {
    ScanDigitsExample("");
    assert "twoneighthree" + "" == "twoneighthree" && "e" + "" == "e" && "2183" + "" == "2183";
    assert ScanDigits("e") == [];
    var digits := ParseLine("twoneighthree");
    assert digits == ['2', '1', '8', '3'];
  }
}
