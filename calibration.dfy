/**
 * The calibration-value extractor (day-1/src/main.rs).
 *
 * For each line the solver collects every match of `[0-9]+`, joins them
 * into one string of digits, reads its first character and (from the
 * other end) its last one, falling back to the first when only one digit
 * exists, parses the two characters as a number and adds it to a total.
 */
module Calibration {
  import opened Strings
  import opened Folds

  /** The texts `[0-9]+` matches in `line`, left to right: its maximal runs of digits. */
  function DigitRuns(line: string): (runs: seq<string>)
    ensures forall i :: 0 <= i < |runs| ==> |runs[i]| > 0 && AllSatisfy(runs[i], IsAsciiDigit)
  {
    Runs(line, IsAsciiDigit)
  }

  /** `line_numbers_list.join("")`: the ASCII digits of the line, in order. */
  function LineNumber(line: string): (digits: string)
    ensures digits == Filter(line, IsAsciiDigit)
  {
    RunsConcat(line, IsAsciiDigit);
    Concat(DigitRuns(line))
  }

  predicate HasDigit(line: string) {
    exists i :: 0 <= i < |line| && IsAsciiDigit(line[i])
  }

  /** `line[i]` is the leftmost digit of the line. */
  predicate FirstDigitAt(line: string, i: int) {
    0 <= i < |line| && IsAsciiDigit(line[i]) && forall k :: 0 <= k < i ==> !IsAsciiDigit(line[k])
  }

  /** `line[j]` is the rightmost digit of the line. */
  predicate LastDigitAt(line: string, j: int) {
    0 <= j < |line| && IsAsciiDigit(line[j]) && forall k :: j < k < |line| ==> !IsAsciiDigit(line[k])
  }

  /** The joined digits start with the leftmost digit of the line and end with the rightmost. */
  lemma {:induction false} LineNumberEnds(line: string)
    requires HasDigit(line)
    ensures |LineNumber(line)| > 0
    ensures forall i :: FirstDigitAt(line, i) ==> LineNumber(line)[0] == line[i]
    ensures forall j :: LastDigitAt(line, j) ==> LineNumber(line)[|LineNumber(line)| - 1] == line[j]
  {
    FilterElements(line, IsAsciiDigit);
    forall i | FirstDigitAt(line, i)
      ensures LineNumber(line)[0] == line[i]
    {
      FilterStartsAt(line, i, IsAsciiDigit);
    }
    forall j | LastDigitAt(line, j)
      ensures LineNumber(line)[|LineNumber(line)| - 1] == line[j]
    {
      FilterEndsAt(line, j, IsAsciiDigit);
    }
  }

  /** A line with a digit has a leftmost and a rightmost one. */
  lemma {:induction false} FirstAndLastDigitExist(line: string)
    requires HasDigit(line)
    ensures exists i :: FirstDigitAt(line, i)
    ensures exists j :: LastDigitAt(line, j)
    decreases |line|
  {
    if IsAsciiDigit(line[0]) {
      assert FirstDigitAt(line, 0);
    } else {
      var i :| 0 <= i < |line| && IsAsciiDigit(line[i]);
      assert IsAsciiDigit(line[1..][i - 1]);
      FirstAndLastDigitExist(line[1..]);
      var i' :| FirstDigitAt(line[1..], i');
      assert FirstDigitAt(line, i' + 1);
    }
    var n := |line| - 1;
    if IsAsciiDigit(line[n]) {
      assert LastDigitAt(line, n);
    } else {
      var j :| 0 <= j < |line| && IsAsciiDigit(line[j]);
      assert IsAsciiDigit(line[..n][j]);
      FirstAndLastDigitExist(line[..n]);
      var j' :| LastDigitAt(line[..n], j');
      assert LastDigitAt(line, j');
    }
  }

  /**
   * The calibration value of one line (the fold's body, lines 25-42): ten
   * times its leftmost digit plus its rightmost digit. A line without
   * digits makes the source panic (`next().unwrap()`), hence the requires.
   */
  function CalibrationValue(line: string): (v: nat)
    requires HasDigit(line)
    ensures v <= 99
    ensures forall i, j :: FirstDigitAt(line, i) && LastDigitAt(line, j) ==>
      v == 10 * DigitValue(line[i]) + DigitValue(line[j])
  {
    LineNumberEnds(line);
    FilterElements(line, IsAsciiDigit);
    var digits := LineNumber(line);
    var first := digits[0];
    var rest := digits[1..];
    var last := if |rest| > 0 then rest[|rest| - 1] else first;
    assert |rest| > 0 ==> last == digits[|digits| - 1];
    ParseU32TwoDigits(first, last);
    ParseU32([first, last]).GetOr(0)
  }

  /** The `unwrap_or(0)` fallback is never taken: the two characters always parse. */
  lemma CalibrationParseNeverFails(line: string)
    requires HasDigit(line)
    ensures var d := LineNumber(line);
      |d| > 0 && ParseU32([d[0], d[|d| - 1]]) == Some(CalibrationValue(line))
  {
    LineNumberEnds(line);
    FilterElements(line, IsAsciiDigit);
    var d := LineNumber(line);
    ParseU32TwoDigits(d[0], d[|d| - 1]);
  }

  /** Only the digits of a line matter, not what surrounds or separates them. */
  lemma CalibrationDependsOnlyOnDigits(l1: string, l2: string)
    requires HasDigit(l1)
    requires Filter(l1, IsAsciiDigit) == Filter(l2, IsAsciiDigit)
    ensures HasDigit(l2)
    ensures CalibrationValue(l1) == CalibrationValue(l2)
  {
    FilterElements(l1, IsAsciiDigit);
    FilterElements(l2, IsAsciiDigit);
  }

  /** Inserting a non-digit character anywhere never changes a line's value. */
  lemma CalibrationIgnoresNonDigit(a: string, c: char, b: string)
    requires !IsAsciiDigit(c)
    requires HasDigit(a + b)
    ensures HasDigit(a + [c] + b)
    ensures CalibrationValue(a + [c] + b) == CalibrationValue(a + b)
  {
    FilterConcat(a, [c] + b, IsAsciiDigit);
    FilterConcat([c], b, IsAsciiDigit);
    FilterConcat(a, b, IsAsciiDigit);
    assert a + [c] + b == a + ([c] + b);
    CalibrationDependsOnlyOnDigits(a + b, a + [c] + b);
  }

  /** A line whose only digit is `line[i]` uses that digit twice. */
  lemma CalibrationSingleDigit(line: string, i: nat)
    requires FirstDigitAt(line, i) && LastDigitAt(line, i)
    ensures CalibrationValue(line) == 11 * DigitValue(line[i])
  {
  }

  /** A single digit is used twice: `"a7b"` gives 77. */
  lemma CalibrationExampleSingle()
    ensures HasDigit("a7b") && CalibrationValue("a7b") == 77
  {
    assert FirstDigitAt("a7b", 1) && LastDigitAt("a7b", 1);
  }

  /** Runs are joined, so only the outermost digits count: `"12x34"` gives 14. */
  lemma CalibrationExampleRuns()
    ensures HasDigit("12x34") && CalibrationValue("12x34") == 14
  {
    assert FirstDigitAt("12x34", 0) && LastDigitAt("12x34", 4);
  }

  predicate AllHaveDigits(lines: seq<string>) {
    forall i :: 0 <= i < |lines| ==> HasDigit(lines[i])
  }

  /**
   * `sum_of_calibration_values_from_lines`: the fold adding each line's
   * value, in order. Every line must hold a digit, or the source panics.
   */
  function CalibrationSum(lines: seq<string>): (total: nat)
    requires AllHaveDigits(lines)
    ensures total <= 99 * |lines|
    decreases |lines|
  {
    if |lines| == 0 then 0
    else CalibrationSum(lines[..|lines| - 1]) + CalibrationValue(lines[|lines| - 1])
  }

  /** A line's value, as a total function for use with SumOf. */
  function LineValue(line: string): nat {
    if HasDigit(line) then CalibrationValue(line) else 0
  }

  lemma {:induction false} CalibrationSumIsSumOf(lines: seq<string>)
    requires AllHaveDigits(lines)
    ensures CalibrationSum(lines) == SumOf(lines, LineValue)
    decreases |lines|
  {
    if |lines| > 0 {
      CalibrationSumIsSumOf(lines[..|lines| - 1]);
    }
  }

  /** The total over two blocks of lines is the sum of their totals (appending one line adds its value). */
  lemma CalibrationSumConcat(a: seq<string>, b: seq<string>)
    requires AllHaveDigits(a) && AllHaveDigits(b)
    ensures AllHaveDigits(a + b)
    ensures CalibrationSum(a + b) == CalibrationSum(a) + CalibrationSum(b)
  {
    assert forall i :: 0 <= i < |b| ==> (a + b)[|a| + i] == b[i];
    CalibrationSumIsSumOf(a);
    CalibrationSumIsSumOf(b);
    CalibrationSumIsSumOf(a + b);
    SumOfConcat(a, b, LineValue);
  }

  /** Reordering the lines leaves the total unchanged. */
  lemma CalibrationSumPermutation(a: seq<string>, b: seq<string>)
    requires AllHaveDigits(a)
    requires multiset(a) == multiset(b)
    ensures AllHaveDigits(b)
    ensures CalibrationSum(a) == CalibrationSum(b)
  {
    forall i | 0 <= i < |b|
      ensures HasDigit(b[i])
    {
      assert b[i] in multiset(a);
    }
    CalibrationSumIsSumOf(a);
    CalibrationSumIsSumOf(b);
    SumOfPermutation(a, b, LineValue);
  }
}
