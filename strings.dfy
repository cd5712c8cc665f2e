/**
 * The few string operations of Rust's `str` and `u32` that the two solvers
 * rely on, written over `string` (a sequence of Unicode scalar values):
 *   - `str::split` with a one-character pattern     (Split, Join)
 *   - `str::split_ascii_whitespace`                 (Words, built on Runs)
 *   - `str::trim`                                   (Trim)
 *   - `<u32 as FromStr>::from_str`                  (ParseU32)
 * and the "maximal runs of matching characters" view that also describes
 * what the regular expression `[0-9]+` finds in a line.
 */
module Strings {

  datatype Option<T> = None | Some(value: T) {
    /** `unwrap_or`: the value, or `default` when there is none. */
    function GetOr(default: T): T {
      if Some? then value else default
    }
  }

  /* ---------------------------------------------------------------------
   * Splitting on a separator character
   * ------------------------------------------------------------------- */

  /** Glues pieces back together with `sep` between neighbours. */
  function Join(pieces: seq<string>, sep: char): string
    requires |pieces| > 0
    decreases |pieces|
  {
    if |pieces| == 1 then pieces[0] else pieces[0] + [sep] + Join(pieces[1..], sep)
  }

  /**
   * `s.split(sep)`: the text between consecutive separators, in order.
   * There is always at least one piece (the empty string gives `[""]`),
   * joining the pieces gives back `s`, and no piece holds a separator.
   * SplitIsUnique shows that these three facts determine the result.
   */
  function Split(s: string, sep: char): (pieces: seq<string>)
    ensures |pieces| > 0
    ensures Join(pieces, sep) == s
    ensures forall i :: 0 <= i < |pieces| ==> sep !in pieces[i]
    decreases |s|
  {
    if |s| == 0 then [""]
    else
      var rest := Split(s[1..], sep);
      if s[0] == sep then
        assert ([""] + rest)[1..] == rest;
        [""] + rest
      else
        var pieces := [[s[0]] + rest[0]] + rest[1..];
        assert pieces[1..] == rest[1..];
        assert |rest| > 1 ==> Join(rest, sep) == rest[0] + [sep] + Join(rest[1..], sep);
        assert s == [s[0]] + s[1..];
        pieces
  }

  /** Joining adds no character but the separator. */
  lemma {:induction false} JoinExcludes(pieces: seq<string>, sep: char, c: char)
    requires |pieces| > 0 && c != sep
    requires forall i :: 0 <= i < |pieces| ==> c !in pieces[i]
    ensures c !in Join(pieces, sep)
    decreases |pieces|
  {
    if |pieces| > 1 {
      JoinExcludes(pieces[1..], sep, c);
    }
  }

  /** A join ends where its last piece ends. */
  lemma {:induction false} JoinEndsLast(pieces: seq<string>, sep: char)
    requires |pieces| > 0 && |pieces[|pieces| - 1]| > 0
    ensures |Join(pieces, sep)| > 0
    ensures Join(pieces, sep)[|Join(pieces, sep)| - 1] == pieces[|pieces| - 1][|pieces[|pieces| - 1]| - 1]
    decreases |pieces|
  {
    if |pieces| > 1 {
      var rest := pieces[1..];
      assert rest[|rest| - 1] == pieces[|pieces| - 1];
      JoinEndsLast(rest, sep);
    }
  }

  /** A join starts where its first piece starts and ends where its last piece ends. */
  lemma JoinEnds(pieces: seq<string>, sep: char)
    requires |pieces| > 0 && |pieces[0]| > 0 && |pieces[|pieces| - 1]| > 0
    ensures |Join(pieces, sep)| > 0
    ensures Join(pieces, sep)[0] == pieces[0][0]
    ensures Join(pieces, sep)[|Join(pieces, sep)| - 1] == pieces[|pieces| - 1][|pieces[|pieces| - 1]| - 1]
  {
    JoinEndsLast(pieces, sep);
  }

  /** Two separator-free decompositions of the same text are the same. */
  lemma {:induction false} JoinInjective(ps: seq<string>, qs: seq<string>, sep: char)
    requires |ps| > 0 && |qs| > 0
    requires forall i :: 0 <= i < |ps| ==> sep !in ps[i]
    requires forall i :: 0 <= i < |qs| ==> sep !in qs[i]
    requires Join(ps, sep) == Join(qs, sep)
    ensures ps == qs
    decreases |ps|
  {
    var s := Join(ps, sep);
    if |ps| > 1 && |qs| > 1 {
      var p, q := ps[0], qs[0];
      assert s == p + [sep] + Join(ps[1..], sep) == q + [sep] + Join(qs[1..], sep);
      IndexOfAfterPiece(p, sep, Join(ps[1..], sep));
      IndexOfAfterPiece(q, sep, Join(qs[1..], sep));
      assert p == s[..|p|] == q;
      assert Join(ps[1..], sep) == s[|p| + 1..] == Join(qs[1..], sep);
      JoinInjective(ps[1..], qs[1..], sep);
    }
  }

  /** Position of the first `sep` in `s`, or `|s|` when there is none. */
  function IndexOf(s: string, sep: char): (i: nat)
    ensures i <= |s|
    decreases |s|
  {
    if |s| == 0 then 0 else if s[0] == sep then 0 else 1 + IndexOf(s[1..], sep)
  }

  lemma {:induction false} IndexOfAfterPiece(p: string, sep: char, rest: string)
    requires sep !in p
    ensures IndexOf(p + [sep] + rest, sep) == |p|
    decreases |p|
  {
    if |p| > 0 {
      assert (p + [sep] + rest)[1..] == p[1..] + [sep] + rest;
      IndexOfAfterPiece(p[1..], sep, rest);
    }
  }

  /** Split is the only separator-free decomposition that joins back to `s`. */
  lemma SplitIsUnique(s: string, sep: char, pieces: seq<string>)
    requires |pieces| > 0 && Join(pieces, sep) == s
    requires forall i :: 0 <= i < |pieces| ==> sep !in pieces[i]
    ensures pieces == Split(s, sep)
  {
    JoinInjective(pieces, Split(s, sep), sep);
  }

  /** Text without the separator is a single piece. */
  lemma SplitNoSeparator(s: string, sep: char)
    requires sep !in s
    ensures Split(s, sep) == [s]
  {
    SplitIsUnique(s, sep, [s]);
  }

  /** The text before the first separator is the first piece; the rest splits on. */
  lemma SplitAtFirst(a: string, sep: char, b: string)
    requires sep !in a
    ensures Split(a + [sep] + b, sep) == [a] + Split(b, sep)
  {
    var rest := Split(b, sep);
    assert ([a] + rest)[1..] == rest;
    SplitIsUnique(a + [sep] + b, sep, [a] + rest);
  }

  /* ---------------------------------------------------------------------
   * Maximal runs of characters satisfying a predicate
   * ------------------------------------------------------------------- */

  /** The characters of `s` satisfying `p`, in order. */
  function Filter(s: string, p: char -> bool): string
    decreases |s|
  {
    if |s| == 0 then [] else (if p(s[0]) then [s[0]] else []) + Filter(s[1..], p)
  }

  lemma {:induction false} FilterConcat(a: string, b: string, p: char -> bool)
    ensures Filter(a + b, p) == Filter(a, p) + Filter(b, p)
    decreases |a|
  {
    var ab := a + b;
    if |a| == 0 {
      assert ab == b;
    } else {
      assert ab[0] == a[0];
      assert ab[1..] == a[1..] + b;
      FilterConcat(a[1..], b, p);
      var head := if p(a[0]) then [a[0]] else [];
      assert Filter(ab, p) == head + Filter(a[1..] + b, p);
      assert Filter(a, p) == head + Filter(a[1..], p);
    }
  }

  /** Filter keeps exactly the characters that satisfy `p`. */
  lemma {:induction false} FilterElements(s: string, p: char -> bool)
    ensures forall k :: 0 <= k < |Filter(s, p)| ==> p(Filter(s, p)[k])
    ensures |Filter(s, p)| == 0 <==> forall i :: 0 <= i < |s| ==> !p(s[i])
    decreases |s|
  {
    if |s| > 0 {
      FilterElements(s[1..], p);
      assert forall i :: 0 < i < |s| ==> s[i] == s[1..][i - 1];
    }
  }

  /** When `s[i]` is the first `p`-character of `s`, it is the first character kept. */
  lemma FilterStartsAt(s: string, i: nat, p: char -> bool)
    requires i < |s| && p(s[i])
    requires forall k :: 0 <= k < i ==> !p(s[k])
    ensures |Filter(s, p)| > 0 && Filter(s, p)[0] == s[i]
  {
    assert s == s[..i] + ([s[i]] + s[i + 1..]);
    FilterConcat(s[..i], [s[i]] + s[i + 1..], p);
    FilterConcat([s[i]], s[i + 1..], p);
    FilterElements(s[..i], p);
    assert [s[i]][1..] == [];
  }

  /** When `s[j]` is the last `p`-character of `s`, it is the last character kept. */
  lemma FilterEndsAt(s: string, j: nat, p: char -> bool)
    requires j < |s| && p(s[j])
    requires forall k :: j < k < |s| ==> !p(s[k])
    ensures |Filter(s, p)| > 0 && Filter(s, p)[|Filter(s, p)| - 1] == s[j]
  {
    assert s == (s[..j] + [s[j]]) + s[j + 1..];
    FilterConcat(s[..j] + [s[j]], s[j + 1..], p);
    FilterConcat(s[..j], [s[j]], p);
    FilterElements(s[j + 1..], p);
    assert [s[j]][1..] == [];
  }

  /** Length of the longest prefix of `s` whose characters satisfy `p`. */
  function RunLength(s: string, p: char -> bool): (n: nat)
    ensures n <= |s|
    ensures forall i :: 0 <= i < n ==> p(s[i])
    ensures n < |s| ==> !p(s[n])
    decreases |s|
  {
    if |s| == 0 || !p(s[0]) then 0 else 1 + RunLength(s[1..], p)
  }

  predicate AllSatisfy(s: string, p: char -> bool) {
    forall i :: 0 <= i < |s| ==> p(s[i])
  }

  /**
   * The maximal runs of `p`-characters in `s`, left to right: each run is
   * non-empty and made only of `p`-characters, and the characters between
   * runs are the ones that fail `p`.
   */
  function Runs(s: string, p: char -> bool): (runs: seq<string>)
    ensures forall i :: 0 <= i < |runs| ==> |runs[i]| > 0 && AllSatisfy(runs[i], p)
    decreases |s|
  {
    if |s| == 0 then []
    else if !p(s[0]) then Runs(s[1..], p)
    else
      var n := RunLength(s, p);
      [s[..n]] + Runs(s[n..], p)
  }

  /** Concatenation of a sequence of strings (`join("")`). */
  function Concat(ss: seq<string>): string
    decreases |ss|
  {
    if |ss| == 0 then [] else ss[0] + Concat(ss[1..])
  }

  lemma {:induction false} FilterAllSatisfy(s: string, p: char -> bool)
    requires AllSatisfy(s, p)
    ensures Filter(s, p) == s
    decreases |s|
  {
    if |s| > 0 {
      FilterAllSatisfy(s[1..], p);
    }
  }

  /** Gluing the runs together gives exactly the `p`-characters of `s`. */
  lemma {:induction false} RunsConcat(s: string, p: char -> bool)
    ensures Concat(Runs(s, p)) == Filter(s, p)
    decreases |s|
  {
    if |s| == 0 {
    } else if !p(s[0]) {
      RunsConcat(s[1..], p);
    } else {
      var n := RunLength(s, p);
      var runs := Runs(s, p);
      assert runs == [s[..n]] + Runs(s[n..], p);
      assert runs[1..] == Runs(s[n..], p);
      RunsConcat(s[n..], p);
      FilterAllSatisfy(s[..n], p);
      assert s == s[..n] + s[n..];
      FilterConcat(s[..n], s[n..], p);
    }
  }

  lemma Assoc<T>(x: seq<T>, y: seq<T>, z: seq<T>)
    ensures (x + y) + z == x + (y + z)
  {
  }

  /** A run of `p`-characters followed by text that does not open with one is the whole first run. */
  lemma {:induction false} RunLengthOfRun(x: string, y: string, p: char -> bool)
    requires AllSatisfy(x, p)
    requires |y| > 0 ==> !p(y[0])
    ensures RunLength(x + y, p) == |x|
    decreases |x|
  {
    var s := x + y;
    if |x| == 0 {
      assert s == y;
    } else {
      assert s[0] == x[0];
      assert s[1..] == x[1..] + y;
      RunLengthOfRun(x[1..], y, p);
    }
  }

  /** The runs of a run followed by text that does not open with a `p`-character. */
  lemma RunsAfterRun(x: string, y: string, p: char -> bool)
    requires |x| > 0 && AllSatisfy(x, p)
    requires |y| > 0 ==> !p(y[0])
    ensures Runs(x + y, p) == [x] + Runs(y, p)
  {
    var s := x + y;
    RunLengthOfRun(x, y, p);
    assert s[0] == x[0];
    assert s[..|x|] == x;
    assert s[|x|..] == y;
  }

  /** Text opening with a character failing `p` ends every run before it. */
  lemma {:induction false} RunsBeforeBreak(a: string, y: string, p: char -> bool)
    requires |y| > 0 && !p(y[0])
    ensures Runs(a + y, p) == Runs(a, p) + Runs(y, p)
    decreases |a|
  {
    if |a| == 0 {
      assert a + y == y;
    } else if !p(a[0]) {
      var s := a + y;
      assert s[0] == a[0];
      assert s[1..] == a[1..] + y;
      RunsBeforeBreak(a[1..], y, p);
    } else {
      var n := RunLength(a, p);
      var x := a[..n];
      var r := a[n..];
      assert a == x + r;
      assert |r| > 0 ==> r[0] == a[n];
      Assoc(x, r, y);
      RunsBeforeBreak(r, y, p);
      RunsAfterRun(x, r, p);
      RunsAfterRun(x, r + y, p);
      Assoc([x], Runs(r, p), Runs(y, p));
    }
  }

  /**
   * A character failing `p` separates runs: the runs of `a + [c] + b` are
   * the runs of `a` followed by the runs of `b`.
   */
  lemma RunsSplitAt(a: string, c: char, b: string, p: char -> bool)
    requires !p(c)
    ensures Runs(a + [c] + b, p) == Runs(a, p) + Runs(b, p)
  {
    var y := [c] + b;
    assert y[0] == c && y[1..] == b;
    Assoc(a, [c], b);
    RunsBeforeBreak(a, y, p);
  }

  /* ---------------------------------------------------------------------
   * Whitespace: `split_ascii_whitespace` and `trim`
   * ------------------------------------------------------------------- */

  /** Rust's `u8::is_ascii_whitespace`: space, tab, line feed, form feed, carriage return. */
  predicate IsAsciiWhitespace(c: char) {
    c == ' ' || c == '\t' || c == '\n' || c == '\U{000C}' || c == '\r'
  }

  predicate IsWordChar(c: char) {
    !IsAsciiWhitespace(c)
  }

  /** `s.split_ascii_whitespace()`: the non-empty, whitespace-free tokens of `s`. */
  function Words(s: string): (words: seq<string>)
    ensures forall i :: 0 <= i < |words| ==> |words[i]| > 0 && AllSatisfy(words[i], IsWordChar)
  {
    Runs(s, IsWordChar)
  }

  /** Whitespace between two texts separates their tokens. */
  lemma WordsSplitAt(a: string, w: char, b: string)
    requires IsAsciiWhitespace(w)
    ensures Words(a + [w] + b) == Words(a) + Words(b)
  {
    RunsSplitAt(a, w, b, IsWordChar);
  }

  /** Text with no ASCII whitespace is a single token. */
  lemma WordsSingle(s: string)
    requires |s| > 0 && AllSatisfy(s, IsWordChar)
    ensures Words(s) == [s]
  {
    assert RunLength(s, IsWordChar) == |s|;
    assert s[..|s|] == s;
    assert Runs(s, IsWordChar) == [s[..|s|]] + Runs(s[|s|..], IsWordChar);
    assert Runs(s[|s|..], IsWordChar) == [];
  }

  /** Rust's `char::is_whitespace`, the Unicode White_Space property. */
  predicate IsWhitespace(c: char) {
    ('\t' <= c <= '\r') || c == ' ' || c == '\U{0085}' || c == '\U{00A0}' || c == '\U{1680}'
    || ('\U{2000}' <= c <= '\U{200A}') || c == '\U{2028}' || c == '\U{2029}'
    || c == '\U{202F}' || c == '\U{205F}' || c == '\U{3000}'
  }

  /** The number of trailing `p`-characters of `s`. */
  function RunLengthEnd(s: string, p: char -> bool): (n: nat)
    ensures n <= |s|
    ensures forall i :: |s| - n <= i < |s| ==> p(s[i])
    ensures n < |s| ==> !p(s[|s| - 1 - n])
    decreases |s|
  {
    if |s| == 0 || !p(s[|s| - 1]) then 0 else 1 + RunLengthEnd(s[..|s| - 1], p)
  }

  /** Drops leading whitespace: the result is a suffix of `s` that does not start with whitespace. */
  function TrimStart(s: string): (r: string)
    ensures |r| <= |s| && r == s[|s| - |r|..]
    ensures forall k :: 0 <= k < |s| - |r| ==> IsWhitespace(s[k])
    ensures |r| > 0 ==> !IsWhitespace(r[0])
  {
    s[RunLength(s, IsWhitespace)..]
  }

  /** Drops trailing whitespace: the result is a prefix of `s` that does not end with whitespace. */
  function TrimEnd(s: string): (r: string)
    ensures |r| <= |s| && r == s[..|r|]
    ensures forall k :: |r| <= k < |s| ==> IsWhitespace(s[k])
    ensures |r| > 0 ==> !IsWhitespace(r[|r| - 1])
  {
    s[..|s| - RunLengthEnd(s, IsWhitespace)]
  }

  /** `s.trim()`: `s` without its leading and trailing whitespace. */
  function Trim(s: string): (r: string)
    ensures |r| > 0 ==> !IsWhitespace(r[0]) && !IsWhitespace(r[|r| - 1])
    ensures (|s| == 0 || (!IsWhitespace(s[0]) && !IsWhitespace(s[|s| - 1]))) ==> r == s
  {
    TrimEnd(TrimStart(s))
  }

  /**
   * `trim` removes exactly the leading and the trailing whitespace: the
   * result is the slice of `s` that starts after its leading whitespace,
   * and everything outside that slice is whitespace.
   */
  lemma TrimIsMiddle(s: string)
    ensures var r := Trim(s); var i := RunLength(s, IsWhitespace);
      && i + |r| <= |s|
      && r == s[i..i + |r|]
      && (forall k :: 0 <= k < i ==> IsWhitespace(s[k]))
      && (forall k :: i + |r| <= k < |s| ==> IsWhitespace(s[k]))
  {
    var i := RunLength(s, IsWhitespace);
    TrimStartSlice(s);
    TrimEndSlice(s, i, s[i..]);
  }

  lemma TrimStartSlice(s: string)
    ensures Trim(s) == TrimEnd(s[RunLength(s, IsWhitespace)..])
    ensures forall k :: 0 <= k < RunLength(s, IsWhitespace) ==> IsWhitespace(s[k])
  {
  }

  lemma TrimEndSlice(s: string, i: nat, t: string)
    requires i <= |s| && t == s[i..]
    ensures var r := TrimEnd(t);
      && i + |r| <= |s|
      && r == s[i..i + |r|]
      && (forall k :: i + |r| <= k < |s| ==> IsWhitespace(s[k]))
  {
    var r := TrimEnd(t);
    assert r == t[..|r|];
    forall k | i + |r| <= k < |s| ensures IsWhitespace(s[k]) {
      assert s[k] == t[k - i];
    }
  }

  /** `.map(|s| s.trim())` over a sequence of strings. */
  function TrimAll(ss: seq<string>): (r: seq<string>)
    ensures |r| == |ss|
    ensures forall i :: 0 <= i < |ss| ==> r[i] == Trim(ss[i])
  {
    seq(|ss|, i requires 0 <= i < |ss| => Trim(ss[i]))
  }

  /** A leading space is trimmed away from text that neither starts nor ends with whitespace. */
  lemma TrimLeadingSpace(s: string)
    requires |s| > 0 && !IsWhitespace(s[0]) && !IsWhitespace(s[|s| - 1])
    ensures Trim(" " + s) == s
  {
    assert (" " + s)[1..] == s;
    assert TrimStart(" " + s) == TrimStart(s) == s;
  }

  lemma TrimIdempotent(s: string)
    ensures Trim(Trim(s)) == Trim(s)
  {
  }

  /* ---------------------------------------------------------------------
   * Decimal numbers: `u32::from_str`
   * ------------------------------------------------------------------- */

  const U32_MAX: nat := 4294967295

  predicate IsAsciiDigit(c: char) {
    '0' <= c <= '9'
  }

  function DigitValue(c: char): (d: nat)
    requires IsAsciiDigit(c)
    ensures d <= 9
  {
    (c as int) - ('0' as int)
  }

  function DigitChar(d: nat): (c: char)
    requires d <= 9
    ensures IsAsciiDigit(c) && DigitValue(c) == d
  {
    ('0' as int + d) as char
  }

  /** The value of a string of decimal digits, most significant first. */
  function DecimalValue(s: string): nat
    requires AllSatisfy(s, IsAsciiDigit)
    decreases |s|
  {
    if |s| == 0 then 0 else DecimalValue(s[..|s| - 1]) * 10 + DigitValue(s[|s| - 1])
  }

  /** The digits after an optional leading `+`. */
  function UnsignedDigits(s: string): string {
    if |s| > 0 && s[0] == '+' then s[1..] else s
  }

  /**
   * `s.parse::<u32>()`: an optional `+`, then one or more ASCII digits whose
   * value fits in 32 bits. A `-` sign, any other character, an empty digit
   * string or an overflowing value is an error (`None`).
   */
  function ParseU32(s: string): (r: Option<nat>)
    ensures r.Some? ==> r.value <= U32_MAX
    ensures r.Some? ==> |s| > 0 && s != "+"
    ensures r.Some? ==> forall i :: 0 <= i < |s| ==> IsAsciiDigit(s[i]) || (i == 0 && s[i] == '+')
    ensures r.Some? ==> AllSatisfy(UnsignedDigits(s), IsAsciiDigit) && r.value == DecimalValue(UnsignedDigits(s))
  {
    var digits := UnsignedDigits(s);
    if |digits| > 0 && AllSatisfy(digits, IsAsciiDigit) && DecimalValue(digits) <= U32_MAX then
      Some(DecimalValue(digits))
    else
      None
  }

  /** The shortest decimal spelling of `n`. */
  function ToDecimal(n: nat): (s: string)
    ensures |s| > 0 && AllSatisfy(s, IsAsciiDigit)
    ensures DecimalValue(s) == n
    decreases n
  {
    if n < 10 then [DigitChar(n)]
    else
      var s := ToDecimal(n / 10) + [DigitChar(n % 10)];
      assert s[..|s| - 1] == ToDecimal(n / 10);
      s
  }

  /** Every 32-bit value parses back from its decimal spelling, with or without `+`. */
  lemma ParseU32RoundTrip(n: nat)
    requires n <= U32_MAX
    ensures ParseU32(ToDecimal(n)) == Some(n)
    ensures ParseU32("+" + ToDecimal(n)) == Some(n)
  {
    var s := ToDecimal(n);
    assert UnsignedDigits("+" + s) == s;
    assert s[0] != '+';
  }

  /** Values beyond 32 bits do not parse. */
  lemma ParseU32Overflow(n: nat)
    requires n > U32_MAX
    ensures ParseU32(ToDecimal(n)) == None
  {
    var s := ToDecimal(n);
    assert s[0] != '+';
  }

  /** Every non-empty digit string of at most 32 bits parses, with or without `+`, to its decimal value. */
  lemma ParseU32Digits(d: string)
    requires |d| > 0 && AllSatisfy(d, IsAsciiDigit) && DecimalValue(d) <= U32_MAX
    ensures ParseU32(d) == Some(DecimalValue(d))
    ensures ParseU32("+" + d) == Some(DecimalValue(d))
  {
    assert d[0] != '+';
    assert UnsignedDigits("+" + d) == d;
  }

  /** `k` zero characters. */
  function Zeros(k: nat): (z: string)
    ensures |z| == k && AllSatisfy(z, IsAsciiDigit)
  {
    seq(k, _ => '0')
  }

  /** Leading zeros add nothing to a decimal value. */
  lemma {:induction false} DecimalValueLeadingZeros(k: nat, t: string)
    requires AllSatisfy(t, IsAsciiDigit)
    ensures AllSatisfy(Zeros(k) + t, IsAsciiDigit)
    ensures DecimalValue(Zeros(k) + t) == DecimalValue(t)
    decreases |t| + k
  {
    var zt := Zeros(k) + t;
    if |t| > 0 {
      var n := |t| - 1;
      assert zt[..|zt| - 1] == Zeros(k) + t[..n];
      assert zt[|zt| - 1] == t[n];
      DecimalValueLeadingZeros(k, t[..n]);
    } else if k > 0 {
      assert zt[..|zt| - 1] == Zeros(k - 1) + t;
      assert zt[|zt| - 1] == '0';
      DecimalValueLeadingZeros(k - 1, t);
    } else {
      assert zt == [];
    }
  }

  /** A spelling padded with leading zeros (`"007"`, `"+007"`) still parses to its value. */
  lemma ParseU32LeadingZeros(k: nat, n: nat)
    requires n <= U32_MAX
    ensures ParseU32(Zeros(k) + ToDecimal(n)) == Some(n)
    ensures ParseU32("+" + (Zeros(k) + ToDecimal(n))) == Some(n)
  {
    DecimalValueLeadingZeros(k, ToDecimal(n));
    ParseU32Digits(Zeros(k) + ToDecimal(n));
  }

  /** Two digit characters always parse, to ten times the first plus the second. */
  lemma ParseU32TwoDigits(a: char, b: char)
    requires IsAsciiDigit(a) && IsAsciiDigit(b)
    ensures ParseU32([a, b]) == Some(10 * DigitValue(a) + DigitValue(b))
  {
    var s := [a, b];
    assert UnsignedDigits(s) == s;
    assert AllSatisfy(s, IsAsciiDigit);
    assert s[..1] == [a];
    assert [a][..0] == [];
    assert DecimalValue([a]) == DigitValue(a);
  }
}
