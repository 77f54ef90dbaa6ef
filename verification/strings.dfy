/** The pieces of Python's `str` behaviour the bot relies on: whitespace
    stripping, `split`, `join`, `splitlines`, decimal formatting and `int()`
    parsing, ASCII upper-casing and substring search.

    Python's `str.isspace`, regex `\s` and regex `\d` are Unicode-aware; this
    module uses their ASCII subsets. */
module Strings {
  import opened Wrappers

  /** ASCII whitespace: the characters `str.strip()` and regex `\s` remove or match. */
  predicate IsSpace(c: char) {
    c == ' ' || c == '\t' || c == '\n' || c == '\r' || c == '\U{0B}' || c == '\U{0C}'
  }

  /** ASCII decimal digit, regex `\d`. */
  predicate IsDigit(c: char) {
    '0' <= c <= '9'
  }

  predicate AllDigits(s: string) {
    forall i :: 0 <= i < |s| ==> IsDigit(s[i])
  }

  /** No leading and no trailing whitespace. */
  predicate Stripped(s: string) {
    |s| == 0 || (!IsSpace(s[0]) && !IsSpace(s[|s| - 1]))
  }

  /** The number of whitespace characters that open `s`. */
  function LeadingSpaces(s: string): (n: nat)
    ensures n <= |s|
    ensures forall i :: 0 <= i < n ==> IsSpace(s[i])
    ensures n < |s| ==> !IsSpace(s[n])
  {
    if |s| > 0 && IsSpace(s[0]) then 1 + LeadingSpaces(s[1..]) else 0
  }

  /** The number of whitespace characters that close `s`. */
  function TrailingSpaces(s: string): (n: nat)
    ensures n <= |s|
    ensures forall i :: |s| - n <= i < |s| ==> IsSpace(s[i])
    ensures n < |s| ==> !IsSpace(s[|s| - n - 1])
  {
    if |s| > 0 && IsSpace(s[|s| - 1]) then 1 + TrailingSpaces(s[..|s| - 1]) else 0
  }

  /** Python's `s.strip()`: the result is stripped, and a stripped input is returned as is. */
  function Strip(s: string): (r: string)
    ensures Stripped(r)
    ensures Stripped(s) ==> r == s
    ensures |r| <= |s|
  {
    var t := s[LeadingSpaces(s)..];
    t[..|t| - TrailingSpaces(t)]
  }

  /** What `strip()` keeps: the stretch of `s` that starts at its first
      non-whitespace character, with nothing but whitespace after it. Together
      with `Stripped(Strip(s))` this pins the result down. */
  lemma StripContents(s: string)
    ensures LeadingSpaces(s) + |Strip(s)| <= |s|
    ensures Strip(s) == s[LeadingSpaces(s)..LeadingSpaces(s) + |Strip(s)|]
    ensures forall i :: 0 <= i < LeadingSpaces(s) ==> IsSpace(s[i])
    ensures forall i :: LeadingSpaces(s) + |Strip(s)| <= i < |s| ==> IsSpace(s[i])
  {
    var t := s[LeadingSpaces(s)..];
    var n := TrailingSpaces(t);
    forall i | LeadingSpaces(s) + |Strip(s)| <= i < |s|
      ensures IsSpace(s[i])
    {
      assert s[i] == t[i - LeadingSpaces(s)];
    }
  }

  /** Stripping twice is stripping once. */
  lemma StripIdempotent(s: string)
    ensures Strip(Strip(s)) == Strip(s)
  {
  }

  /** A leading whitespace character never survives `strip()`. */
  lemma StripLeadingSpace(c: char, x: string)
    requires IsSpace(c)
    ensures Strip([c] + x) == Strip(x)
  {
    assert ([c] + x)[1..] == x;
  }

  // ---------------------------------------------------------------------------
  // split / join

  /** Python's `sep.join(parts)` for a one-character separator. */
  function Join(parts: seq<string>, sep: char): string
  {
    if |parts| == 0 then []
    else if |parts| == 1 then parts[0]
    else parts[0] + [sep] + Join(parts[1..], sep)
  }

  /** Python's `s.split(sep)` for a one-character separator: never empty, no
      part holds the separator, and joining the parts gives `s` back. */
  function SplitOn(s: string, sep: char): (parts: seq<string>)
    ensures |parts| >= 1
    ensures forall i :: 0 <= i < |parts| ==> sep !in parts[i]
    ensures Join(parts, sep) == s
    decreases |s|
  {
    if |s| == 0 then [[]]
    else
      var rest := SplitOn(s[1..], sep);
      if s[0] == sep then
        assert ([[]] + rest)[1..] == rest;
        [[]] + rest
      else
        var parts := [[s[0]] + rest[0]] + rest[1..];
        assert parts[1..] == rest[1..];
        assert |rest| > 1 ==> Join(rest, sep) == rest[0] + [sep] + Join(rest[1..], sep);
        parts
  }

  /** Splitting a join recovers the parts when no part holds the separator. */
  lemma {:induction false} SplitJoin(parts: seq<string>, sep: char)
    requires |parts| >= 1
    requires forall i :: 0 <= i < |parts| ==> sep !in parts[i]
    ensures SplitOn(Join(parts, sep), sep) == parts
    decreases |Join(parts, sep)|
  {
    var s := Join(parts, sep);
    if |parts[0]| == 0 {
      if |parts| > 1 {
        assert s == [sep] + Join(parts[1..], sep);
        assert s[1..] == Join(parts[1..], sep);
        SplitJoin(parts[1..], sep);
        assert parts == [[]] + parts[1..];
      }
    } else {
      var c := parts[0][0];
      var shorter := [parts[0][1..]] + parts[1..];
      assert shorter[1..] == parts[1..];
      assert parts[0] == [c] + parts[0][1..];
      if |parts| == 1 {
        assert Join(shorter, sep) == parts[0][1..];
      } else {
        assert Join(shorter, sep) == parts[0][1..] + [sep] + Join(parts[1..], sep);
      }
      assert s == [c] + Join(shorter, sep);
      assert s[1..] == Join(shorter, sep);
      assert c != sep;
      SplitJoin(shorter, sep);
      assert SplitOn(s, sep) == [[c] + shorter[0]] + shorter[1..];
    }
  }

  /** Joining two non-empty lists of parts puts one separator between their joins. */
  lemma JoinAppend(a: seq<string>, b: seq<string>, sep: char)
    requires |a| >= 1 && |b| >= 1
    ensures Join(a + b, sep) == Join(a, sep) + [sep] + Join(b, sep)
    decreases |a|
  {
    if |a| == 1 {
      assert (a + b)[1..] == b;
    } else {
      assert (a + b)[1..] == a[1..] + b;
      JoinAppend(a[1..], b, sep);
      Regroup(a[0], [sep], Join(a[1..], sep), [sep], Join(b, sep));
    }
  }

  lemma Assoc<T>(a: seq<T>, b: seq<T>, c: seq<T>)
    ensures a + (b + c) == (a + b) + c
  {
  }

  /** The head and tail of a concatenation whose first part is not empty. */
  lemma HeadTailAppend<T>(a: seq<T>, b: seq<T>)
    requires |a| > 0
    ensures (a + b)[0] == a[0] && (a + b)[1..] == a[1..] + b
  {
  }

  /** Concatenation regrouped: the second group's first two parts join the first. */
  lemma Regroup<T>(p: seq<T>, q: seq<T>, r: seq<T>, s: seq<T>, t: seq<T>)
    ensures p + q + (r + s + t) == p + q + r + s + t
  {
  }

  // ---------------------------------------------------------------------------
  // splitlines

  /** The characters Python's `str.splitlines()` treats as line boundaries. */
  predicate IsLineBreak(c: char) {
    c == '\n' || c == '\r' || c == '\U{0B}' || c == '\U{0C}' || c == '\U{1C}' || c == '\U{1D}'
    || c == '\U{1E}' || c == '\U{85}' || c == '\U{2028}' || c == '\U{2029}'
  }

  predicate SingleLine(s: string) {
    forall i :: 0 <= i < |s| ==> !IsLineBreak(s[i])
  }

  /** Length of the first line of `s`: the index of its first line boundary, or `|s|`. */
  function LineLength(s: string): (n: nat)
    ensures n <= |s|
    ensures forall i :: 0 <= i < n ==> !IsLineBreak(s[i])
    ensures n < |s| ==> IsLineBreak(s[n])
  {
    if |s| == 0 || IsLineBreak(s[0]) then 0 else 1 + LineLength(s[1..])
  }

  /** Python's `s.splitlines()`: `\r\n` is one boundary and a final boundary adds no empty line. */
  function SplitLines(s: string): (lines: seq<string>)
    ensures forall i :: 0 <= i < |lines| ==> SingleLine(lines[i])
    ensures |lines| == 0 <==> |s| == 0
    ensures SingleLine(s) && s != "" ==> lines == [s]
    decreases |s|
  {
    if |s| == 0 then []
    else
      var n := LineLength(s);
      if n == |s| then [s]
      else if s[n] == '\r' && n + 1 < |s| && s[n + 1] == '\n' then [s[..n]] + SplitLines(s[n + 2..])
      else [s[..n]] + SplitLines(s[n + 1..])
  }

  /** A single-line prefix followed by `\n` is the first line of `splitlines()`. */
  lemma SplitLinesNewline(a: string, b: string)
    requires SingleLine(a)
    ensures SplitLines(a + ("\n" + b)) == [a] + SplitLines(b)
  {
    SplitLinesBreak(a, '\n', b);
  }

  /** The second of `splitlines()` is the text between the first two newlines,
      whatever follows them. */
  lemma SplitLinesSecond(l0: string, l1: string, tail: string)
    requires SingleLine(l0) && SingleLine(l1)
    ensures var lines := SplitLines(l0 + ("\n" + (l1 + ("\n" + tail))));
            |lines| >= 2 && lines[1] == l1
  {
    SplitLinesNewline(l0, l1 + ("\n" + tail));
    SplitLinesNewline(l1, tail);
  }

  /** Any single line break other than the first half of `\r\n` ends the first
      line, and the lines after it are those of the rest. */
  lemma SplitLinesBreak(a: string, c: char, b: string)
    requires SingleLine(a) && IsLineBreak(c)
    requires c != '\r' || b == [] || b[0] != '\n'
    ensures SplitLines(a + ([c] + b)) == [a] + SplitLines(b)
  {
    var s := a + ([c] + b);
    AroundSeparator(a, c, b);
    assert LineLength(s) == |a|;
  }

  /** `\r\n` is a single boundary: it ends the first line and adds no empty line. */
  lemma SplitLinesCrLf(a: string, b: string)
    requires SingleLine(a)
    ensures SplitLines(a + ("\r\n" + b)) == [a] + SplitLines(b)
  {
    var s := a + ("\r\n" + b);
    assert s == a + (['\r'] + (['\n'] + b));
    AroundSeparator(a, '\r', ['\n'] + b);
    assert LineLength(s) == |a|;
    assert s[|a| + 2..] == b;
  }

  /** The parts of a concatenation around a one-element separator. */
  lemma AroundSeparator<T>(a: seq<T>, c: T, b: seq<T>)
    ensures var s := a + ([c] + b);
            && |s| == |a| + 1 + |b| && s[|a|] == c && s[..|a|] == a && s[|a| + 1..] == b
            && forall i :: 0 <= i < |a| ==> s[i] == a[i]
  {
    var s := a + ([c] + b);
    assert s[..|a|] == a;
    assert s[|a| + 1..] == b;
  }

  /** The lines of `ls`, each followed by a newline, and then `rest`. */
  function PrefixLines(ls: seq<string>, rest: string): string
    decreases |ls|
  {
    if |ls| == 0 then rest else ls[0] + ("\n" + PrefixLines(ls[1..], rest))
  }

  lemma PrefixLinesCons(a: string, ls: seq<string>, rest: string)
    ensures PrefixLines([a] + ls, rest) == a + ("\n" + PrefixLines(ls, rest))
  {
    assert ([a] + ls)[1..] == ls;
  }

  /** Putting the head back in front of the tail, ahead of more elements. */
  lemma ConsAppend<T>(xs: seq<T>, ys: seq<T>)
    requires |xs| > 0
    ensures [xs[0]] + (xs[1..] + ys) == xs + ys
  {
    assert [xs[0]] + xs[1..] == xs;
  }

  /** Splitting single lines that were put ahead of `rest` gives them back,
      followed by the lines of `rest`. */
  lemma {:induction false} SplitPrefixLines(ls: seq<string>, rest: string)
    requires forall i :: 0 <= i < |ls| ==> SingleLine(ls[i])
    ensures SplitLines(PrefixLines(ls, rest)) == ls + SplitLines(rest)
    decreases |ls|
  {
    if |ls| > 0 {
      var p := PrefixLines(ls[1..], rest);
      assert PrefixLines(ls, rest) == ls[0] + ("\n" + p);
      SplitLinesNewline(ls[0], p);
      SplitPrefixLines(ls[1..], rest);
      ConsAppend(ls, SplitLines(rest));
    } else {
      assert ls + SplitLines(rest) == SplitLines(rest);
    }
  }

  // ---------------------------------------------------------------------------
  // decimal numbers

  function DigitChar(d: nat): char
    requires d < 10
  {
    (('0' as int) + d) as char
  }

  function DigitValue(c: char): nat
    requires IsDigit(c)
  {
    (c as int) - ('0' as int)
  }

  /** Python's `str(n)` for a non-negative integer: a non-empty string of
      digits with no leading zero (`0` itself is the one-digit `"0"`). */
  function NatToString(n: nat): (s: string)
    ensures |s| >= 1
    ensures AllDigits(s)
    ensures |s| > 1 ==> s[0] != '0'
    ensures s[0] == '0' <==> n == 0
    decreases n
  {
    if n < 10 then [DigitChar(n)] else NatToString(n / 10) + [DigitChar(n % 10)]
  }

  /** Python's `str(n)` for any integer. */
  function IntToString(n: int): string
  {
    if n < 0 then "-" + NatToString(-n) else NatToString(n)
  }

  /** The value of a string of decimal digits (leading zeros allowed). */
  function DecimalValue(s: string): nat
    requires AllDigits(s)
    decreases |s|
  {
    if |s| == 0 then 0 else 10 * DecimalValue(s[..|s| - 1]) + DigitValue(s[|s| - 1])
  }

  /** Reading back a formatted number gives the number. */
  lemma {:induction false} DecimalRoundTrip(n: nat)
    ensures DecimalValue(NatToString(n)) == n
    decreases n
  {
    if n >= 10 {
      DecimalRoundTrip(n / 10);
      var s := NatToString(n);
      assert s[..|s| - 1] == NatToString(n / 10);
    }
  }

  function Zeros(k: nat): (z: string)
    ensures |z| == k
    ensures forall i :: 0 <= i < k ==> z[i] == '0'
  {
    if k == 0 then [] else Zeros(k - 1) + "0"
  }

  /** A run of zeros is worth nothing. */
  lemma {:induction false} ZerosValue(k: nat)
    ensures AllDigits(Zeros(k)) && DecimalValue(Zeros(k)) == 0
    decreases k
  {
    if k > 0 {
      ZerosValue(k - 1);
      var z := Zeros(k);
      assert z[..|z| - 1] == Zeros(k - 1);
      assert z[|z| - 1] == '0';
      assert DecimalValue(z) == 10 * DecimalValue(Zeros(k - 1)) + DigitValue(z[|z| - 1]);
    }
  }

  /** Leading zeros do not change the value of a digit string. */
  lemma {:induction false} LeadingZeros(k: nat, s: string)
    requires AllDigits(s)
    ensures AllDigits(Zeros(k) + s)
    ensures DecimalValue(Zeros(k) + s) == DecimalValue(s)
    decreases |s|
  {
    var z := Zeros(k);
    if |s| == 0 {
      assert z + s == z;
      ZerosValue(k);
    } else {
      var t := z + s;
      LeadingZeros(k, s[..|s| - 1]);
      assert t[..|t| - 1] == z + s[..|s| - 1];
      assert t[|t| - 1] == s[|s| - 1];
    }
  }

  /** Python's `format(n, "0<width>d")` for a non-negative `n`: zeros are
      added in front only up to the width, never beyond `str(n)`. */
  function ZeroPad(n: nat, width: nat): (r: string)
    ensures |r| >= width
    ensures |r| == if |NatToString(n)| < width then width else |NatToString(n)|
    ensures AllDigits(r)
    ensures DecimalValue(r) == n
  {
    var digits := NatToString(n);
    var pad := if |digits| < width then width - |digits| else 0;
    LeadingZeros(pad, digits);
    DecimalRoundTrip(n);
    Zeros(pad) + digits
  }

  /** An approximation of Python's `int(s)`: surrounding whitespace, an optional
      sign, then one or more ASCII digits; anything else is a `ValueError` (`None`). */
  function ParseInt(s: string): Option<int>
  {
    var t := Strip(s);
    if |t| > 0 && (t[0] == '+' || t[0] == '-') then
      var mag := t[1..];
      if |mag| > 0 && AllDigits(mag) then
        var v: int := DecimalValue(mag);
        Some(if t[0] == '-' then -v else v)
      else None
    else if |t| > 0 && AllDigits(t) then Some(DecimalValue(t))
    else None
  }

  /** `int(str(n)) == n`. */
  lemma ParseIntRoundTrip(n: int)
    ensures ParseInt(IntToString(n)) == Some(n)
  {
    var m: nat := if n < 0 then -n else n;
    DecimalRoundTrip(m);
    if n < 0 {
      var s := IntToString(n);
      assert s[1..] == NatToString(m);
      ParseNegative(s);
    } else {
      ParseDigits(NatToString(m));
    }
  }

  /** A non-empty digit string reads as its value. */
  lemma ParseDigits(d: string)
    requires |d| > 0 && AllDigits(d)
    ensures ParseInt(d) == Some(DecimalValue(d))
  {
    assert IsDigit(d[0]) && IsDigit(d[|d| - 1]);
    assert Strip(d) == d;
  }

  /** A minus sign and a non-empty digit string read as the negated value. */
  lemma ParseNegative(s: string)
    requires |s| >= 2 && s[0] == '-' && AllDigits(s[1..])
    ensures ParseInt(s) == Some(-(DecimalValue(s[1..]) as int))
  {
    assert IsDigit(s[1..][|s| - 2]);
    assert Strip(s) == s;
  }

  // ---------------------------------------------------------------------------
  // case and search

  function UpperChar(c: char): char
  {
    if 'a' <= c <= 'z' then ((c as int) - 32) as char else c
  }

  /** ASCII approximation of Python's `str.upper()`. */
  function Upper(s: string): (r: string)
    ensures |r| == |s|
    ensures forall i :: 0 <= i < |s| ==> r[i] == UpperChar(s[i])
  {
    if |s| == 0 then [] else [UpperChar(s[0])] + Upper(s[1..])
  }

  /** `s.split(c, 1)[1]`: what follows the first occurrence of `c`. */
  function AfterFirst(s: string, c: char): (r: string)
    requires c in s
    ensures |r| < |s| && r == s[|s| - |r|..]
    ensures s[|s| - |r| - 1] == c
    ensures c !in s[..|s| - |r| - 1]
  {
    if s[0] == c then s[1..] else AfterFirst(s[1..], c)
  }

  /** `s.rsplit(c, 1)[-1]`: what follows the last occurrence of `c`, or all of `s`. */
  function AfterLast(s: string, c: char): (r: string)
    ensures c !in r
    ensures |r| <= |s| && r == s[|s| - |r|..]
    ensures |r| < |s| ==> s[|s| - |r| - 1] == c
  {
    if |s| == 0 then []
    else if s[|s| - 1] == c then []
    else AfterLast(s[..|s| - 1], c) + [s[|s| - 1]]
  }

  /** The text after the last `c` is the last segment. */
  lemma {:induction false} AfterLastSegment(a: string, c: char, b: string)
    requires c !in b
    ensures AfterLast(a + [c] + b, c) == b
    decreases |b|
  {
    var s := a + [c] + b;
    if |b| > 0 {
      assert s[..|s| - 1] == a + [c] + b[..|b| - 1];
      AfterLastSegment(a, c, b[..|b| - 1]);
      assert b == b[..|b| - 1] + [b[|b| - 1]];
    }
  }

  /** `pat` occurs in `s` starting at index `i`. */
  predicate OccursAt(s: string, pat: string, i: nat) {
    i + |pat| <= |s| && s[i..i + |pat|] == pat
  }

  /** Python's `pat in s`. */
  predicate Contains(s: string, pat: string) {
    exists i: nat | i <= |s| :: OccursAt(s, pat, i)
  }

  /** An occurrence that starts inside `x` cannot run across a character that `pat` lacks. */
  lemma OccursBeforeBarrier(x: string, c: char, y: string, pat: string, j: nat)
    requires c !in pat
    requires j < |x|
    requires OccursAt(x + [c] + y, pat, j)
    ensures OccursAt(x, pat, j)
  {
    var s := x + [c] + y;
    assert s[|x|] == c;
    if |pat| > 0 {
      // the window's character at the barrier position, or its first one
      var k := if j + |pat| > |x| then |x| - j else 0;
      assert pat[k] == s[j..j + |pat|][k] == s[j + k];
    }
    assert j + |pat| <= |x|;
    assert s[j..j + |pat|] == x[j..j + |pat|];
  }
}
