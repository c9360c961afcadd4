/** The few Python `str` operations the decision rules use: `lower()`,
    `upper()`, `strip()`, `startswith`, the substring test `w in s` and
    `sep.join(parts)`. Case mapping is restricted to ASCII; `strip()` removes
    every character Python's `str.isspace` accepts; numbers print and read
    back in decimal. */
module Text {
  import opened Wrappers

  /** `c.lower()` for one character, ASCII letters only. */
  function LowerChar(c: char): char {
    if 'A' <= c <= 'Z' then (c as int + 32) as char else c
  }

  /** `c.upper()` for one character, ASCII letters only. */
  function UpperChar(c: char): char {
    if 'a' <= c <= 'z' then (c as int - 32) as char else c
  }

  /** `s.lower()`: every character mapped on its own, so the length is kept. */
  function Lower(s: string): string {
    seq(|s|, i requires 0 <= i < |s| => LowerChar(s[i]))
  }

  /** `s.upper()`. */
  function Upper(s: string): string {
    seq(|s|, i requires 0 <= i < |s| => UpperChar(s[i]))
  }

  /** Python's `str.isspace` for one character. */
  predicate IsSpace(c: char) {
    var n := c as int;
    || 9 <= n <= 13 || 0x1C <= n <= 0x20 || n == 0x85 || n == 0xA0 || n == 0x1680
    || 0x2000 <= n <= 0x200A || n == 0x2028 || n == 0x2029 || n == 0x202F
    || n == 0x205F || n == 0x3000
  }

  /** True when no character of `s` is whitespace. */
  predicate NoSpace(s: string) {
    forall i :: 0 <= i < |s| ==> !IsSpace(s[i])
  }

  /** Number of whitespace characters at the front of `s`. */
  function LeadingSpace(s: string): (n: nat)
    ensures n <= |s|
    ensures forall i :: 0 <= i < n ==> IsSpace(s[i])
    ensures n < |s| ==> !IsSpace(s[n])
  {
    if |s| > 0 && IsSpace(s[0]) then 1 + LeadingSpace(s[1..]) else 0
  }

  /** Number of whitespace characters at the back of `s`. */
  function TrailingSpace(s: string): (n: nat)
    ensures n <= |s|
    ensures forall i :: |s| - n <= i < |s| ==> IsSpace(s[i])
    ensures n < |s| ==> !IsSpace(s[|s| - n - 1])
  {
    if |s| > 0 && IsSpace(s[|s| - 1]) then 1 + TrailingSpace(s[..|s| - 1]) else 0
  }

  /** `s.lstrip()`. */
  function TrimStart(s: string): string {
    s[LeadingSpace(s)..]
  }

  /** `s.rstrip()`. */
  function TrimEnd(s: string): string {
    s[..|s| - TrailingSpace(s)]
  }

  /** `s.strip()`. */
  function Strip(s: string): string {
    TrimEnd(TrimStart(s))
  }

  /** `not s.strip()`: the text is empty once whitespace is removed. */
  predicate IsBlank(s: string) {
    Strip(s) == ""
  }

  /** `s.startswith(p)`. */
  predicate StartsWith(s: string, p: string) {
    |p| <= |s| && s[..|p|] == p
  }

  /** `w` occurs in `s` starting at index `i`. */
  predicate OccursAt(s: string, w: string, i: int) {
    0 <= i && i + |w| <= |s| && s[i..i + |w|] == w
  }

  /** Python's `w in s` on strings. */
  predicate Contains(s: string, w: string) {
    exists i :: 0 <= i <= |s| - |w| && OccursAt(s, w, i)
  }

  /** `sep.join(parts)`. */
  function Join(parts: seq<string>, sep: string): string {
    if |parts| == 0 then ""
    else if |parts| == 1 then parts[0]
    else parts[0] + sep + Join(parts[1..], sep)
  }

  /** The decimal digit for 0..9. */
  function Digit(n: int): char
    requires 0 <= n <= 9
  {
    ('0' as int + n) as char
  }

  /** A natural number in decimal without padding. */
  function Decimal(n: nat): (s: string)
    ensures |s| >= 1
    ensures n < 10 ==> |s| == 1
    ensures forall i :: 0 <= i < |s| ==> '0' <= s[i] <= '9'
    decreases n
  {
    if n < 10 then [Digit(n)] else Decimal(n / 10) + [Digit(n % 10)]
  }

  /** A number below 100 in two digits, zero-padded (`%m`, `%d`, `%H`, `%M`, `%S`). */
  function Pad2(n: int): (s: string)
    requires 0 <= n <= 99
    ensures |s| == 2
  {
    [Digit(n / 10), Digit(n % 10)]
  }

  /** The value of a decimal digit character. */
  function DigitValue(c: char): Option<nat> {
    if '0' <= c <= '9' then Some(c as int - '0' as int) else None
  }

  /** The value of a nonempty string of decimal digits, or `None`. */
  function DecimalValue(s: string): Option<nat>
    decreases |s|
  {
    if |s| == 0 then None
    else match DigitValue(s[|s| - 1])
      case None => None
      case Some(d) =>
        if |s| == 1 then Some(d)
        else match DecimalValue(s[..|s| - 1])
          case None => None
          case Some(v) => Some(10 * v + d)
  }

  /** `str(n)` for an integer. */
  function IntText(n: int): (s: string)
    ensures n >= 0 ==> s == Decimal(n)
    ensures n < 0 ==> s == "-" + Decimal(-n)
  {
    if n >= 0 then Decimal(n) else "-" + Decimal(-n)
  }

  /** The first `n` elements, or all of them when there are fewer (`xs[:n]`). */
  function Take<T>(xs: seq<T>, n: nat): (r: seq<T>)
    ensures |r| <= n && |r| <= |xs|
    ensures r == xs[..|r|]
    ensures |xs| <= n ==> r == xs
  {
    if |xs| <= n then xs else xs[..n]
  }

  /** The lists one after the other, as repeated `list.extend` builds them. */
  function Flatten<T>(xss: seq<seq<T>>): seq<T> {
    if |xss| == 0 then [] else xss[0] + Flatten(xss[1..])
  }

  // ---------------------------------------------------------------------
  // Case mapping

  /** A blank string is exactly one made only of whitespace. */
  lemma BlankIffAllSpace(s: string)
    ensures IsBlank(s) <==> forall i :: 0 <= i < |s| ==> IsSpace(s[i])
  {
    var a := LeadingSpace(s);
    var t := s[a..];
    if a < |s| {
      assert t[0] == s[a];
      assert !IsSpace(t[0]);
    }
  }

  /** Lower-casing twice is lower-casing once. */
  lemma LowerIdempotent(s: string)
    ensures Lower(Lower(s)) == Lower(s)
  {
  }

  /** Lower-casing maps concatenation to concatenation. */
  lemma LowerAppend(a: string, b: string)
    ensures Lower(a + b) == Lower(a) + Lower(b)
  {
  }

  /** Lower-casing commutes with taking a slice. */
  lemma LowerSlice(s: string, i: int, j: int)
    requires 0 <= i <= j <= |s|
    ensures Lower(s)[i..j] == Lower(s[i..j])
  {
  }

  /** Upper-casing forgets an earlier lower-casing. */
  lemma UpperLower(s: string)
    ensures Upper(Lower(s)) == Upper(s)
  {
  }

  /** Lower-casing does not move the leading whitespace. */
  lemma {:induction false} LeadingSpaceLower(s: string)
    ensures LeadingSpace(Lower(s)) == LeadingSpace(s)
    decreases |s|
  {
    if |s| > 0 {
      assert Lower(s)[1..] == Lower(s[1..]);
      LeadingSpaceLower(s[1..]);
    }
  }

  /** Lower-casing does not move the trailing whitespace. */
  lemma {:induction false} TrailingSpaceLower(s: string)
    ensures TrailingSpace(Lower(s)) == TrailingSpace(s)
    decreases |s|
  {
    if |s| > 0 {
      assert Lower(s)[..|s| - 1] == Lower(s[..|s| - 1]);
      TrailingSpaceLower(s[..|s| - 1]);
    }
  }

  /** A leading whitespace character is removed by `strip()`. */
  lemma StripSkipsLeadingSpace(c: char, s: string)
    requires IsSpace(c)
    ensures Strip([c] + s) == Strip(s)
  {
    var t := [c] + s;
    assert t[1..] == s;
    assert LeadingSpace(t) == 1 + LeadingSpace(s);
    assert t[LeadingSpace(t)..] == s[LeadingSpace(s)..];
  }

  /** Stripping and lower-casing commute. */
  lemma LowerStrip(s: string)
    ensures Strip(Lower(s)) == Lower(Strip(s))
  {
    var a := LeadingSpace(s);
    LeadingSpaceLower(s);
    assert Lower(s)[a..] == Lower(s[a..]);
    TrailingSpaceLower(s[a..]);
  }

  // ---------------------------------------------------------------------
  // The substring test

  /** An occurrence found at a known index makes `Contains` true. */
  lemma ContainsAt(s: string, w: string, i: int)
    requires OccursAt(s, w, i)
    ensures Contains(s, w)
  {
  }

  /** A string never contains a longer one. */
  lemma LongerNotContained(s: string, w: string)
    requires |s| < |w|
    ensures !Contains(s, w)
  {
  }

  /** A string of the same length is contained only when it is equal. */
  lemma SameLengthContained(s: string, w: string)
    requires |s| == |w|
    ensures Contains(s, w) <==> s == w
  {
    if s == w {
      assert OccursAt(s, w, 0);
    }
  }

  /** If some character of `w` never occurs in `s`, then `w` does not occur in `s`. */
  lemma NotContainsByChar(s: string, w: string, c: char)
    requires c in w && c !in s
    ensures !Contains(s, w)
  {
    var j :| 0 <= j < |w| && w[j] == c;
    forall i | 0 <= i <= |s| - |w|
      ensures !OccursAt(s, w, i)
    {
      assert s[i..i + |w|][j] == s[i + j] != c;
    }
  }

  /** If two adjacent characters of `w` never appear side by side in `s`,
      then `w` does not occur in `s`. */
  lemma NotContainsByPair(s: string, w: string, j: int)
    requires 0 <= j < |w| - 1
    requires forall i :: 0 <= i < |s| - 1 ==> s[i] != w[j] || s[i + 1] != w[j + 1]
    ensures !Contains(s, w)
  {
    forall i | 0 <= i <= |s| - |w|
      ensures !OccursAt(s, w, i)
    {
      assert s[i..i + |w|][j] == s[i + j];
      assert s[i..i + |w|][j + 1] == s[i + j + 1];
    }
  }

  /** A string occurs in any text that has it between two other pieces. */
  lemma ContainsInfix(a: string, w: string, b: string)
    ensures Contains(a + w + b, w)
  {
    assert OccursAt(a + w + b, w, |a|);
  }

  /** A lower-case word written inside a text is found in its lower-cased
      form. */
  lemma LowerKeepsInfix(a: string, w: string, b: string)
    requires Lower(w) == w
    ensures Contains(Lower(a + w + b), w)
  {
    LowerAppend(a + w, b);
    LowerAppend(a, w);
    ContainsInfix(Lower(a), w, Lower(b));
  }

  /** An occurrence inside a slice is an occurrence in the whole text,
      shifted by the slice's start. */
  lemma OccursInSlice(s: string, i: int, j: int, w: string, k: int)
    requires 0 <= i <= j <= |s|
    requires OccursAt(s[i..j], w, k)
    ensures OccursAt(s, w, i + k)
  {
    forall m | 0 <= m < |w|
      ensures s[i + k + m] == w[m]
    {
      assert w[m] == s[i..j][k..k + |w|][m];
    }
  }

  /** Whatever occurs in a slice of `s` occurs in `s`. */
  lemma ContainsFromSlice(s: string, i: int, j: int, w: string)
    requires 0 <= i <= j <= |s|
    requires Contains(s[i..j], w)
    ensures Contains(s, w)
  {
    var k :| 0 <= k <= |s[i..j]| - |w| && OccursAt(s[i..j], w, k);
    OccursInSlice(s, i, j, w, k);
  }

  /** Substring containment is transitive. */
  lemma ContainsTransitive(a: string, b: string, c: string)
    requires Contains(a, b) && Contains(b, c)
    ensures Contains(a, c)
  {
    var i :| 0 <= i <= |a| - |b| && OccursAt(a, b, i);
    assert a[i..i + |b|] == b;
    ContainsFromSlice(a, i, i + |b|, c);
  }

  /** Lower-casing keeps occurrences: if `w` is in `s`, `lower(w)` is in `lower(s)`. */
  lemma ContainsLower(s: string, w: string)
    requires Contains(s, w)
    ensures Contains(Lower(s), Lower(w))
  {
    var i :| 0 <= i <= |s| - |w| && OccursAt(s, w, i);
    LowerSlice(s, i, i + |w|);
    assert OccursAt(Lower(s), Lower(w), i);
  }

  /** Splitting a text at a separator character that `w` does not contain:
      `w` occurs in the whole text exactly when it occurs on one side. */
  lemma SplitAtSeparator(x: string, c: char, y: string, w: string)
    requires c !in w
    ensures Contains(x + [c] + y, w) <==> Contains(x, w) || Contains(y, w)
  {
    var t := x + [c] + y;
    assert t[..|x|] == x;
    assert t[|x| + 1..] == t[|x| + 1..|t|] == y;
    if Contains(t, w) {
      var i :| 0 <= i <= |t| - |w| && OccursAt(t, w, i);
      forall m | i <= m < i + |w|
        ensures t[m] in w
      {
        assert t[m] == w[m - i];
      }
      assert t[|x|] == c;
      assert i + |w| <= |x| || i > |x|;
      if i + |w| <= |x| {
        assert OccursAt(t[..|x|], w, i);
      } else {
        assert t[|x| + 1..][i - |x| - 1..i - |x| - 1 + |w|] == t[i..i + |w|];
        assert OccursAt(t[|x| + 1..], w, i - |x| - 1);
      }
    }
    if Contains(x, w) {
      var i :| 0 <= i <= |x| - |w| && OccursAt(x, w, i);
      OccursInSlice(t, 0, |x|, w, i);
    }
    if Contains(y, w) {
      var i :| 0 <= i <= |y| - |w| && OccursAt(y, w, i);
      OccursInSlice(t, |x| + 1, |t|, w, i);
    }
  }

  /** An occurrence of a non-empty string that starts with a non-space
      character lies after the leading whitespace. */
  lemma OccursAfterLeadingSpace(s: string, w: string, i: int)
    requires |w| > 0 && !IsSpace(w[0])
    requires OccursAt(s, w, i)
    ensures i >= LeadingSpace(s)
  {
    assert s[i] == s[i..i + |w|][0];
  }

  /** Removing surrounding whitespace never changes whether a non-empty,
      whitespace-free string occurs in the text. */
  lemma StripKeepsContains(s: string, w: string)
    requires |w| > 0 && NoSpace(w)
    ensures Contains(Strip(s), w) <==> Contains(s, w)
  {
    var a := LeadingSpace(s);
    var t := s[a..];
    var b := TrailingSpace(t);
    assert Strip(s) == s[a..|s| - b];
    if Contains(Strip(s), w) {
      ContainsFromSlice(s, a, |s| - b, w);
    }
    if Contains(s, w) {
      var i :| 0 <= i <= |s| - |w| && OccursAt(s, w, i);
      OccursInStrip(s, w, i);
    }
  }

  /** An occurrence in the text is an occurrence in the stripped text,
      shifted by the leading whitespace. */
  lemma OccursInStrip(s: string, w: string, i: int)
    requires |w| > 0 && NoSpace(w)
    requires OccursAt(s, w, i)
    ensures Contains(Strip(s), w)
  {
    var a := LeadingSpace(s);
    var t := s[a..];
    var b := TrailingSpace(t);
    assert Strip(s) == t[..|t| - b];
    OccursAfterLeadingSpace(s, w, i);
    assert OccursAt(t, w, i - a) by {
      assert t[i - a..i - a + |w|] == s[i..i + |w|];
    }
    OccursBeforeTrailingSpace(t, w, i - a);
    assert t[..|t| - b][i - a..i - a + |w|] == t[i - a..i - a + |w|];
    assert OccursAt(Strip(s), w, i - a);
  }

  /** An occurrence of a non-empty string that ends with a non-space
      character lies before the trailing whitespace. */
  lemma OccursBeforeTrailingSpace(t: string, w: string, i: int)
    requires |w| > 0 && !IsSpace(w[|w| - 1])
    requires OccursAt(t, w, i)
    ensures i + |w| <= |t| - TrailingSpace(t)
  {
    assert t[i + |w| - 1] == t[i..i + |w|][|w| - 1];
  }

  /** Reading the digits `Decimal` prints gives back the number. */
  lemma {:induction false} DecimalRoundTrip(n: nat)
    ensures DecimalValue(Decimal(n)) == Some(n)
    decreases n
  {
    var s := Decimal(n);
    if n >= 10 {
      assert s[..|s| - 1] == Decimal(n / 10);
      assert s[|s| - 1] == Digit(n % 10);
      DecimalRoundTrip(n / 10);
    }
  }

  /** A two-digit field reads back as its value. */
  lemma Pad2Value(n: int)
    requires 0 <= n <= 99
    ensures DecimalValue(Pad2(n)) == Some(n)
  {
    assert Pad2(n)[..1] == [Digit(n / 10)];
  }

  /** Every part can be found in the joined text. */
  lemma {:induction false} JoinContainsPart(parts: seq<string>, sep: string, i: int)
    requires 0 <= i < |parts|
    ensures Contains(Join(parts, sep), parts[i])
    decreases |parts|
  {
    var s := Join(parts, sep);
    if |parts| == 1 {
      assert OccursAt(s, parts[0], 0);
      ContainsAt(s, parts[0], 0);
    } else if i == 0 {
      assert OccursAt(s, parts[0], 0);
      ContainsAt(s, parts[0], 0);
    } else {
      var tail := Join(parts[1..], sep);
      JoinContainsPart(parts[1..], sep, i - 1);
      assert s == parts[0] + sep + tail;
      assert s[|parts[0]| + |sep|..|s|] == tail;
      ContainsFromSlice(s, |parts[0]| + |sep|, |s|, parts[i]);
    }
  }
}
