/** The e-mail pattern of `validate_user_input`:
    one or more of `[A-Za-z0-9._%+-]`, an `@`, one or more of `[A-Za-z0-9.-]`,
    a `.`, and two or more ASCII letters, anchored at the start by `re.match`
    and at the end by `$`, which also accepts a single trailing newline.
    `EmailShape` states the pattern; `CheckEmail` decides it by locating the
    first `@` and the last `.`. */
module EmailPattern {

  predicate AsciiLetter(c: char) {
    'a' <= c <= 'z' || 'A' <= c <= 'Z'
  }

  predicate AsciiDigit(c: char) {
    '0' <= c <= '9'
  }

  /** `[a-zA-Z0-9._%+-]`. */
  predicate LocalChar(c: char) {
    AsciiLetter(c) || AsciiDigit(c) || c == '.' || c == '_' || c == '%' || c == '+' || c == '-'
  }

  /** `[a-zA-Z0-9.-]`. */
  predicate HostChar(c: char) {
    AsciiLetter(c) || AsciiDigit(c) || c == '.' || c == '-'
  }

  predicate AllLocal(s: string) { forall k :: 0 <= k < |s| ==> LocalChar(s[k]) }
  predicate AllHost(s: string) { forall k :: 0 <= k < |s| ==> HostChar(s[k]) }
  predicate AllLetters(s: string) { forall k :: 0 <= k < |s| ==> AsciiLetter(s[k]) }

  /** `s` is local part `s[..at]`, `@`, host `s[at+1..dot]`, `.`, and the
      top-level label `s[dot+1..]`. */
  predicate ShapeAt(s: string, at: int, dot: int) {
    && 0 < at && at + 1 < dot && dot + 2 < |s|
    && s[at] == '@' && s[dot] == '.'
    && AllLocal(s[..at]) && AllHost(s[at + 1..dot]) && AllLetters(s[dot + 1..])
  }

  /** The whole of `s` matches the pattern. */
  ghost predicate EmailShape(s: string) {
    exists at, dot :: ShapeAt(s, at, dot)
  }

  /** What `re.match` with the pattern accepts: a full match, possibly
      followed by one newline. */
  ghost predicate EmailMatch(s: string) {
    EmailShape(s) || (|s| > 0 && s[|s| - 1] == '\n' && EmailShape(s[..|s| - 1]))
  }

  /** Index of the first `c` in `s`, or -1. */
  function IndexOf(s: string, c: char): (r: int)
    ensures -1 <= r < |s|
    ensures r >= 0 ==> s[r] == c && forall k :: 0 <= k < r ==> s[k] != c
    ensures r < 0 ==> forall k :: 0 <= k < |s| ==> s[k] != c
  {
    if |s| == 0 then -1
    else if s[0] == c then 0
    else
      var k := IndexOf(s[1..], c);
      if k < 0 then -1 else k + 1
  }

  /** Index of the last `c` in `s`, or -1. */
  function LastIndexOf(s: string, c: char): (r: int)
    ensures -1 <= r < |s|
    ensures r >= 0 ==> s[r] == c && forall k :: r < k < |s| ==> s[k] != c
    ensures r < 0 ==> forall k :: 0 <= k < |s| ==> s[k] != c
  {
    if |s| == 0 then -1
    else if s[|s| - 1] == c then |s| - 1
    else LastIndexOf(s[..|s| - 1], c)
  }

  /** Decide the pattern: the `@` must be the first one (the local part has
      none) and the `.` the last one (the letters after it have none). */
  function CheckEmail(s: string): (ok: bool)
    ensures ok <==> EmailShape(s)
  {
    FirstAtLastDot(s);
    ShapeAt(s, IndexOf(s, '@'), LastIndexOf(s, '.'))
  }

  /** The pattern matches exactly when it matches at the first `@` and the last `.`. */
  lemma FirstAtLastDot(s: string)
    ensures ShapeAt(s, IndexOf(s, '@'), LastIndexOf(s, '.')) <==> EmailShape(s)
  {
    if EmailShape(s) {
      var a, d :| ShapeAt(s, a, d);
      ShapeFixesSplit(s, a, d);
    }
  }

  /** A split that fits the pattern is the one at the first `@` and the last `.`. */
  lemma ShapeFixesSplit(s: string, at: int, dot: int)
    requires ShapeAt(s, at, dot)
    ensures IndexOf(s, '@') == at && LastIndexOf(s, '.') == dot
  {
    forall k | 0 <= k < at
      ensures s[k] != '@'
    {
      assert s[..at][k] == s[k];
    }
    forall k | dot < k < |s|
      ensures s[k] != '.'
    {
      assert s[dot + 1..][k - dot - 1] == s[k];
    }
  }

  /** `re.match(pattern, s)` is truthy. */
  function Accepts(s: string): (ok: bool)
    ensures ok <==> EmailMatch(s)
  {
    CheckEmail(s) || (|s| > 0 && s[|s| - 1] == '\n' && CheckEmail(s[..|s| - 1]))
  }

  // ---------------------------------------------------------------------
  // Examples

  lemma PlainAddressAccepted()
    ensures Accepts("user@example.com")
  {
    assert ShapeAt("user@example.com", 4, 12);
  }

  /** A text without `@` is rejected. */
  lemma NoAtRejected()
    ensures !Accepts("notanemail")
  {
    var s := "notanemail";
    assert '@' !in s && s[9] != '\n';
    assert IndexOf(s, '@') < 0;
  }

  /** The host part may contain consecutive dots. */
  lemma DoubleDotAccepted()
    ensures Accepts("a@b..cc")
  {
    assert ShapeAt("a@b..cc", 1, 4);
  }

  /** A single trailing newline is let through by `$`. */
  lemma TrailingNewlineAccepted()
    ensures Accepts("user@example.com\n")
  {
    assert "user@example.com\n"[..16] == "user@example.com";
    assert ShapeAt("user@example.com", 4, 12);
  }

  /** A host without a dot is rejected. */
  lemma DotlessHostRejected()
    ensures !Accepts("user@localhost")
  {
    assert LastIndexOf("user@localhost", '.') < 0;
    assert "user@localhost"[13] != '\n';
  }
}
