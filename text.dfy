/**
 * String helpers the core relies on: case folding (Python's `str.lower`
 * and the database's case-insensitive match), prefixes, whitespace
 * trimming (Python's `str.strip`), the ordering the database sorts names
 * by, and decimal rendering of counts and ids.
 */
module Text {

  /**
   * Lower-case one character. Folds the Latin capitals A-Z and the
   * Cyrillic capitals (U+0400-U+042F), which covers the ingredient names
   * and user names this system stores; other scripts are left as they are.
   */
  function LowerChar(c: char): char {
    if 'A' <= c <= 'Z' then (c as int + 32) as char
    else if 'А' <= c <= 'Я' then (c as int + 32) as char
    else if 'Ѐ' <= c <= 'Џ' then (c as int + 80) as char
    else c
  }

  function Lower(s: string): string {
    seq(|s|, i requires 0 <= i < |s| => LowerChar(s[i]))
  }

  predicate StartsWith(s: string, prefix: string) {
    |prefix| <= |s| && s[..|prefix|] == prefix
  }

  /** Case-insensitive prefix test, as a database `istartswith` lookup. */
  predicate StartsWithIgnoringCase(s: string, prefix: string) {
    StartsWith(Lower(s), Lower(prefix))
  }

  // ---------------------------------------------------------------------
  // Trimming, as Python's `str.strip()` with no argument.
  // ---------------------------------------------------------------------

  /** The characters `str.isspace()` accepts. */
  predicate IsSpace(c: char) {
    ('\t' <= c <= '\r') || ('\U{1C}' <= c <= ' ') || c == '\U{85}' || c == '\U{A0}' || c == '\U{1680}'
    || ('\U{2000}' <= c <= '\U{200A}') || c == '\U{2028}' || c == '\U{2029}' || c == '\U{202F}'
    || c == '\U{205F}' || c == '\U{3000}'
  }

  /** The first index at or after `i` that holds a non-space, or `|s|`. */
  function SkipSpaces(s: string, i: nat): (r: nat)
    requires i <= |s|
    ensures i <= r <= |s|
    ensures forall k :: i <= k < r ==> IsSpace(s[k])
    ensures r < |s| ==> !IsSpace(s[r])
    decreases |s| - i
  {
    if i < |s| && IsSpace(s[i]) then SkipSpaces(s, i + 1) else i
  }

  /** The least index `r <= j` such that `s[r..j]` is all whitespace. */
  function SkipSpacesBack(s: string, j: nat): (r: nat)
    requires j <= |s|
    ensures r <= j
    ensures forall k :: r <= k < j ==> IsSpace(s[k])
    ensures r > 0 ==> !IsSpace(s[r - 1])
  {
    if j > 0 && IsSpace(s[j - 1]) then SkipSpacesBack(s, j - 1) else j
  }

  /** `t` is `s[a..]` up to trailing whitespace, with only whitespace before `a`. */
  predicate TrimmedAt(s: string, t: string, a: int) {
    0 <= a && a + |t| <= |s| && t == s[a..a + |t|]
    && (forall i :: 0 <= i < a ==> IsSpace(s[i]))
    && (forall i :: a + |t| <= i < |s| ==> IsSpace(s[i]))
  }

  /** `s.strip()`: the part of `s` between its leading and its trailing whitespace. */
  function Strip(s: string): (r: string)
    ensures r == [] <==> forall i :: 0 <= i < |s| ==> IsSpace(s[i])
    ensures r != [] ==> !IsSpace(r[0]) && !IsSpace(r[|r| - 1])
    ensures TrimmedAt(s, r, SkipSpaces(s, 0))
  {
    var a := SkipSpaces(s, 0);
    if a == |s| then []
    else
      var b := SkipSpacesBack(s, |s|);
      assert a < b;
      s[a..b]
  }

  /** Stripping twice is stripping once: a stored value validates to itself. */
  lemma StripIdempotent(s: string)
    ensures Strip(Strip(s)) == Strip(s)
  {
    var r := Strip(s);
    if r != [] {
      assert SkipSpaces(r, 0) == 0;
      assert SkipSpacesBack(r, |r|) == |r|;
      assert r[0..|r|] == r;
    }
  }

  /** `t` is `s` with whitespace cut from each end, and starts and ends with a non-space. */
  predicate Trimmed(s: string, t: string) {
    t != [] && (exists a :: 0 <= a <= |s| && TrimmedAt(s, t, a)) && !IsSpace(t[0]) && !IsSpace(t[|t| - 1])
  }

  /** A value with a non-space character strips to its trimmed middle, which strips to itself. */
  lemma StripTrims(s: string)
    requires exists i :: 0 <= i < |s| && !IsSpace(s[i])
    ensures Trimmed(s, Strip(s))
    ensures Strip(Strip(s)) == Strip(s)
  {
    StripIdempotent(s);
    assert TrimmedAt(s, Strip(s), SkipSpaces(s, 0));
  }

  // ---------------------------------------------------------------------
  // Ordering by code point, the order `order_by('name')` is modelled with.
  // ---------------------------------------------------------------------

  /** `a` sorts before or equal to `b`, comparing characters by code point. */
  predicate LexLe(a: string, b: string)
    decreases |a|
  {
    |a| == 0 || (|b| > 0 && (a[0] < b[0] || (a[0] == b[0] && LexLe(a[1..], b[1..]))))
  }

  lemma {:induction false} LexLeReflexive(a: string)
    ensures LexLe(a, a)
    decreases |a|
  {
    if |a| > 0 { LexLeReflexive(a[1..]); }
  }

  lemma {:induction false} LexLeTotal(a: string, b: string)
    ensures LexLe(a, b) || LexLe(b, a)
    decreases |a|
  {
    if |a| > 0 && |b| > 0 && a[0] == b[0] { LexLeTotal(a[1..], b[1..]); }
  }

  lemma {:induction false} LexLeAntisymmetric(a: string, b: string)
    requires LexLe(a, b) && LexLe(b, a)
    ensures a == b
    decreases |a|
  {
    if |a| > 0 {
      LexLeAntisymmetric(a[1..], b[1..]);
      assert a == [a[0]] + a[1..] && b == [b[0]] + b[1..];
    }
  }

  lemma {:induction false} LexLeTransitive(a: string, b: string, c: string)
    requires LexLe(a, b) && LexLe(b, c)
    ensures LexLe(a, c)
    decreases |a|
  {
    if |a| > 0 && a[0] == b[0] && b[0] == c[0] {
      LexLeTransitive(a[1..], b[1..], c[1..]);
    }
  }

  // ---------------------------------------------------------------------
  // Decimal rendering of non-negative integers (Python's `f'{n}'`).
  // ---------------------------------------------------------------------

  predicate IsDigit(c: char) { '0' <= c <= '9' }

  function DigitChar(d: nat): (c: char)
    requires d < 10
  {
    (('0' as int) + d) as char
  }

  function NatToString(n: nat): string
    decreases n
  {
    if n < 10 then [DigitChar(n)] else NatToString(n / 10) + [DigitChar(n % 10)]
  }

  /** Python's `str(n)` for any integer: a minus sign before the digits of a negative value. */
  function IntToString(n: int): string {
    if n < 0 then "-" + NatToString(-n) else NatToString(n)
  }

  /** The number a string of decimal digits denotes: the inverse of NatToString. */
  function DecimalValue(s: string): nat
    requires forall i :: 0 <= i < |s| ==> IsDigit(s[i])
    decreases |s|
  {
    if |s| == 0 then 0
    else DecimalValue(s[..|s| - 1]) * 10 + DigitValue(s[|s| - 1])
  }

  function DigitValue(c: char): nat
    requires IsDigit(c)
  {
    c as int - '0' as int
  }

  /** Rendering a count and reading it back gives the count: digits only, no sign, none lost. */
  lemma {:induction false} DecimalRoundTrip(n: nat)
    ensures |NatToString(n)| > 0
    ensures forall i :: 0 <= i < |NatToString(n)| ==> IsDigit(NatToString(n)[i])
    ensures DecimalValue(NatToString(n)) == n
    decreases n
  {
    if n >= 10 {
      DecimalRoundTrip(n / 10);
      var s := NatToString(n);
      assert s[..|s| - 1] == NatToString(n / 10);
    }
  }
}
