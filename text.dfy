/** The ECMAScript string operations the components rely on, over strings as
    sequences of characters: `\s` and `trim`, `startsWith`, the relational
    operators on strings, and the decimal rendering of a number in a template
    literal. */
module Text {

  /** The characters `\s` matches in an ECMAScript regular expression. They are
      also exactly the characters `String.prototype.trim` strips (white space
      and line terminators). */
  predicate IsSpace(c: char) {
    c == '\t' || c == '\n' || c == '\U{000B}' || c == '\U{000C}' || c == '\r' || c == ' '
    || c == '\U{00A0}' || c == '\U{1680}' || ('\U{2000}' <= c <= '\U{200A}')
    || c == '\U{2028}' || c == '\U{2029}' || c == '\U{202F}' || c == '\U{205F}'
    || c == '\U{3000}' || c == '\U{FEFF}'
  }

  /** `\d` (and `[0-9]`) without the `u` flag: the ASCII digits only. */
  predicate IsDigit(c: char) {
    '0' <= c <= '9'
  }

  predicate NoSpaceAtEnds(s: string) {
    s == [] || (!IsSpace(s[0]) && !IsSpace(s[|s| - 1]))
  }

  predicate AllSpace(s: string) {
    forall i :: 0 <= i < |s| ==> IsSpace(s[i])
  }

  /** `trimStart`: drops the longest all-white-space prefix (see
      `TrimStartSpec`). */
  function TrimStart(s: string): string {
    if s == [] then []
    else if IsSpace(s[0]) then TrimStart(s[1..])
    else s
  }

  /** `trimEnd`: drops the longest all-white-space suffix (see `TrimEndSpec`). */
  function TrimEnd(s: string): string {
    if s == [] then []
    else if IsSpace(s[|s| - 1]) then TrimEnd(s[..|s| - 1])
    else s
  }

  /** `trim` (see `TrimSpec`). */
  function Trim(s: string): string {
    TrimEnd(TrimStart(s))
  }

  /** What `trimStart` leaves is a suffix of its input, what it drops is all
      white space, and what it leaves does not start with white space. */
  lemma {:induction false} TrimStartSpec(s: string)
    ensures var r := TrimStart(s);
      && |r| <= |s| && r == s[|s| - |r|..]
      && AllSpace(s[..|s| - |r|])
      && (r == [] || !IsSpace(r[0]))
  {
    if s != [] && IsSpace(s[0]) {
      TrimStartSpec(s[1..]);
      var r := TrimStart(s);
      assert s[..|s| - |r|] == [s[0]] + s[1..][..|s| - 1 - |r|];
    }
  }

  /** The mirror image for `trimEnd`. */
  lemma {:induction false} TrimEndSpec(s: string)
    ensures var r := TrimEnd(s);
      && |r| <= |s| && r == s[..|r|]
      && AllSpace(s[|r|..])
      && (r == [] || !IsSpace(r[|r| - 1]))
  {
    if s != [] && IsSpace(s[|s| - 1]) {
      var p := s[..|s| - 1];
      TrimEndSpec(p);
      var r := TrimEnd(s);
      assert s[|r|..] == p[|r|..] + [s[|s| - 1]];
    }
  }

  /** `trim` leaves no white space at either end, never lengthens, and gives
      the empty string exactly for an all-white-space input. */
  lemma TrimSpec(s: string)
    ensures NoSpaceAtEnds(Trim(s))
    ensures |Trim(s)| <= |s|
    ensures Trim(s) == [] <==> AllSpace(s)
  {
    var t := TrimStart(s);
    var r := TrimEnd(t);
    TrimStartSpec(s);
    TrimEndSpec(t);
    var k := |s| - |t|;
    if r == [] {
      assert s[..k] == s;
    } else {
      assert r[0] == t[0];
      assert s[k] == t[0];
    }
  }

  /** Every character of a trimmed string comes from the input. */
  lemma TrimChars(s: string, i: int)
    requires 0 <= i < |Trim(s)|
    ensures |Trim(s)| <= |TrimStart(s)| <= |s| && Trim(s)[i] == s[|s| - |TrimStart(s)| + i]
  {
    var t := TrimStart(s);
    var r := TrimEnd(t);
    TrimStartSpec(s);
    TrimEndSpec(t);
    var k := |s| - |t|;
    assert r[i] == t[i] == s[k + i];
  }

  lemma TrimStartOfUnpadded(s: string)
    requires s == [] || !IsSpace(s[0])
    ensures TrimStart(s) == s
  {
  }

  lemma TrimEndOfUnpadded(s: string)
    requires s == [] || !IsSpace(s[|s| - 1])
    ensures TrimEnd(s) == s
  {
  }

  /** `trim` leaves a string without edge white space alone ... */
  lemma TrimUnpadded(s: string)
    requires NoSpaceAtEnds(s)
    ensures Trim(s) == s
  {
    TrimStartOfUnpadded(s);
    TrimEndOfUnpadded(s);
  }

  /** ... and so it is idempotent. */
  lemma TrimIdempotent(s: string)
    ensures Trim(Trim(s)) == Trim(s)
  {
    TrimSpec(s);
    TrimUnpadded(Trim(s));
  }

  /** Trimming after dropping a leading white-space run is trimming. */
  lemma TrimAfterTrimStart(s: string)
    ensures Trim(TrimStart(s)) == Trim(s)
  {
    TrimStartSpec(s);
    TrimStartOfUnpadded(TrimStart(s));
  }

  /** A leading white-space character makes no difference to `trim`. */
  lemma TrimSkipsSpace(s: string)
    requires s != [] && IsSpace(s[0])
    ensures Trim(s) == Trim(s[1..])
  {
  }

  /** A single leading space in front of an unpadded string is all `trim` removes. */
  lemma SpaceThenUnpadded(s: string)
    requires NoSpaceAtEnds(s)
    ensures Trim([' '] + s) == s
  {
    var p := [' '] + s;
    assert p[1..] == s;
    TrimSkipsSpace(p);
    TrimUnpadded(s);
  }

  /** A string whose first character is not white space trims to a string with
      that same first character. */
  lemma TrimKeepsFirst(s: string)
    requires s != [] && !IsSpace(s[0])
    ensures Trim(s) != [] && Trim(s)[0] == s[0]
  {
    TrimStartOfUnpadded(s);
    TrimEndSpec(s);
    TrimSpec(s);
    assert !AllSpace(s);
  }

  /** `s.startsWith(p)`. */
  predicate StartsWith(s: string, p: string) {
    |p| <= |s| && s[..|p|] == p
  }

  /** `a < b` on strings: code-unit-wise comparison, a proper prefix first. */
  predicate LexLess(a: string, b: string) {
    if a == [] then b != []
    else if b == [] then false
    else if a[0] != b[0] then a[0] < b[0]
    else LexLess(a[1..], b[1..])
  }

  /** A digit character and its value. */
  function DigitChar(d: nat): (c: char)
    requires d < 10
    ensures IsDigit(c) && c as int - '0' as int == d
  {
    ('0' as int + d) as char
  }

  function DigitValue(c: char): (d: nat)
    requires IsDigit(c)
    ensures d < 10 && DigitChar(d) == c
  {
    c as int - '0' as int
  }

  /** `${n}` for a non-negative integer: its decimal digits, no leading zero. */
  function DecimalString(n: nat): (r: string)
    ensures r != [] && forall i :: 0 <= i < |r| ==> IsDigit(r[i])
    ensures |r| > 1 ==> r[0] != '0'
    ensures |r| == 1 <==> n < 10
  {
    if n < 10 then [DigitChar(n)] else DecimalString(n / 10) + [DigitChar(n % 10)]
  }

  /** The value of a string of decimal digits. */
  function DecimalValue(s: string): (v: nat)
    requires forall i :: 0 <= i < |s| ==> IsDigit(s[i])
  {
    if s == [] then 0
    else 10 * DecimalValue(s[..|s| - 1]) + DigitValue(s[|s| - 1])
  }

  /** Reading back the digits `${n}` renders gives `n`. */
  lemma {:induction false} DecimalRoundTrip(n: nat)
    ensures DecimalValue(DecimalString(n)) == n
  {
    if n >= 10 {
      var p := DecimalString(n / 10);
      var r := DecimalString(n);
      assert r[..|r| - 1] == p;
      DecimalRoundTrip(n / 10);
    }
  }

  /** Distinct numbers render to distinct strings. */
  lemma DecimalInjective(m: nat, n: nat)
    requires DecimalString(m) == DecimalString(n)
    ensures m == n
  {
    DecimalRoundTrip(m);
    DecimalRoundTrip(n);
  }
}
