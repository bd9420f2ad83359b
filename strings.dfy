/** String operations the two setup scripts rely on, with Python's meaning:
    `str.startswith`, `str.endswith`, `str.strip()` (no argument), `str(n)`
    for a non-negative integer and the `03d` zero-padding format. */
module Strings {

  /** `s.startswith(prefix)`: `s` is `prefix` followed by something. */
  predicate StartsWith(s: string, prefix: string): (b: bool)
    ensures b <==> exists t :: s == prefix + t
  {
    if |prefix| <= |s| && s[..|prefix|] == prefix then
      assert s == prefix + s[|prefix|..];
      true
    else
      false
  }

  /** `s.endswith(suffix)`: `s` is something followed by `suffix`. */
  predicate EndsWith(s: string, suffix: string): (b: bool)
    ensures b <==> exists t :: s == t + suffix
  {
    if |suffix| <= |s| && s[|s| - |suffix|..] == suffix then
      assert s == s[..|s| - |suffix|] + suffix;
      true
    else
      false
  }

  /** A prefix of a prefix is a prefix. */
  lemma StartsWithTransitive(s: string, q: string, p: string)
    requires StartsWith(s, q) && StartsWith(q, p)
    ensures StartsWith(s, p)
  {
    assert s[..|p|] == s[..|q|][..|p|];
  }

  // ---------------------------------------------------------------------
  // Whitespace and strip()

  /** The characters for which Python's `str.isspace()` holds, i.e. the
      characters that `str.strip()` without arguments removes. */
  predicate IsSpace(c: char) {
    ('\t' <= c <= '\r')
    || ('\U{1C}' <= c <= ' ')
    || c == '\U{85}' || c == '\U{A0}' || c == '\U{1680}'
    || ('\U{2000}' <= c <= '\U{200A}')
    || c == '\U{2028}' || c == '\U{2029}' || c == '\U{202F}'
    || c == '\U{205F}' || c == '\U{3000}'
  }

  predicate AllSpace(s: string) {
    forall k :: 0 <= k < |s| ==> IsSpace(s[k])
  }

  /** Number of whitespace characters at the start of `s`. */
  function LeadingSpaces(s: string): (n: nat)
    ensures n <= |s|
    ensures AllSpace(s[..n])
    ensures n < |s| ==> !IsSpace(s[n])
  {
    if s != [] && IsSpace(s[0]) then
      var m := LeadingSpaces(s[1..]);
      assert forall k :: 1 <= k < 1 + m ==> s[k] == s[1..][..m][k - 1];
      1 + m
    else
      0
  }

  /** Index at which the run of whitespace ending `s` starts. */
  function TrailingStart(s: string): (n: nat)
    ensures n <= |s|
    ensures AllSpace(s[n..])
    ensures 0 < n ==> !IsSpace(s[n - 1])
  {
    if s != [] && IsSpace(s[|s| - 1]) then
      var m := TrailingStart(s[..|s| - 1]);
      assert forall k :: m <= k < |s| - 1 ==> s[k] == s[..|s| - 1][m..][k - m];
      m
    else
      |s|
  }

  lemma SpaceInPrefix(s: string, n: nat, k: int)
    ensures 0 <= k < n <= |s| && AllSpace(s[..n]) ==> IsSpace(s[k])
  {
    if 0 <= k < n <= |s| {
      assert s[..n][k] == s[k];
    }
  }

  lemma SpaceInSuffix(s: string, n: nat, k: int)
    ensures n <= k < |s| && AllSpace(s[n..]) ==> IsSpace(s[k])
  {
    if n <= k < |s| {
      assert s[n..][k - n] == s[k];
    }
  }

  /** The only index with the properties LeadingSpaces promises is LeadingSpaces. */
  lemma LeadingSpacesUnique(s: string, n: nat)
    requires n <= |s| && AllSpace(s[..n]) && (n < |s| ==> !IsSpace(s[n]))
    ensures LeadingSpaces(s) == n
  {
    var m := LeadingSpaces(s);
    SpaceInPrefix(s, n, m);
    SpaceInPrefix(s, m, n);
  }

  /** The only index with the properties TrailingStart promises is TrailingStart. */
  lemma TrailingStartUnique(s: string, n: nat)
    requires n <= |s| && AllSpace(s[n..]) && (0 < n ==> !IsSpace(s[n - 1]))
    ensures TrailingStart(s) == n
  {
    var m := TrailingStart(s);
    SpaceInSuffix(s, m, n as int - 1);
    SpaceInSuffix(s, n, m as int - 1);
  }

  /** Python's `s.strip()`: `s` without its leading and trailing whitespace. */
  function Strip(s: string): (r: string)
    ensures |r| <= |s|
    ensures r == [] || (!IsSpace(r[0]) && !IsSpace(r[|r| - 1]))
    ensures LeadingSpaces(s) + |r| <= |s|
    ensures r == s[LeadingSpaces(s)..LeadingSpaces(s) + |r|]
    ensures AllSpace(s[LeadingSpaces(s) + |r|..])
  {
    var i := LeadingSpaces(s);
    var t := s[i..];
    var j := TrailingStart(t);
    assert t[..j] == s[i..i + j];
    assert t[j..] == s[i + j..];
    assert j < |t| ==> t[j] == s[i + j];
    t[..j]
  }

  /** Surrounding a string that neither starts nor ends with whitespace by
      whitespace on both sides is undone by strip(). */
  lemma {:induction false} StripPadded(lead: string, core: string, trail: string)
    requires AllSpace(lead) && AllSpace(trail)
    requires core != [] && !IsSpace(core[0]) && !IsSpace(core[|core| - 1])
    ensures Strip(lead + core + trail) == core
  {
    var s := lead + core + trail;
    assert s[..|lead|] == lead;
    assert s[|lead|] == core[0];
    LeadingSpacesUnique(s, |lead|);
    var t := s[|lead|..];
    assert t == core + trail;
    assert t[|core|..] == trail;
    assert t[|core| - 1] == core[|core| - 1];
    TrailingStartUnique(t, |core|);
    assert t[..|core|] == core;
  }

  /** What strip() keeps is framed in `s` by whitespace on both sides. */
  lemma StripFramed(s: string)
    ensures var i := LeadingSpaces(s); var j := i + |Strip(s)|;
      j <= |s| && AllSpace(s[..i]) && s[i..j] == Strip(s) && AllSpace(s[j..])
  {
  }

  // ---------------------------------------------------------------------
  // Decimal numerals

  predicate IsDigit(c: char) {
    '0' <= c <= '9'
  }

  predicate AllDigits(s: string) {
    forall k :: 0 <= k < |s| ==> IsDigit(s[k])
  }

  function Digit(d: nat): (c: char)
    requires d < 10
    ensures IsDigit(c)
  {
    (48 + d) as char
  }

  function DigitValue(c: char): (d: nat)
    requires IsDigit(c)
    ensures d < 10 && Digit(d) == c
  {
    c as int - 48
  }

  /** Python's `str(n)` for a non-negative integer: the decimal numeral of
      `n`, with no leading zeros. */
  function Decimal(n: nat): (s: string)
    ensures 1 <= |s|
    ensures AllDigits(s)
    ensures |s| > 1 ==> s[0] != '0'
    decreases n
  {
    if n < 10 then [Digit(n)] else Decimal(n / 10) + [Digit(n % 10)]
  }

  /** The value of a string of decimal digits (leading zeros allowed). */
  function ParseDecimal(s: string): nat
    requires AllDigits(s)
    decreases |s|
  {
    if s == [] then 0 else ParseDecimal(s[..|s| - 1]) * 10 + DigitValue(s[|s| - 1])
  }

  /** Reading back the numeral of `n` gives `n`. */
  lemma {:induction false} DecimalRoundTrip(n: nat)
    ensures ParseDecimal(Decimal(n)) == n
    decreases n
  {
    if n >= 10 {
      var s := Decimal(n);
      assert s[..|s| - 1] == Decimal(n / 10);
      DecimalRoundTrip(n / 10);
    }
  }

  /** The numeral of a number below 1000 has at most three digits. */
  lemma DecimalBelowThousand(n: nat)
    requires n < 1000
    ensures |Decimal(n)| <= 3
  {
    if n >= 10 {
      assert |Decimal(n)| == |Decimal(n / 10)| + 1;
      if n / 10 >= 10 {
        assert |Decimal(n / 10)| == |Decimal(n / 100)| + 1;
      }
    }
  }

  function Zeros(k: nat): (z: string)
    ensures |z| == k && AllDigits(z)
  {
    seq(k, _ => '0')
  }

  lemma {:induction false} ParseZeros(k: nat)
    ensures ParseDecimal(Zeros(k)) == 0
  {
    if k > 0 {
      assert Zeros(k)[..k - 1] == Zeros(k - 1);
      ParseZeros(k - 1);
    }
  }

  /** Leading zeros do not change the value of a numeral. */
  lemma {:induction false} ParseIgnoresLeadingZeros(k: nat, s: string)
    requires AllDigits(s)
    ensures AllDigits(Zeros(k) + s)
    ensures ParseDecimal(Zeros(k) + s) == ParseDecimal(s)
    decreases |s|
  {
    var u := Zeros(k) + s;
    if s == [] {
      assert u == Zeros(k);
      ParseZeros(k);
    } else {
      assert u[..|u| - 1] == Zeros(k) + s[..|s| - 1];
      ParseIgnoresLeadingZeros(k, s[..|s| - 1]);
    }
  }

  /** Python's `0<width>d` format applied to a numeral: `s` left-padded with
      '0' up to `width` characters, unchanged when already that long. */
  function ZeroPad(s: string, width: nat): (r: string)
    requires AllDigits(s)
    ensures AllDigits(r)
    ensures |r| == (if |s| < width then width else |s|)
    ensures EndsWith(r, s)
    ensures ParseDecimal(r) == ParseDecimal(s)
  {
    if |s| >= width then
      s
    else
      ParseIgnoresLeadingZeros(width - |s|, s);
      var r := Zeros(width - |s|) + s;
      assert r[|r| - |s|..] == s;
      r
  }
}
