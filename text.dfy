/**
 * The few Python string built-ins the core relies on: `str.strip()`,
 * `str.rstrip(c)`, `sep.join(xs)`, `str(n)` for an integer, `int(s)` for a
 * string, and the truthiness of an optional string (`a or b`).
 */
module Text {
  import opened Wrappers

  /** The characters Python's `str.isspace()` accepts; `str.strip()` with no argument removes them. */
  const SPACE_CHARS: set<char> := {
    '\t', '\n', '\U{0B}', '\U{0C}', '\r', '\U{1C}', '\U{1D}', '\U{1E}', '\U{1F}', ' ', '\U{85}', '\U{A0}',
    '\U{1680}', '\U{2000}', '\U{2001}', '\U{2002}', '\U{2003}', '\U{2004}', '\U{2005}', '\U{2006}',
    '\U{2007}', '\U{2008}', '\U{2009}', '\U{200A}', '\U{2028}', '\U{2029}', '\U{202F}', '\U{205F}', '\U{3000}'}

  predicate IsSpace(c: char) {
    c in SPACE_CHARS
  }

  predicate AllSpace(s: string) {
    forall k | 0 <= k < |s| :: IsSpace(s[k])
  }

  /** `s` without its leading whitespace. */
  function StripLeading(s: string): (r: string)
    ensures |r| <= |s| && r == s[|s| - |r|..]
    ensures r != [] ==> !IsSpace(r[0])
  {
    if s != [] && IsSpace(s[0]) then StripLeading(s[1..]) else s
  }

  /** `s` without its trailing whitespace. */
  function StripTrailing(s: string): (r: string)
    ensures r <= s
    ensures r != [] ==> !IsSpace(r[|r| - 1])
  {
    if s != [] && IsSpace(s[|s| - 1]) then StripTrailing(s[..|s| - 1]) else s
  }

  /** Python's `s.strip()`: `s` without its leading and trailing whitespace. */
  function Strip(s: string): (r: string)
    ensures |r| <= |s|
    ensures r != [] ==> !IsSpace(r[0]) && !IsSpace(r[|r| - 1])
  {
    StripTrailing(StripLeading(s))
  }

  /** What `StripLeading` removes is whitespace. */
  lemma {:induction false} StripLeadingMargin(s: string)
    ensures AllSpace(s[..|s| - |StripLeading(s)|])
  {
    if s != [] && IsSpace(s[0]) {
      StripLeadingMargin(s[1..]);
      var n := |s| - |StripLeading(s)|;
      assert forall k | 1 <= k < n :: s[..n][k] == s[1..][..n - 1][k - 1];
    }
  }

  /** What `StripTrailing` removes is whitespace. */
  lemma {:induction false} StripTrailingMargin(s: string)
    ensures AllSpace(s[|StripTrailing(s)|..])
  {
    if s != [] && IsSpace(s[|s| - 1]) {
      var p := s[..|s| - 1];
      StripTrailingMargin(p);
      assert forall k | |StripTrailing(s)| <= k < |p| :: s[k] == p[k];
    }
  }

  /**
   * `s.strip()` is a slice of `s`, and everything around that slice is
   * whitespace.
   */
  lemma StripMargins(s: string)
    ensures var r := Strip(s);
      exists i | 0 <= i <= |s| - |r| :: s[i..i + |r|] == r && AllSpace(s[..i]) && AllSpace(s[i + |r|..])
  {
    var l := StripLeading(s);
    var r := Strip(s);
    var i := |s| - |l|;
    StripLeadingMargin(s);
    StripTrailingMargin(l);
    assert s[i..] == l;
    assert s[i..i + |r|] == r;
    assert s[i + |r|..] == l[|r|..];
  }

  /** A string strips to the empty string iff it is all whitespace. */
  lemma {:induction false} StripEmptyIffAllSpace(s: string)
    ensures Strip(s) == [] <==> AllSpace(s)
  {
    var l := StripLeading(s);
    StripLeadingMargin(s);
    if l == [] {
      assert s[..|s|] == s;
    } else {
      assert StripTrailing(l) != [] by {
        assert !IsSpace(l[0]);
        StripTrailingKeepsFirst(l);
      }
      assert s[|s| - |l|] == l[0];
    }
  }

  /** Dropping trailing whitespace keeps a non-space first character. */
  lemma {:induction false} StripTrailingKeepsFirst(s: string)
    requires s != [] && !IsSpace(s[0])
    ensures StripTrailing(s) != []
  {
    if IsSpace(s[|s| - 1]) {
      StripTrailingKeepsFirst(s[..|s| - 1]);
    }
  }

  /** A string that neither starts nor ends with whitespace is its own strip. */
  lemma StripTrimmed(s: string)
    requires s == [] || (!IsSpace(s[0]) && !IsSpace(s[|s| - 1]))
    ensures Strip(s) == s
  {
  }

  /** Stripping twice removes nothing more than stripping once. */
  lemma StripIdempotent(s: string)
    ensures Strip(Strip(s)) == Strip(s)
  {
    StripTrimmed(Strip(s));
  }

  /** Python's `s.rstrip(c)` for a one-character argument. */
  function RStripChar(s: string, c: char): (r: string)
    ensures r <= s
    ensures r == [] || r[|r| - 1] != c
    ensures forall k | |r| <= k < |s| :: s[k] == c
  {
    if s != [] && s[|s| - 1] == c then RStripChar(s[..|s| - 1], c) else s
  }

  /** `rstrip` is idempotent: nothing is left to remove the second time. */
  lemma RStripCharIdempotent(s: string, c: char)
    ensures RStripChar(RStripChar(s, c), c) == RStripChar(s, c)
  {
  }

  /** `rstrip(c)` removes exactly the run of `c` appended to a string that does not end in `c`. */
  lemma {:induction false} RStripCharPadded(s: string, c: char, n: nat)
    requires s == [] || s[|s| - 1] != c
    ensures RStripChar(s + seq(n, _ => c), c) == s
  {
    if n > 0 {
      var t := s + seq(n, _ => c);
      assert t[..|t| - 1] == s + seq(n - 1, _ => c);
      RStripCharPadded(s, c, n - 1);
    } else {
      assert s + seq(n, _ => c) == s;
    }
  }

  /** A non-empty sequence is its front followed by its last element. */
  lemma SplitLast<T>(s: seq<T>)
    requires s != []
    ensures s == s[..|s| - 1] + [s[|s| - 1]]
  {
  }

  /** Python's `sep.join(xs)`. */
  function Join(sep: string, xs: seq<string>): string {
    if |xs| == 0 then ""
    else if |xs| == 1 then xs[0]
    else xs[0] + sep + Join(sep, xs[1..])
  }

  /** Python's truthiness of an optional string: present and non-empty. */
  predicate Truthy(s: Option<string>) {
    s.Some? && s.value != ""
  }

  /** Python's `a or b` on optional strings. */
  function Or(a: Option<string>, b: Option<string>): Option<string> {
    if Truthy(a) then a else b
  }

  /** `sub` occurs somewhere in `s`. */
  predicate Contains(s: string, sub: string) {
    exists i | 0 <= i <= |s| :: sub <= s[i..]
  }

  predicate IsDigit(c: char) {
    '0' <= c <= '9'
  }

  function DigitChar(d: nat): (c: char)
    requires d < 10
    ensures IsDigit(c) && c as int - '0' as int == d
  {
    (d + '0' as int) as char
  }

  function DigitValue(c: char): nat {
    if IsDigit(c) then c as int - '0' as int else 0
  }

  /** Python's `str(n)` for a non-negative integer: its decimal digits, most significant first. */
  function NatToString(n: nat): (s: string)
    ensures |s| > 0
    ensures forall k | 0 <= k < |s| :: IsDigit(s[k])
  {
    if n < 10 then [DigitChar(n)] else NatToString(n / 10) + [DigitChar(n % 10)]
  }

  /** Python's `str(i)` for an integer. */
  function IntToString(i: int): (s: string)
    ensures |s| > 0
  {
    if i < 0 then "-" + NatToString(-i) else NatToString(i)
  }

  /**
   * The digit part Python's `int()` accepts: ASCII digits, with single
   * underscores allowed between two digits.
   */
  predicate DigitRun(s: string) {
    && |s| > 0
    && IsDigit(s[0])
    && IsDigit(s[|s| - 1])
    && (forall k | 0 <= k < |s| :: IsDigit(s[k]) || s[k] == '_')
    && (forall k | 0 <= k < |s| - 1 :: s[k] == '_' ==> s[k + 1] != '_')
  }

  /** The value of a digit run, read left to right, underscores skipped. */
  function DigitsValue(s: string): nat {
    if s == [] then 0
    else if s[|s| - 1] == '_' then DigitsValue(s[..|s| - 1])
    else DigitsValue(s[..|s| - 1]) * 10 + DigitValue(s[|s| - 1])
  }

  /** `int()` after the whitespace is gone: an optional sign, then a digit run. */
  function ParseSigned(t: string): (r: Option<int>)
    ensures t == "" ==> r.None?
    ensures r.Some? ==> IsDigit(t[|t| - 1]) && (IsDigit(t[0]) || t[0] == '+' || t[0] == '-')
  {
    if t != [] && (t[0] == '+' || t[0] == '-') then
      if DigitRun(t[1..]) then
        Some(if t[0] == '-' then 0 - DigitsValue(t[1..]) else DigitsValue(t[1..]))
      else None
    else if DigitRun(t) then Some(DigitsValue(t))
    else None
  }

  /**
   * Python's `int(s)`: surrounding whitespace is ignored, an optional sign
   * may precede the digit run, and anything else is a `ValueError` (None).
   */
  function ParseInt(s: string): (r: Option<int>)
    ensures Strip(s) == "" ==> r.None?
    ensures r.Some? ==> var t := Strip(s); IsDigit(t[|t| - 1]) && (IsDigit(t[0]) || t[0] == '+' || t[0] == '-')
  {
    ParseSigned(Strip(s))
  }

  lemma {:induction false} DigitsValueOfNat(n: nat)
    ensures DigitsValue(NatToString(n)) == n
  {
    var s := NatToString(n);
    if n >= 10 {
      DigitsValueOfNat(n / 10);
      assert s[..|s| - 1] == NatToString(n / 10);
    }
  }

  /** The decimal text of a natural number is a digit run (it has no underscore and no sign). */
  lemma NatStringIsDigitRun(n: nat)
    ensures DigitRun(NatToString(n))
  {
  }

  /** The decimal text of an integer has no surrounding whitespace. */
  lemma IntStringIsStripped(i: int)
    ensures Strip(IntToString(i)) == IntToString(i)
  {
    var s := IntToString(i);
    assert !IsSpace(s[0]) && !IsSpace(s[|s| - 1]);
    StripTrimmed(s);
  }

  /** The signed parser reads the decimal text of an integer back to it. */
  lemma ParseSignedIntString(i: int)
    ensures ParseSigned(IntToString(i)) == Some(i)
  {
    var s := IntToString(i);
    if i < 0 {
      assert s[1..] == NatToString(-i);
      NatStringIsDigitRun(-i);
      DigitsValueOfNat(-i);
    } else {
      NatStringIsDigitRun(i);
      DigitsValueOfNat(i);
      assert IsDigit(s[0]);
    }
  }

  /** `int(str(i)) == i`: the decimal text of an integer parses back to it. */
  lemma ParseIntRoundTrip(i: int)
    ensures ParseInt(IntToString(i)) == Some(i)
  {
    IntStringIsStripped(i);
    ParseSignedIntString(i);
  }
}
