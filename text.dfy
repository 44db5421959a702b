/**
 * String helpers the script relies on through Python built-ins: `str.strip()`,
 * substring search, `int()` on a decimal literal, `str.capitalize()` and the
 * rendering of a natural number in decimal.
 */
module Text {
  import opened Wrappers

  // ---------------------------------------------------------------------------
  // Whitespace and str.strip()
  // ---------------------------------------------------------------------------

  /** The characters for which Python's `str.isspace()` holds; `str.strip()` removes exactly these. */
  predicate IsSpace(c: char) {
    || '\t' <= c <= '\r'
    || '\U{1c}' <= c <= '\U{1f}'
    || c == ' ' || c == '\U{85}' || c == '\U{a0}' || c == '\U{1680}'
    || '\U{2000}' <= c <= '\U{200a}'
    || c == '\U{2028}' || c == '\U{2029}' || c == '\U{202f}' || c == '\U{205f}' || c == '\U{3000}'
  }

  predicate AllSpace(s: string) {
    forall i :: 0 <= i < |s| ==> IsSpace(s[i])
  }

  /** `r` is `s` with all leading and all trailing whitespace removed. */
  ghost predicate IsStripOf(s: string, r: string) {
    exists i, j :: 0 <= i <= j <= |s| && r == s[i..j] && AllSpace(s[..i]) && AllSpace(s[j..])
      && (r != [] ==> !IsSpace(r[0]) && !IsSpace(r[|r| - 1]))
  }

  /** `s.lstrip()`. */
  function TrimStart(s: string): (r: string)
    ensures |r| <= |s|
  {
    if s != [] && IsSpace(s[0]) then TrimStart(s[1..]) else s
  }

  /** `s.rstrip()`. */
  function TrimEnd(s: string): (r: string)
    ensures |r| <= |s|
  {
    if s != [] && IsSpace(s[|s| - 1]) then TrimEnd(s[..|s| - 1]) else s
  }

  /** Python's `str.strip()` with no argument. */
  function Strip(s: string): (r: string)
    ensures |r| <= |s|
  {
    TrimEnd(TrimStart(s))
  }

  /** TrimStart drops a whitespace prefix and stops at the first other character. */
  lemma {:induction false} TrimStartSpec(s: string)
    ensures var r := TrimStart(s);
      && r == s[|s| - |r|..]
      && AllSpace(s[..|s| - |r|])
      && (r != [] ==> !IsSpace(r[0]))
  {
    if s != [] && IsSpace(s[0]) {
      TrimStartSpec(s[1..]);
      var r := TrimStart(s);
      assert s[..|s| - |r|] == [s[0]] + s[1..][..|s| - 1 - |r|];
    }
  }

  /** TrimEnd drops a whitespace suffix and stops at the last other character. */
  lemma {:induction false} TrimEndSpec(s: string)
    ensures var r := TrimEnd(s);
      && r == s[..|r|]
      && AllSpace(s[|r|..])
      && (r != [] ==> !IsSpace(r[|r| - 1]))
  {
    if s != [] && IsSpace(s[|s| - 1]) {
      var init := s[..|s| - 1];
      TrimEndSpec(init);
      var r := TrimEnd(s);
      assert s[|r|..] == init[|r|..] + [s[|s| - 1]];
    }
  }

  /** Where Strip cuts: the result is `s[i..j]` with only whitespace outside it. */
  lemma StripBounds(s: string) returns (i: nat, j: nat)
    ensures i <= j <= |s| && Strip(s) == s[i..j]
    ensures forall k :: 0 <= k < i ==> IsSpace(s[k])
    ensures forall k :: j <= k < |s| ==> IsSpace(s[k])
    ensures i < j ==> !IsSpace(s[i]) && !IsSpace(s[j - 1])
  {
    var u := TrimStart(s);
    TrimStartSpec(s);
    TrimEndSpec(u);
    var r := Strip(s);
    i := |s| - |u|;
    j := i + |r|;
    assert u == s[i..];
    forall k | 0 <= k < i ensures IsSpace(s[k]) {
      assert s[k] == s[..i][k];
    }
    forall k | j <= k < |s| ensures IsSpace(s[k]) {
      assert s[k] == u[|r|..][k - j];
    }
    if i < j {
      assert r[0] == u[0] == s[i];
      assert r[|r| - 1] == s[j - 1];
    }
  }

  /** Strip removes whitespace, and only whitespace, from both ends. */
  lemma StripSpec(s: string)
    ensures IsStripOf(s, Strip(s))
  {
    var i, j := StripBounds(s);
    assert AllSpace(s[..i]) && AllSpace(s[j..]);
  }

  /** Strip has exactly one possible result: IsStripOf determines it. */
  lemma StripUnique(s: string, r: string)
    requires IsStripOf(s, r)
    ensures r == Strip(s)
  {
    var i, j :| 0 <= i <= j <= |s| && r == s[i..j] && AllSpace(s[..i]) && AllSpace(s[j..])
      && (r != [] ==> !IsSpace(r[0]) && !IsSpace(r[|r| - 1]));
    var i', j' := StripBounds(s);
    forall k | 0 <= k < i
      ensures IsSpace(s[k])
    {
      assert s[k] == s[..i][k];
    }
    forall k | j <= k < |s|
      ensures IsSpace(s[k])
    {
      assert s[k] == s[j..][k - j];
    }
    if r != [] {
      assert s[i] == r[0] && s[j - 1] == r[|r| - 1];
    }
    CutUnique(s, i, j, i', j');
  }

  /**
   * Two cuts of `s` that each leave only whitespace outside and no whitespace
   * at the ends of what they keep keep the same text.
   */
  lemma CutUnique(s: string, i: nat, j: nat, i': nat, j': nat)
    requires i <= j <= |s| && i' <= j' <= |s|
    requires forall k :: 0 <= k < i ==> IsSpace(s[k])
    requires forall k :: j <= k < |s| ==> IsSpace(s[k])
    requires i < j ==> !IsSpace(s[i]) && !IsSpace(s[j - 1])
    requires forall k :: 0 <= k < i' ==> IsSpace(s[k])
    requires forall k :: j' <= k < |s| ==> IsSpace(s[k])
    requires i' < j' ==> !IsSpace(s[i']) && !IsSpace(s[j' - 1])
    ensures s[i..j] == s[i'..j']
  {
    if i < j && i' < j' {
      assert i == i' && j == j';
    } else {
      assert i == j && i' == j';
    }
  }

  /** Stripping twice is the same as stripping once. */
  lemma StripIdempotent(s: string)
    ensures Strip(Strip(s)) == Strip(s)
  {
    var r := Strip(s);
    StripSpec(s);
    assert IsStripOf(r, r) by {
      assert r == r[0..|r|] && r[..0] == [] && r[|r|..] == [];
    }
    StripUnique(r, r);
  }

  // ---------------------------------------------------------------------------
  // Substring search
  // ---------------------------------------------------------------------------

  predicate OccursAt(s: string, pat: string, k: nat) {
    k + |pat| <= |s| && s[k..k + |pat|] == pat
  }

  /** `s.find(pat, from)`: the first position at or after `from` where `pat` occurs. */
  function FindFrom(s: string, pat: string, from: nat): (r: Option<nat>)
    decreases |s| - from
    ensures r.Some? ==> from <= r.value && OccursAt(s, pat, r.value)
    ensures r.Some? ==> forall k :: from <= k < r.value ==> !OccursAt(s, pat, k)
    ensures r.None? ==> forall k :: from <= k ==> !OccursAt(s, pat, k)
  {
    if from + |pat| > |s| then None
    else if s[from..from + |pat|] == pat then Some(from)
    else FindFrom(s, pat, from + 1)
  }

  // ---------------------------------------------------------------------------
  // Decimal digits
  // ---------------------------------------------------------------------------

  predicate IsDigit(c: char) { '0' <= c <= '9' }

  function DigitValue(c: char): (d: nat)
    requires IsDigit(c)
    ensures d < 10
  {
    (c as int - '0' as int) as nat
  }

  function DigitChar(d: nat): (c: char)
    requires d < 10
    ensures IsDigit(c) && DigitValue(c) == d
  {
    ('0' as int + d) as char
  }

  predicate AllDigits(s: string) {
    forall i :: 0 <= i < |s| ==> IsDigit(s[i])
  }

  /** The number a string of decimal digits denotes (most significant digit first). */
  function DigitsValue(s: string): nat
    requires AllDigits(s)
  {
    if s == [] then 0 else 10 * DigitsValue(s[..|s| - 1]) + DigitValue(s[|s| - 1])
  }

  function Pow10(n: nat): (p: nat)
    ensures p >= 1
  {
    if n == 0 then 1 else 10 * Pow10(n - 1)
  }

  /** `str(n)` for a natural number: shortest decimal rendering, no sign. */
  function NatToDecimal(n: nat): (r: string)
    ensures r != [] && AllDigits(r)
    ensures |r| > 1 ==> r[0] != '0'
  {
    if n < 10 then [DigitChar(n)] else NatToDecimal(n / 10) + [DigitChar(n % 10)]
  }

  /** Reading back the decimal rendering of `n` gives `n`. */
  lemma {:induction false} NatToDecimalValue(n: nat)
    ensures DigitsValue(NatToDecimal(n)) == n
  {
    if n >= 10 {
      var r := NatToDecimal(n);
      assert r[..|r| - 1] == NatToDecimal(n / 10);
      NatToDecimalValue(n / 10);
    }
  }

  /** `n` rendered with exactly `width` digits, zero-padded on the left (`f"{n:0{width}d}"`). */
  function PadDigits(n: nat, width: nat): (r: string)
    requires n < Pow10(width)
    ensures |r| == width && AllDigits(r)
  {
    if width == 0 then [] else PadDigits(n / 10, width - 1) + [DigitChar(n % 10)]
  }

  lemma {:induction false} PadDigitsValue(n: nat, width: nat)
    requires n < Pow10(width)
    ensures DigitsValue(PadDigits(n, width)) == n
  {
    if width > 0 {
      var r := PadDigits(n, width);
      assert r[..|r| - 1] == PadDigits(n / 10, width - 1);
      PadDigitsValue(n / 10, width - 1);
    }
  }

  // ---------------------------------------------------------------------------
  // int() on a string
  // ---------------------------------------------------------------------------

  /**
   * A decimal literal as Python's `int()` accepts it once surrounding
   * whitespace is removed: ASCII digits, where a single `_` may separate two digits.
   */
  predicate IsDigitLiteral(s: string) {
    && s != [] && IsDigit(s[0]) && IsDigit(s[|s| - 1])
    && (forall i :: 0 <= i < |s| ==> IsDigit(s[i]) || s[i] == '_')
    && (forall i, j :: 0 <= i < |s| && 0 <= j < |s| && j == i + 1 ==> !(s[i] == '_' && s[j] == '_'))
  }

  /** The digits of a literal, underscores dropped. */
  function WithoutUnderscores(s: string): (r: string)
    ensures |r| <= |s|
    ensures (forall i :: 0 <= i < |s| ==> IsDigit(s[i]) || s[i] == '_') ==> AllDigits(r)
  {
    if s == [] then []
    else if s[|s| - 1] == '_' then WithoutUnderscores(s[..|s| - 1])
    else WithoutUnderscores(s[..|s| - 1]) + [s[|s| - 1]]
  }

  /**
   * The whitespace `int()` skips around a literal. CPython keeps every ASCII
   * character as it is and turns each non-ASCII whitespace character into a
   * space, then skips tab, newline, `\v`, `\f`, `\r` and space.
   */
  predicate IsIntSpace(c: char) {
    || '\t' <= c <= '\r' || c == ' '
    || (c >= '\U{80}' && IsSpace(c))
  }

  /**
   * `int()` skips exactly the characters `str.isspace()` accepts, except the
   * ASCII separators U+001C to U+001F.
   */
  lemma IntSpaceSpec(c: char)
    ensures IsIntSpace(c) <==> IsSpace(c) && !('\U{1c}' <= c <= '\U{1f}')
  {
  }

  /** `s` with the leading whitespace `int()` skips removed. */
  function TrimIntStart(s: string): (r: string)
    ensures |r| <= |s| && r == s[|s| - |r|..]
  {
    if s != [] && IsIntSpace(s[0]) then TrimIntStart(s[1..]) else s
  }

  /** `s` with the trailing whitespace `int()` skips removed. */
  function TrimIntEnd(s: string): (r: string)
    ensures |r| <= |s| && r == s[..|r|]
  {
    if s != [] && IsIntSpace(s[|s| - 1]) then TrimIntEnd(s[..|s| - 1]) else s
  }

  /** The text `int()` reads a literal from. */
  function IntText(s: string): string {
    TrimIntEnd(TrimIntStart(s))
  }

  /** The text `int()` reads is a slice of its argument. */
  lemma IntTextBounds(s: string) returns (i: nat, j: nat)
    ensures i <= j <= |s| && IntText(s) == s[i..j]
  {
    var u := TrimIntStart(s);
    i, j := |s| - |u|, |s| - |u| + |TrimIntEnd(u)|;
  }

  /** Python's `int(s)` for base 10: `None` where Python raises `ValueError`. */
  function ParseInt(s: string): Option<int> {
    ParseLiteral(IntText(s))
  }

  /** The literal `int()` reads once surrounding whitespace is skipped: a sign, then digits. */
  function ParseLiteral(t: string): Option<int> {
    if t == [] then None
    else
      var sign := if t[0] == '-' then -1 else 1;
      var body := if t[0] == '-' || t[0] == '+' then t[1..] else t;
      if IsDigitLiteral(body) then
        Some(sign * DigitsValue(WithoutUnderscores(body)))
      else None
  }

  /** `int()` accepts only text that holds at least one decimal digit. */
  lemma ParseIntNeedsDigit(s: string)
    requires ParseInt(s).Some?
    ensures exists k :: 0 <= k < |s| && IsDigit(s[k])
  {
    var t := IntText(s);
    var i, j := IntTextBounds(s);
    var body := if t[0] == '-' || t[0] == '+' then t[1..] else t;
    var k := i + |t| - |body|;
    assert s[k] == body[0];
  }

  lemma {:induction false} TrimIntStartSkips(lead: string, x: string)
    requires forall i :: 0 <= i < |lead| ==> IsIntSpace(lead[i])
    requires x != [] && !IsIntSpace(x[0])
    ensures TrimIntStart(lead + x) == x
  {
    if lead == [] {
      assert lead + x == x;
    } else {
      assert (lead + x)[1..] == lead[1..] + x;
      TrimIntStartSkips(lead[1..], x);
    }
  }

  lemma {:induction false} TrimIntEndSkips(x: string, trail: string)
    requires forall i :: 0 <= i < |trail| ==> IsIntSpace(trail[i])
    requires x != [] && !IsIntSpace(x[|x| - 1])
    ensures TrimIntEnd(x + trail) == x
  {
    if trail == [] {
      assert x + trail == x;
    } else {
      var init := trail[..|trail| - 1];
      assert (x + trail)[..|x + trail| - 1] == x + init;
      TrimIntEndSkips(x, init);
    }
  }

  /** `int()` reads what lies between the whitespace it skips on either side. */
  lemma IntTextPadded(lead: string, x: string, trail: string)
    requires forall i :: 0 <= i < |lead| ==> IsIntSpace(lead[i])
    requires forall i :: 0 <= i < |trail| ==> IsIntSpace(trail[i])
    requires x != [] && !IsIntSpace(x[0]) && !IsIntSpace(x[|x| - 1])
    ensures IntText(lead + x + trail) == x
  {
    var s := lead + x + trail;
    assert s == lead + (x + trail);
    assert (x + trail)[0] == x[0];
    TrimIntStartSkips(lead, x + trail);
    TrimIntEndSkips(x, trail);
  }

  /** Text with nothing to skip at either end is read as it is. */
  lemma IntTextUnpadded(x: string)
    requires x != [] && !IsIntSpace(x[0]) && !IsIntSpace(x[|x| - 1])
    ensures IntText(x) == x
  {
    assert TrimIntStart(x) == x;
  }

  /** Text with nothing to skip at either end that starts with neither a digit nor a sign is not an integer. */
  lemma ParseIntRejectsNonDigitStart(w: string)
    requires w != [] && !IsIntSpace(w[0]) && !IsIntSpace(w[|w| - 1])
    requires !IsDigit(w[0]) && w[0] != '-' && w[0] != '+'
    ensures ParseInt(w) == None
  {
    IntTextUnpadded(w);
    ParseLiteralRejects(w);
  }

  /** A literal must start with a digit or a sign. */
  lemma ParseLiteralRejects(t: string)
    requires t != [] && !IsDigit(t[0]) && t[0] != '-' && t[0] != '+'
    ensures ParseLiteral(t) == None
  {
  }

  /** A sign followed by decimal digits is already the text `int()` reads. */
  lemma IntTextOfSignedDigits(sign: string, digits: string)
    requires sign == "" || sign == "-"
    requires digits != [] && AllDigits(digits)
    ensures IntText(sign + digits) == sign + digits
  {
    var x := sign + digits;
    assert x[0] == (if sign == "" then digits[0] else '-');
    assert x[|x| - 1] == digits[|digits| - 1];
    IntTextUnpadded(x);
  }

  /** A sign and a run of decimal digits read as the signed number. */
  lemma ParseLiteralSigned(sign: string, digits: string)
    requires sign == "" || sign == "+" || sign == "-"
    requires digits != [] && AllDigits(digits)
    ensures ParseLiteral(sign + digits) == Some((if sign == "-" then -1 else 1) * DigitsValue(digits))
  {
    var t := sign + digits;
    AllDigitsHaveNoUnderscores(digits);
    assert IsDigitLiteral(digits);
    if sign != "" {
      assert t[0] == sign[0] && t[1..] == digits;
    } else {
      assert t == digits && t[0] == digits[0];
    }
  }

  /**
   * `int()` reads a run of decimal digits with an optional sign, surrounded by
   * any amount of the whitespace it skips, as that signed decimal number.
   */
  lemma ParseIntPadded(lead: string, sign: string, digits: string, trail: string)
    requires forall i :: 0 <= i < |lead| ==> IsIntSpace(lead[i])
    requires forall i :: 0 <= i < |trail| ==> IsIntSpace(trail[i])
    requires sign == "" || sign == "+" || sign == "-"
    requires digits != [] && AllDigits(digits)
    ensures ParseInt(lead + sign + digits + trail) == Some((if sign == "-" then -1 else 1) * DigitsValue(digits))
  {
    var x := sign + digits;
    assert lead + sign + digits + trail == lead + x + trail;
    assert x[0] == (if sign == "" then digits[0] else sign[0]);
    assert x[|x| - 1] == digits[|digits| - 1];
    IntTextPadded(lead, x, trail);
    ParseLiteralSigned(sign, digits);
  }

  /** U+001C is not skipped, although `str.isspace()` holds for it, so `int()` rejects it. */
  lemma AsciiSeparatorRejected()
    ensures ParseInt("\U{1c}5") == None
  {
    var a := "\U{1c}5";
    assert !IsIntSpace(a[0]) && !IsIntSpace(a[1]);
    ParseIntRejectsNonDigitStart(a);
  }

  /** U+001C is not skipped next to non-ASCII text either, where U+00A0 is. */
  lemma SeparatorRejectedBesideNonAscii()
    ensures ParseInt("\U{1c}5\U{a0}") == None
  {
    var b := "\U{1c}5\U{a0}";
    assert TrimIntStart(b) == b;
    assert TrimIntEnd(b) == "\U{1c}5" by { assert b[..2] == "\U{1c}5"; }
    ParseLiteralRejects("\U{1c}5");
  }

  /** Non-ASCII whitespace, U+0085 and U+00A0 here, is skipped on both sides. */
  lemma NonAsciiSpaceSkipped()
    ensures ParseInt("\U{85}5\U{a0}") == Some(5)
  {
    NonAsciiSpaceStripped();
    LiteralFive();
  }

  lemma NonAsciiSpaceStripped()
    ensures IntText("\U{85}5\U{a0}") == "5"
  {
    var lead, x, trail := "\U{85}", "5", "\U{a0}";
    assert IsIntSpace(lead[0]) && IsIntSpace(trail[0]) && !IsIntSpace(x[0]);
    IntTextPadded(lead, x, trail);
    assert lead + x + trail == "\U{85}5\U{a0}";
  }

  lemma LiteralFive()
    ensures ParseLiteral("5") == Some(5)
  {
    assert "" + "5" == "5";
    ParseLiteralSigned("", "5");
    assert DigitsValue("5") == 5 by { assert "5"[..0] == []; }
  }

  /** `str(n)` for any integer. */
  function IntToDecimal(n: int): (r: string)
    ensures r != []
  {
    if n < 0 then "-" + NatToDecimal(-n) else NatToDecimal(n)
  }

  /** `int(str(n)) == n`. */
  lemma IntRoundTrip(n: int)
    ensures ParseInt(IntToDecimal(n)) == Some(n)
  {
    var m: nat := if n < 0 then -n else n;
    var sign := if n < 0 then "-" else "";
    var digits := NatToDecimal(m);
    assert IntToDecimal(n) == sign + digits;
    NatToDecimalValue(m);
    IntTextOfSignedDigits(sign, digits);
    ParseLiteralSigned(sign, digits);
  }

  lemma {:induction false} AllDigitsHaveNoUnderscores(d: string)
    requires AllDigits(d)
    ensures WithoutUnderscores(d) == d
  {
    if d != [] {
      AllDigitsHaveNoUnderscores(d[..|d| - 1]);
      assert d[..|d| - 1] + [d[|d| - 1]] == d;
    }
  }

  // ---------------------------------------------------------------------------
  // str.capitalize()
  // ---------------------------------------------------------------------------

  function ToUpper(c: char): (u: char)
    ensures 'a' <= c <= 'z' ==> 'A' <= u <= 'Z'
    ensures !('a' <= c <= 'z') ==> u == c
  {
    if 'a' <= c <= 'z' then (c as int - 32) as char else c
  }

  function ToLower(c: char): (l: char)
    ensures 'A' <= c <= 'Z' ==> 'a' <= l <= 'z'
    ensures !('A' <= c <= 'Z') ==> l == c
  {
    if 'A' <= c <= 'Z' then (c as int + 32) as char else c
  }

  /** `str.capitalize()`: first character upper-cased, the others lower-cased (ASCII letters only). */
  function Capitalize(s: string): (r: string)
    ensures |r| == |s|
    ensures s != [] ==> r[0] == ToUpper(s[0])
    ensures forall i :: 0 < i < |s| ==> r[i] == ToLower(s[i])
  {
    if s == [] then [] else [ToUpper(s[0])] + seq(|s| - 1, i requires 0 <= i < |s| - 1 => ToLower(s[i + 1]))
  }
}
