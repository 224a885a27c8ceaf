/** The Python string operations the extractors rely on, over ASCII text:
    `strip`, `in`, `startswith`, `replace`, `isdigit`, `upper`, `split`,
    `re.findall(r'\d+', ...)[0]`, `int(...)` and `float(...)`, and `str` of a
    non-negative integer. */
module Strings {
  import opened Base

  /** Python's `str.isspace()` on one character: the characters `strip`
      and `split` treat as white space. */
  predicate IsSpace(c: char) {
    || c == ' ' || '\t' <= c <= '\r' || '\U{1C}' <= c <= '\U{1F}'
    || c == '\U{85}' || c == '\U{A0}' || c == '\U{1680}'
    || '\U{2000}' <= c <= '\U{200A}' || c == '\U{2028}' || c == '\U{2029}'
    || c == '\U{202F}' || c == '\U{205F}' || c == '\U{3000}'
  }

  predicate IsDigit(c: char) {
    '0' <= c <= '9'
  }

  predicate AllDigits(s: string) {
    forall i :: 0 <= i < |s| ==> IsDigit(s[i])
  }

  /** Python's `str.isdigit()`: false on the empty string. */
  predicate IsDigits(s: string) {
    |s| > 0 && AllDigits(s)
  }

  /** Python's `sub in s`. */
  predicate Contains(s: string, sub: string)
    decreases |s|
  {
    StartsWith(s, sub) || (s != [] && Contains(s[1..], sub))
  }

  /** A string holding a character the other lacks is not inside it. */
  lemma {:induction false} MissingCharNotContained(s: string, sub: string, c: char)
    requires c in sub && c !in s
    ensures !Contains(s, sub)
    decreases |s|
  {
    if s != [] {
      MissingCharNotContained(s[1..], sub, c);
    }
  }

  /** Python's `s.startswith(p)`. */
  predicate StartsWith(s: string, p: string) {
    |p| <= |s| && s[..|p|] == p
  }

  /** Python's `s.lstrip()`. */
  function TrimStart(s: string): string {
    if s != [] && IsSpace(s[0]) then TrimStart(s[1..]) else s
  }

  /** `lstrip` drops a prefix and leaves no white space in front. */
  lemma {:induction false} TrimStartShape(s: string)
    ensures |TrimStart(s)| <= |s| && TrimStart(s) == s[|s| - |TrimStart(s)|..]
    ensures TrimStart(s) != [] ==> !IsSpace(TrimStart(s)[0])
  {
    if s != [] && IsSpace(s[0]) {
      TrimStartShape(s[1..]);
    }
  }

  /** Python's `s.rstrip()`. */
  function TrimEnd(s: string): string {
    if s != [] && IsSpace(s[|s| - 1]) then TrimEnd(s[..|s| - 1]) else s
  }

  /** `rstrip` drops a suffix and leaves no white space behind. */
  lemma {:induction false} TrimEndShape(s: string)
    ensures |TrimEnd(s)| <= |s| && TrimEnd(s) == s[..|TrimEnd(s)|]
    ensures TrimEnd(s) != [] ==> !IsSpace(TrimEnd(s)[|TrimEnd(s)| - 1])
  {
    if s != [] && IsSpace(s[|s| - 1]) {
      TrimEndShape(s[..|s| - 1]);
    }
  }

  /** Python's `s.strip()`. */
  function Strip(s: string): string {
    TrimEnd(TrimStart(s))
  }

  /** `strip` only removes characters: what is left occurs in `s`. */
  lemma StripKeepsChars(s: string)
    ensures forall x :: x in Strip(s) ==> x in s
  {
    var t := TrimStart(s);
    var r := TrimEnd(t);
    TrimStartShape(s);
    TrimEndShape(t);
    forall x | x in r ensures x in s {
      var i :| 0 <= i < |r| && r[i] == x;
      assert t[i] == x;
      assert s[|s| - |t| + i] == x;
    }
  }

  /** Python's `s.replace(c, '')` for a one-character `c`. */
  function RemoveAll(s: string, c: char): (r: string)
    ensures c !in r
  {
    if s == [] then []
    else if s[0] == c then RemoveAll(s[1..], c)
    else [s[0]] + RemoveAll(s[1..], c)
  }

  /** Removing a character that does not occur changes nothing, which is why
      the `if '%' in text` tests in the zone-time code are redundant. */
  lemma {:induction false} RemoveAllAbsent(s: string, c: char)
    requires c !in s
    ensures RemoveAll(s, c) == s
  {
    if s != [] {
      assert s[0] != c;
      RemoveAllAbsent(s[1..], c);
      assert s == [s[0]] + s[1..];
    }
  }

  /** Removal distributes over concatenation. */
  lemma {:induction false} RemoveAllAppend(s: string, t: string, c: char)
    ensures RemoveAll(s + t, c) == RemoveAll(s, c) + RemoveAll(t, c)
  {
    if s != [] {
      assert (s + t)[1..] == s[1..] + t;
      RemoveAllAppend(s[1..], t, c);
    } else {
      assert s + t == t;
    }
  }

  function DigitValue(c: char): (r: nat)
    requires IsDigit(c)
    ensures r < 10
  {
    c as int - '0' as int
  }

  function DigitChar(d: nat): (c: char)
    requires d < 10
    ensures IsDigit(c) && DigitValue(c) == d
  {
    ('0' as int + d) as char
  }

  /** The value of a run of decimal digits, most significant first. */
  function DigitsValue(d: string): nat
    requires AllDigits(d)
  {
    if d == [] then 0 else 10 * DigitsValue(d[..|d| - 1]) + DigitValue(d[|d| - 1])
  }

  /** Python's `str(n)` for a non-negative integer. */
  function NatToString(n: nat): (r: string)
    ensures IsDigits(r)
    ensures |r| > 1 ==> r[0] != '0'
  {
    if n < 10 then [DigitChar(n)]
    else
      var p := NatToString(n / 10);
      assert p[0] != '0' by {
        if |p| == 1 { assert DigitValue(p[0]) == n / 10; }
      }
      p + [DigitChar(n % 10)]
  }

  /** `int(str(n)) == n`: the digits `str` writes read back as `n`. */
  lemma {:induction false} NatToStringValue(n: nat)
    ensures DigitsValue(NatToString(n)) == n
  {
    var s := NatToString(n);
    if n >= 10 {
      NatToStringValue(n / 10);
      assert s[..|s| - 1] == NatToString(n / 10);
    }
  }

  /** The longest prefix of `s` made of digits. */
  function LeadingDigits(s: string): (r: string)
    ensures AllDigits(r) && |r| <= |s| && r == s[..|r|]
    ensures |r| < |s| ==> !IsDigit(s[|r|])
  {
    if s != [] && IsDigit(s[0]) then [s[0]] + LeadingDigits(s[1..]) else []
  }

  /** `int(re.findall(r'\d+', s)[0])`, or None when `s` holds no digit. */
  function FirstDigitRun(s: string): (r: Option<nat>)
    ensures r.None? <==> forall i :: 0 <= i < |s| ==> !IsDigit(s[i])
  {
    if s == [] then None
    else if IsDigit(s[0]) then Some(DigitsValue(LeadingDigits(s)))
    else FirstDigitRun(s[1..])
  }

  /** The first digit run is the number spelled by the maximal run of digits
      that starts at the first digit of `s`. */
  lemma {:induction false} FirstDigitRunValue(s: string)
    ensures FirstDigitRun(s).Some? ==>
      exists i :: 0 <= i < |s| && IsDigit(s[i]) && (forall j :: 0 <= j < i ==> !IsDigit(s[j]))
        && FirstDigitRun(s).value == DigitsValue(LeadingDigits(s[i..]))
  {
    if FirstDigitRun(s).Some? {
      var i := FirstDigitRunAt(s);
    }
  }

  /** Where the first digit run starts. */
  lemma {:induction false} FirstDigitRunAt(s: string) returns (i: nat)
    requires FirstDigitRun(s).Some?
    ensures i < |s| && IsDigit(s[i]) && forall j :: 0 <= j < i ==> !IsDigit(s[j])
    ensures FirstDigitRun(s).value == DigitsValue(LeadingDigits(s[i..]))
  {
    if IsDigit(s[0]) {
      i := 0;
      assert s[0..] == s;
    } else {
      var k := FirstDigitRunAt(s[1..]);
      i := k + 1;
      assert s[1..][k..] == s[i..];
      assert forall j :: 1 <= j < i ==> s[j] == s[1..][j - 1];
    }
  }

  /** Text before the first digit does not change the first digit run. */
  lemma {:induction false} FirstDigitRunSkips(p: string, s: string)
    requires forall i :: 0 <= i < |p| ==> !IsDigit(p[i])
    ensures FirstDigitRun(p + s) == FirstDigitRun(s)
  {
    if p != [] {
      assert (p + s)[0] == p[0];
      assert (p + s)[1..] == p[1..] + s;
      FirstDigitRunSkips(p[1..], s);
    } else {
      assert p + s == s;
    }
  }

  /** The first digit run of `str(n)`, followed by anything that does not
      start with a digit, is `n`. */
  lemma FirstDigitRunOfNat(n: nat, rest: string)
    requires rest == [] || !IsDigit(rest[0])
    ensures FirstDigitRun(NatToString(n) + rest) == Some(n)
  {
    var d := NatToString(n);
    LeadingDigitsOfDigits(d, rest);
    NatToStringValue(n);
  }

  lemma {:induction false} LeadingDigitsOfDigits(d: string, rest: string)
    requires AllDigits(d)
    requires rest == [] || !IsDigit(rest[0])
    ensures LeadingDigits(d + rest) == d
  {
    if d != [] {
      assert (d + rest)[1..] == d[1..] + rest;
      LeadingDigitsOfDigits(d[1..], rest);
    } else {
      assert d + rest == rest;
    }
  }

  function Pow10(n: nat): (r: nat)
    ensures r > 0
  {
    if n == 0 then 1 else 10 * Pow10(n - 1)
  }

  /** Index of the first occurrence of `c` in `s`. */
  function IndexOf(s: string, c: char): (k: nat)
    requires c in s
    ensures k < |s| && s[k] == c && c !in s[..k]
  {
    if s[0] == c then 0 else 1 + IndexOf(s[1..], c)
  }

  /** `float(t)` for a string without sign or surrounding white space: digits
      with at most one `.`, and at least one digit. */
  function ParseUnsignedDecimal(t: string): Option<real>
  {
    if '.' !in t then
      if IsDigits(t) then Some(DigitsValue(t) as real) else None
    else
      var k := IndexOf(t, '.');
      var whole, frac := t[..k], t[k + 1..];
      if AllDigits(whole) && AllDigits(frac) && |whole| + |frac| > 0 then
        Some(DigitsValue(whole) as real + DigitsValue(frac) as real / Pow10(|frac|) as real)
      else None
  }

  /** Python's `float(s)` on decimal notation: optional surrounding white
      space, an optional sign, then an unsigned decimal. None stands for the
      ValueError Python raises. */
  function ParseDecimal(s: string): Option<real>
  {
    var t := Strip(s);
    if t != [] && (t[0] == '+' || t[0] == '-') then
      match ParseUnsignedDecimal(t[1..])
      case None => None
      case Some(v) => Some(if t[0] == '-' then -v else v)
    else ParseUnsignedDecimal(t)
  }

  /** A string without white space at either end is left alone by `strip`. */
  lemma StripUnchanged(s: string)
    requires s != [] && !IsSpace(s[0]) && !IsSpace(s[|s| - 1])
    ensures Strip(s) == s
  {
    assert TrimStart(s) == s;
    assert TrimEnd(s) == s;
  }

  /** Without a sign or surrounding white space, `float` reads the unsigned form. */
  lemma ParseDecimalUnsigned(s: string)
    requires s != [] && !IsSpace(s[0]) && !IsSpace(s[|s| - 1])
    requires s[0] != '+' && s[0] != '-'
    ensures ParseDecimal(s) == ParseUnsignedDecimal(s)
  {
    StripUnchanged(s);
  }

  /** `float(d) == int(d)` for a string of ASCII digits. */
  lemma ParseDecimalOfDigits(d: string)
    requires IsDigits(d)
    ensures ParseDecimal(d) == Some(DigitsValue(d) as real)
  {
    assert IsDigit(d[0]) && IsDigit(d[|d| - 1]);
    ParseDecimalUnsigned(d);
  }

  /** `float(str(n)) == n`. */
  lemma ParseDecimalOfNat(n: nat)
    ensures ParseDecimal(NatToString(n)) == Some(n as real)
  {
    ParseDecimalOfDigits(NatToString(n));
    NatToStringValue(n);
  }

  /** `float("." + frac)` is `frac` read as digits after the decimal point. */
  lemma LeadingDotValue(s: string)
    requires |s| > 1 && s[0] == '.' && AllDigits(s[1..])
    ensures ParseUnsignedDecimal(s) == Some(DigitsValue(s[1..]) as real / Pow10(|s| - 1) as real)
  {
    var k := IndexOf(s, '.');
    assert s[..k] == [] && s[k + 1..] == s[1..];
  }

  /** A string `"." + digits` parses to a fraction in [0, 1). */
  lemma LeadingDotIsFraction(s: string)
    requires |s| > 1 && s[0] == '.' && AllDigits(s[1..])
    ensures ParseDecimal(s).Some?
    ensures 0.0 <= ParseDecimal(s).value < 1.0
  {
    assert IsDigit(s[1..][|s| - 2]);
    ParseDecimalUnsigned(s);
    LeadingDotValue(s);
    DigitsBelowPow10(s[1..]);
    FractionBelowOne(DigitsValue(s[1..]), Pow10(|s| - 1));
  }

  lemma FractionBelowOne(n: nat, d: nat)
    requires n < d
    ensures 0.0 <= n as real / d as real < 1.0
  {
    var q := n as real / d as real;
    assert q * d as real == n as real;
  }

  lemma {:induction false} DigitsBelowPow10(d: string)
    requires AllDigits(d)
    ensures DigitsValue(d) < Pow10(|d|)
  {
    if d != [] {
      DigitsBelowPow10(d[..|d| - 1]);
    }
  }

  /** Python's `int(s)`: optional surrounding white space and sign, then
      ASCII digits. None stands for the ValueError Python raises. */
  function ParseInt(s: string): Option<int>
  {
    var t := Strip(s);
    if t != [] && (t[0] == '+' || t[0] == '-') then
      if IsDigits(t[1..]) then
        Some(if t[0] == '-' then -(DigitsValue(t[1..]) as int) else DigitsValue(t[1..]))
      else None
    else if IsDigits(t) then Some(DigitsValue(t))
    else None
  }

  /** `int(s)` of a text without `-` is never negative. */
  lemma ParseIntNonNegative(s: string)
    requires '-' !in s && ParseInt(s).Some?
    ensures ParseInt(s).value >= 0
  {
    StripKeepsChars(s);
  }

  /** `int(str(n)) == n`, also with white space around. */
  lemma {:induction false} ParseIntOfNat(n: nat)
    ensures ParseInt(NatToString(n)) == Some(n)
  {
    var d := NatToString(n);
    assert IsDigit(d[0]) && IsDigit(d[|d| - 1]);
    StripUnchanged(d);
    NatToStringValue(n);
  }

  /** Python's `str(i)` for an integer. */
  function IntToString(i: int): (r: string)
    ensures i >= 0 ==> IsDigits(r)
  {
    if i < 0 then "-" + NatToString(-i) else NatToString(i)
  }

  /** Python's `s.split(c)[0]` for a one-character separator. */
  function BeforeFirst(s: string, c: char): (r: string)
    ensures c !in r
    ensures |r| <= |s| && r == s[..|r|]
    ensures |r| < |s| ==> s[|r|] == c
  {
    if c in s then s[..IndexOf(s, c)] else s
  }

  function UpperChar(c: char): char {
    if 'a' <= c <= 'z' then (c as int - 32) as char else c
  }

  /** Python's `s.upper()` on ASCII letters. */
  function Upper(s: string): (r: string)
    ensures |r| == |s|
    ensures forall i :: 0 <= i < |s| ==> r[i] == UpperChar(s[i])
    ensures forall i :: 0 <= i < |r| ==> !('a' <= r[i] <= 'z')
  {
    seq(|s|, i requires 0 <= i < |s| => UpperChar(s[i]))
  }

  /** The longest prefix of `s` with no white space. */
  function TakeWord(s: string): (r: string)
    ensures |r| <= |s| && r == s[..|r|]
    ensures forall i :: 0 <= i < |r| ==> !IsSpace(r[i])
    ensures |r| < |s| ==> IsSpace(s[|r|])
  {
    if s != [] && !IsSpace(s[0]) then [s[0]] + TakeWord(s[1..]) else []
  }

  /** Python's `s.split()[0]`; None stands for the IndexError Python raises
      when `s` is blank. */
  function FirstWord(s: string): (r: Option<string>)
    ensures r.Some? ==> r.value != [] && forall i :: 0 <= i < |r.value| ==> !IsSpace(r.value[i])
  {
    var t := TrimStart(s);
    TrimStartShape(s);
    if t == [] then None else Some(TakeWord(t))
  }
}
