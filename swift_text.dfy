/**
 * The handful of Swift standard-library string operations the viewer relies on,
 * written out so that their edge cases are explicit: `Int(String)` on a 64-bit
 * platform, `trimmingCharacters(in: .whitespacesAndNewlines)`, ASCII lower-casing
 * and decimal printing of page numbers. Strings are sequences of Unicode scalars.
 */
module SwiftText {
  import opened Options

  /** Bounds of Swift's `Int` on a 64-bit platform. */
  const IntMin: int := -0x8000_0000_0000_0000
  const IntMax: int := 0x7FFF_FFFF_FFFF_FFFF

  predicate IsDigit(c: char) {
    '0' <= c <= '9'
  }

  predicate AllDigits(s: string) {
    forall i :: 0 <= i < |s| ==> IsDigit(s[i])
  }

  predicate NoDigits(s: string) {
    forall i :: 0 <= i < |s| ==> !IsDigit(s[i])
  }

  /** The value of a string of decimal digits (leading zeros allowed). */
  function DigitsValue(s: string): nat
    requires AllDigits(s)
  {
    if s == [] then 0
    else DigitsValue(s[..|s| - 1]) * 10 + (s[|s| - 1] as int - '0' as int)
  }

  /**
   * Swift's `Int(_:)` on a string: an optional `+` or `-`, then one or more ASCII
   * digits and nothing else; `nil` when the value does not fit in 64 bits.
   */
  function ParseInt(s: string): (r: Option<int>)
    ensures r.Some? ==> s != [] && IntMin <= r.value <= IntMax
  {
    if |s| > 0 && (s[0] == '+' || s[0] == '-') then
      var digits := s[1..];
      if digits != [] && AllDigits(digits) then
        var v: int := if s[0] == '-' then 0 - DigitsValue(digits) else DigitsValue(digits);
        if IntMin <= v <= IntMax then Some(v) else None
      else None
    else if s != [] && AllDigits(s) && DigitsValue(s) <= IntMax then
      Some(DigitsValue(s))
    else None
  }

  /** The decimal representation of a natural number, without sign or leading zeros. */
  function DecimalString(n: nat): (r: string)
    ensures r != [] && AllDigits(r)
    ensures r[0] == '0' ==> n == 0
  {
    var d := ['0' + ((n % 10) as char)];
    if n < 10 then d else DecimalString(n / 10) + d
  }

  lemma {:induction false} DecimalStringValue(n: nat)
    ensures DigitsValue(DecimalString(n)) == n
  {
    if n >= 10 {
      var s := DecimalString(n);
      assert s[..|s| - 1] == DecimalString(n / 10);
      DecimalStringValue(n / 10);
    }
  }

  /** Printing a page count and parsing it back with `Int(_:)` is the identity. */
  lemma ParseDecimalRoundTrip(n: nat)
    requires n <= IntMax
    ensures ParseInt(DecimalString(n)) == Some(n)
  {
    DecimalStringValue(n);
  }

  /** Swift's string interpolation `"\(n)"` of an `Int`: a minus sign for negative values, then the digits. */
  function Interpolated(n: int): (r: string)
    ensures r != [] && (n >= 0 <==> r[0] != '-')
  {
    if n < 0 then "-" + DecimalString(-n) else DecimalString(n)
  }

  /** Every 64-bit value survives printing and parsing back. */
  lemma InterpolatedRoundTrip(n: int)
    requires IntMin <= n <= IntMax
    ensures ParseInt(Interpolated(n)) == Some(n)
  {
    if n < 0 {
      var d := DecimalString(-n);
      DecimalStringValue(-n);
      assert ("-" + d)[1..] == d;
    } else {
      ParseDecimalRoundTrip(n);
    }
  }

  /**
   * `Int(_:)` accepts no surrounding blanks: a string holding a character that is
   * neither a digit nor a leading sign does not parse. This is why the page count
   * printed by djvused is trimmed before it is parsed.
   */
  lemma ParseIntRejectsNonDigit(s: string, i: nat)
    requires i < |s| && !IsDigit(s[i]) && (i > 0 || (s[0] != '+' && s[0] != '-'))
    ensures ParseInt(s) == None
  {
    if |s| > 0 && (s[0] == '+' || s[0] == '-') {
      assert s[1..][i - 1] == s[i];
    }
  }

  /**
   * `CharacterSet.whitespacesAndNewlines`: the Unicode White_Space characters
   * (tab, line feed, vertical tab, form feed, carriage return, space, next line,
   * no-break space and the Unicode space separators, line and paragraph separators).
   */
  predicate IsWhitespace(c: char) {
    var u := c as int;
    || (0x09 <= u <= 0x0D)
    || u == 0x20
    || u == 0x85
    || u == 0xA0
    || u == 0x1680
    || (0x2000 <= u <= 0x200A)
    || u == 0x2028
    || u == 0x2029
    || u == 0x202F
    || u == 0x205F
    || u == 0x3000
  }

  predicate AllWhitespace(s: string) {
    forall i :: 0 <= i < |s| ==> IsWhitespace(s[i])
  }

  /** Drops the leading whitespace: the result is the suffix that starts at the first non-blank. */
  function TrimStart(s: string): (r: string)
    ensures |r| <= |s| && r == s[|s| - |r|..]
    ensures AllWhitespace(s[..|s| - |r|])
    ensures r != [] ==> !IsWhitespace(r[0])
  {
    if s != [] && IsWhitespace(s[0]) then TrimStart(s[1..]) else s
  }

  /** Drops the trailing whitespace: the result is the prefix that ends at the last non-blank. */
  function TrimEnd(s: string): (r: string)
    ensures |r| <= |s| && r == s[..|r|]
    ensures AllWhitespace(s[|r|..])
    ensures r != [] ==> !IsWhitespace(r[|r| - 1])
  {
    if s != [] && IsWhitespace(s[|s| - 1]) then TrimEnd(s[..|s| - 1]) else s
  }

  /** `trimmingCharacters(in: .whitespacesAndNewlines)`. */
  function Trim(s: string): (r: string)
    ensures r != [] ==> !IsWhitespace(r[0]) && !IsWhitespace(r[|r| - 1])
  {
    TrimEnd(TrimStart(s))
  }

  /** Trimming removes exactly the blanks around a core that neither starts nor ends with one. */
  lemma {:induction false} TrimSurrounded(pre: string, core: string, post: string)
    requires AllWhitespace(pre) && AllWhitespace(post)
    requires core != [] && !IsWhitespace(core[0]) && !IsWhitespace(core[|core| - 1])
    ensures Trim(pre + core + post) == core
  {
    TrimStartSkips(pre, core + post);
    assert pre + core + post == pre + (core + post);
    TrimEndSkips(core, post);
  }

  lemma {:induction false} TrimStartSkips(pre: string, rest: string)
    requires AllWhitespace(pre)
    requires rest != [] && !IsWhitespace(rest[0])
    ensures TrimStart(pre + rest) == rest
  {
    if pre != [] {
      assert (pre + rest)[1..] == pre[1..] + rest;
      TrimStartSkips(pre[1..], rest);
    }
  }

  lemma {:induction false} TrimEndSkips(core: string, post: string)
    requires AllWhitespace(post)
    requires core != [] && !IsWhitespace(core[|core| - 1])
    ensures TrimEnd(core + post) == core
  {
    if post != [] {
      assert (core + post)[..|core + post| - 1] == core + post[..|post| - 1];
      TrimEndSkips(core, post[..|post| - 1]);
    } else {
      assert core + post == core;
    }
  }

  /** ASCII part of Swift's `lowercased()`: 'A'..'Z' map to 'a'..'z', everything else is kept. */
  function LowerChar(c: char): (r: char)
    ensures 'A' <= c <= 'Z' ==> 'a' <= r <= 'z' && r as int == c as int + 32
    ensures !('A' <= c <= 'Z') ==> r == c
  {
    if 'A' <= c <= 'Z' then (c as int + 32) as char else c
  }

  function Lowercased(s: string): (r: string)
    ensures |r| == |s|
    ensures forall i :: 0 <= i < |s| ==> r[i] == LowerChar(s[i])
  {
    if s == [] then [] else [LowerChar(s[0])] + Lowercased(s[1..])
  }
}
