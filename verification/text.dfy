/** The string operations the domain relies on, over ASCII: `isBlank`,
    `toUpperCase`, `String.valueOf(int)` and substring containment. */
module Text {
  import opened Wrappers

  /** `Character.isWhitespace` on ASCII: space, the controls U+0009..U+000D and
      the separators U+001C..U+001F. */
  predicate IsWhitespace(c: char)
  {
    var n := c as int;
    n == 32 || 9 <= n <= 13 || 28 <= n <= 31
  }

  /** `String.isBlank`: empty, or whitespace only. */
  predicate IsBlank(s: string)
  {
    forall i :: 0 <= i < |s| ==> IsWhitespace(s[i])
  }

  predicate IsLower(c: char)
  {
    'a' <= c <= 'z'
  }

  /** No ASCII lower-case letter occurs in `s`. */
  predicate NoLowerCase(s: string)
  {
    forall i :: 0 <= i < |s| ==> !IsLower(s[i])
  }

  function UpperChar(c: char): (r: char)
    ensures !IsLower(r)
    ensures IsWhitespace(r) <==> IsWhitespace(c)
    ensures !IsLower(c) ==> r == c
    ensures IsLower(c) ==> r as int + 32 == c as int
  {
    if IsLower(c) then (c as int - 32) as char else c
  }

  /** `String.toUpperCase` restricted to ASCII letters: every lower-case letter
      becomes its capital, every other character stays. */
  function ToUpper(s: string): (r: string)
    ensures |r| == |s|
    ensures NoLowerCase(r)
    ensures forall i :: 0 <= i < |s| && !IsLower(s[i]) ==> r[i] == s[i]
    ensures forall i :: 0 <= i < |s| && IsLower(s[i]) ==> r[i] as int + 32 == s[i] as int
  {
    seq(|s|, i requires 0 <= i < |s| => UpperChar(s[i]))
  }

  /** Upper-casing neither creates nor removes blankness. */
  lemma ToUpperKeepsBlank(s: string)
    ensures IsBlank(ToUpper(s)) <==> IsBlank(s)
  {
    var r := ToUpper(s);
    forall i | 0 <= i < |s|
      ensures IsWhitespace(r[i]) <==> IsWhitespace(s[i])
    {
      assert r[i] == UpperChar(s[i]);
    }
  }

  /** A string without lower-case letters is its own upper-case form, so
      upper-casing is idempotent. */
  lemma ToUpperFixesUpper(s: string)
    requires NoLowerCase(s)
    ensures ToUpper(s) == s
  {
  }

  lemma ToUpperIdempotent(s: string)
    ensures ToUpper(ToUpper(s)) == ToUpper(s)
  {
    ToUpperFixesUpper(ToUpper(s));
  }

  /** `sub` occurs in `s` starting at offset `i`. */
  predicate OccursAt(s: string, sub: string, i: int)
  {
    0 <= i <= |s| - |sub| && s[i..i + |sub|] == sub
  }

  /** `sub` occurs in `s` at some offset (`String.contains`). */
  predicate Contains(s: string, sub: string)
  {
    exists i | 0 <= i <= |s| - |sub| :: OccursAt(s, sub, i)
  }

  predicate IsDigit(c: char)
  {
    '0' <= c <= '9'
  }

  function DigitChar(d: int): (c: char)
    requires 0 <= d < 10
    ensures IsDigit(c)
    ensures c as int - '0' as int == d
  {
    ('0' as int + d) as char
  }

  predicate AllDigits(s: string)
  {
    forall i :: 0 <= i < |s| ==> IsDigit(s[i])
  }

  /** Decimal digits of `n`, most significant first, without leading zeros. */
  function NatToString(n: nat): (r: string)
    ensures |r| >= 1
    ensures AllDigits(r)
    ensures |r| > 1 ==> r[0] != '0'
  {
    if n < 10 then [DigitChar(n)] else NatToString(n / 10) + [DigitChar(n % 10)]
  }

  /** `String.valueOf(int)` / `Integer.toString`: an optional minus sign and the
      decimal digits of the magnitude. */
  function IntToString(v: int): (r: string)
    ensures |r| >= 1
  {
    if v < 0 then "-" + NatToString(-v) else NatToString(v)
  }

  /** The number a string of decimal digits denotes. */
  function DigitsValue(s: string): nat
    requires AllDigits(s)
  {
    if |s| == 0 then 0 else 10 * DigitsValue(s[..|s| - 1]) + (s[|s| - 1] as int - '0' as int)
  }

  /** `Integer.parseInt` without the 32-bit range check: an optional minus sign
      followed by at least one digit. */
  function ParseInt(s: string): Option<int>
  {
    if |s| > 0 && s[0] == '-' then
      var t := s[1..];
      if |t| > 0 && AllDigits(t) then Some(-(DigitsValue(t) as int)) else None
    else if |s| > 0 && AllDigits(s) then Some(DigitsValue(s))
    else None
  }

  lemma {:induction false} DigitsOfNat(n: nat)
    ensures DigitsValue(NatToString(n)) == n
  {
    if n >= 10 {
      var r := NatToString(n);
      assert r[..|r| - 1] == NatToString(n / 10);
      DigitsOfNat(n / 10);
    }
  }

  /** Rendering an integer in decimal and parsing it back gives the integer. */
  lemma IntToStringRoundTrip(v: int)
    ensures ParseInt(IntToString(v)) == Some(v)
  {
    if v < 0 {
      DigitsOfNat(-v);
      assert IntToString(v)[1..] == NatToString(-v);
    } else {
      DigitsOfNat(v);
    }
  }
}
