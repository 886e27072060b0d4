/**
 * The string operations of JavaScript that the components rely on, written
 * out: `trim` emptiness, `toLowerCase`, `includes`, and the decimal rendering
 * of an integer in a template literal.
 */
module Text {

  /**
   * The characters `String.prototype.trim` removes: ECMAScript's WhiteSpace
   * (tab, vertical tab, form feed, space, no-break space, byte-order mark and
   * the other space separators) and LineTerminator code points.
   */
  predicate IsJsWhitespace(c: char) {
    || c == '\U{0009}' || c == '\U{000A}' || c == '\U{000B}' || c == '\U{000C}'
    || c == '\U{000D}' || c == '\U{0020}' || c == '\U{00A0}' || c == '\U{1680}'
    || ('\U{2000}' <= c <= '\U{200A}')
    || c == '\U{2028}' || c == '\U{2029}' || c == '\U{202F}' || c == '\U{205F}'
    || c == '\U{3000}' || c == '\U{FEFF}'
  }

  /** `!s.trim()`: the string is empty once its surrounding whitespace is removed. */
  predicate Blank(s: string) {
    forall i :: 0 <= i < |s| ==> IsJsWhitespace(s[i])
  }

  /** Lower-casing restricted to ASCII letters; every other character is kept. */
  function LowerChar(c: char): (d: char)
    ensures 'A' <= c <= 'Z' ==> 'a' <= d <= 'z' && d as int == c as int + 32
    ensures !('A' <= c <= 'Z') ==> d == c
  {
    if 'A' <= c <= 'Z' then (c as int - 'A' as int + 'a' as int) as char else c
  }

  /** `toLowerCase`, one character at a time. */
  function Lower(s: string): (r: string)
    ensures |r| == |s|
    ensures forall i :: 0 <= i < |s| ==> r[i] == LowerChar(s[i])
  {
    if s == [] then [] else [LowerChar(s[0])] + Lower(s[1..])
  }

  /** Upper-casing restricted to ASCII letters, the inverse direction of `LowerChar`. */
  function UpperChar(c: char): (d: char)
    ensures 'a' <= c <= 'z' ==> 'A' <= d <= 'Z' && d as int == c as int - 32
    ensures !('a' <= c <= 'z') ==> d == c
  {
    if 'a' <= c <= 'z' then (c as int - 'a' as int + 'A' as int) as char else c
  }

  /** `toUpperCase` on ASCII letters. */
  function Upper(s: string): (r: string)
    ensures |r| == |s|
    ensures forall i :: 0 <= i < |s| ==> r[i] == UpperChar(s[i])
  {
    if s == [] then [] else [UpperChar(s[0])] + Upper(s[1..])
  }

  /** Upper-casing first makes no difference once a string is lower-cased. */
  lemma LowerUpper(s: string)
    ensures Lower(Upper(s)) == Lower(s)
  {
    forall i | 0 <= i < |s| ensures Lower(Upper(s))[i] == Lower(s)[i] {
      var c := s[i];
      if 'a' <= c <= 'z' {
        assert UpperChar(c) as int == c as int - 32;
      }
    }
  }

  /** `s` occurs in `t` at position `i`. */
  ghost predicate OccursAt(sub: string, t: string, i: int) {
    0 <= i && i + |sub| <= |t| && t[i..i + |sub|] == sub
  }

  /** `sub` occurs somewhere in `t`. */
  ghost predicate Occurs(sub: string, t: string) {
    exists i :: OccursAt(sub, t, i)
  }

  /** `t.includes(sub)`, computed by trying each start position in turn. */
  function Includes(t: string, sub: string): (b: bool)
    ensures b <==> Occurs(sub, t)
    decreases |t|
  {
    if |sub| <= |t| && t[..|sub|] == sub then
      assert OccursAt(sub, t, 0);
      true
    else if |t| == 0 then
      assert forall i :: !OccursAt(sub, t, i);
      false
    else
      var rest := Includes(t[1..], sub);
      IncludesShift(t, sub);
      rest
  }

  /** An occurrence in `t` past position 0 is an occurrence in `t[1..]`, and back. */
  lemma IncludesShift(t: string, sub: string)
    requires |t| > 0
    requires !(|sub| <= |t| && t[..|sub|] == sub)
    ensures Occurs(sub, t) <==> Occurs(sub, t[1..])
  {
    if exists i :: OccursAt(sub, t, i) {
      var i :| OccursAt(sub, t, i);
      assert i != 0;
      assert t[1..][i - 1..i - 1 + |sub|] == t[i..i + |sub|];
      assert OccursAt(sub, t[1..], i - 1);
    }
    if exists j :: OccursAt(sub, t[1..], j) {
      var j :| OccursAt(sub, t[1..], j);
      assert t[j + 1..j + 1 + |sub|] == t[1..][j..j + |sub|];
      assert OccursAt(sub, t, j + 1);
    }
  }

  /** The decimal digit for `d`. */
  function DigitChar(d: int): char
    requires 0 <= d < 10
  {
    "0123456789"[d]
  }

  /** The decimal numeral of `n`, as `${n}` writes it: no leading zeros. */
  function NatToString(n: nat): (s: string)
    ensures |s| > 0
    ensures IsDigits(s)
    ensures s[0] == '0' <==> n == 0
    ensures |s| > 1 ==> s[0] != '0'
  {
    if n < 10 then [DigitChar(n)] else NatToString(n / 10) + [DigitChar(n % 10)]
  }

  /** `${n}` for any integer: a minus sign before the numeral of a negative value. */
  function IntToString(n: int): (s: string)
    ensures |s| > 0
    ensures IsIntNumeral(s)
    ensures s[0] == '-' <==> n < 0
    ensures s[0] != '-' && |s| > 1 ==> s[0] != '0'
    ensures s[0] == '-' ==> |s| > 1 && s[1] != '0'
  {
    if n < 0 then "-" + NatToString(-n) else NatToString(n)
  }

  /** Every character of `s` is a decimal digit. */
  predicate IsDigits(s: string) {
    forall i :: 0 <= i < |s| ==> '0' <= s[i] <= '9'
  }

  /** Digits, possibly after a minus sign. */
  predicate IsIntNumeral(s: string) {
    if |s| > 0 && s[0] == '-' then IsDigits(s[1..]) else IsDigits(s)
  }

  /** The value of a string of decimal digits. */
  function ParseDigits(s: string): int
    requires IsDigits(s)
  {
    if s == [] then 0 else ParseDigits(s[..|s| - 1]) * 10 + (s[|s| - 1] as int - '0' as int)
  }

  /** Reading back the numeral of `n` gives `n`. */
  lemma {:induction false} ParseNatToString(n: nat)
    ensures ParseDigits(NatToString(n)) == n
  {
    var s := NatToString(n);
    if n >= 10 {
      ParseNatToString(n / 10);
      assert s[..|s| - 1] == NatToString(n / 10);
    }
  }

  /** Distinct numbers have distinct numerals. */
  lemma NatToStringInjective(m: nat, n: nat)
    requires NatToString(m) == NatToString(n)
    ensures m == n
  {
    ParseNatToString(m);
    ParseNatToString(n);
  }

  /** The value of a signed numeral. */
  function ParseInt(s: string): int
    requires IsIntNumeral(s)
  {
    if |s| > 0 && s[0] == '-' then -ParseDigits(s[1..]) else ParseDigits(s)
  }

  /** Reading back the numeral of any integer gives that integer. */
  lemma ParseIntToString(n: int)
    ensures ParseInt(IntToString(n)) == n
  {
    var s := IntToString(n);
    if n < 0 {
      assert s[1..] == NatToString(-n);
      ParseNatToString(-n);
    } else {
      ParseNatToString(n);
    }
  }

  /** Distinct integers have distinct numerals. */
  lemma IntToStringInjective(m: int, n: int)
    requires IntToString(m) == IntToString(n)
    ensures m == n
  {
    ParseIntToString(m);
    ParseIntToString(n);
  }
}
