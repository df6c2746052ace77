/**
 * The few PHP built-ins the modelled code relies on, stated on Dafny strings:
 * `trim`, `strtolower`, string truthiness, the decimal text PHP gives an
 * integer when it is concatenated or coerced to `string`, and `intval`.
 */
module Php {

  /** The characters `trim()` strips by default: space, tab, line feed,
      carriage return, NUL and vertical tab. */
  predicate IsTrimmable(c: char) {
    c == ' ' || c == '\t' || c == '\n' || c == '\r' || c as int == 0 || c as int == 11
  }

  /** `ltrim($s)`. */
  function TrimLeft(s: string): (r: string) {
    if s != [] && IsTrimmable(s[0]) then TrimLeft(s[1..]) else s
  }

  /** `ltrim` drops the leading trimmable characters of `s` and nothing else. */
  lemma {:induction false} TrimLeftDrops(s: string)
    ensures var r := TrimLeft(s);
      |r| <= |s| && r == s[|s| - |r|..]
      && (forall i :: 0 <= i < |s| - |r| ==> IsTrimmable(s[i]))
      && (r != [] ==> !IsTrimmable(r[0]))
  {
    if s != [] && IsTrimmable(s[0]) {
      TrimLeftDrops(s[1..]);
      var r := TrimLeft(s);
      forall i | 1 <= i < |s| - |r| ensures IsTrimmable(s[i]) {
        assert s[i] == s[1..][i - 1];
      }
    }
  }

  /** `rtrim($s)`. */
  function TrimRight(s: string): (r: string) {
    if s != [] && IsTrimmable(s[|s| - 1]) then TrimRight(s[..|s| - 1]) else s
  }

  /** `rtrim` drops the trailing trimmable characters of `s` and nothing else. */
  lemma {:induction false} TrimRightDrops(s: string)
    ensures var r := TrimRight(s);
      |r| <= |s| && r == s[..|r|]
      && (forall i :: |r| <= i < |s| ==> IsTrimmable(s[i]))
      && (r != [] ==> !IsTrimmable(r[|r| - 1]))
  {
    if s != [] && IsTrimmable(s[|s| - 1]) {
      TrimRightDrops(s[..|s| - 1]);
    }
  }

  /** `trim($s)`. */
  function Trim(s: string): (r: string) {
    TrimLeft(TrimRight(s))
  }

  /** What `trim` keeps: the part of `s` between its first and last
      non-trimmable characters; what it drops is trimmable. */
  lemma TrimKeepsCore(s: string)
    ensures Trim(s) == [] || (!IsTrimmable(Trim(s)[0]) && !IsTrimmable(Trim(s)[|Trim(s)| - 1]))
    ensures Trim(s) == [] <==> forall i :: 0 <= i < |s| ==> IsTrimmable(s[i])
  {
    var m := TrimRight(s);
    var r := TrimLeft(m);
    TrimRightDrops(s);
    TrimLeftDrops(m);
    if r != [] {
      assert r[|r| - 1] == m[|m| - 1];
    }
  }

  /** Trimming twice is trimming once. */
  lemma TrimIdempotent(s: string)
    ensures Trim(Trim(s)) == Trim(s)
  {
    var r := Trim(s);
    TrimKeepsCore(s);
    TrimRightDrops(r);
    TrimLeftDrops(r);
    assert TrimRight(r) == r;
    assert TrimLeft(r) == r;
  }

  /** PHP's `strtolower` on one character: ASCII upper-case letters only. */
  function Lower(c: char): (r: char) {
    if 'A' <= c <= 'Z' then (c as int + 32) as char else c
  }

  /** `strtolower($s)`, character by character. */
  function StrToLower(s: string): (r: string)
    ensures |r| == |s|
    ensures forall i :: 0 <= i < |s| ==> r[i] == Lower(s[i])
  {
    if s == [] then [] else [Lower(s[0])] + StrToLower(s[1..])
  }

  /** Truthiness of a string in a PHP condition: "" and "0" are false. */
  predicate Truthy(s: string) {
    s != "" && s != "0"
  }

  predicate IsDigit(c: char) {
    '0' <= c <= '9'
  }

  predicate AllDigits(s: string) {
    forall i :: 0 <= i < |s| ==> IsDigit(s[i])
  }

  function DigitChar(d: nat): (c: char)
    requires d < 10
    ensures IsDigit(c)
  {
    ('0' as int + d) as char
  }

  /** The decimal text PHP produces for a non-negative integer
      (string interpolation, `.=`, coercion to a `string` return type). */
  function IntToString(n: nat): (s: string)
    ensures |s| > 0 && AllDigits(s)
    ensures n > 0 ==> s[0] != '0'
  {
    if n < 10 then [DigitChar(n)] else IntToString(n / 10) + [DigitChar(n % 10)]
  }

  /** The run of decimal digits at the start of `s`. */
  function LeadingDigits(s: string): (r: string)
    ensures |r| <= |s| && r == s[..|r|] && AllDigits(r)
    ensures |r| < |s| ==> !IsDigit(s[|r|])
  {
    if s != [] && IsDigit(s[0]) then [s[0]] + LeadingDigits(s[1..]) else []
  }

  /** The number a string of decimal digits denotes. */
  function DigitsValue(s: string): (r: nat)
    requires AllDigits(s)
  {
    if s == [] then 0 else DigitsValue(s[..|s| - 1]) * 10 + (s[|s| - 1] as int - '0' as int)
  }

  /** `intval($s)` for the strings the lexer hands it: the value of the
      leading run of digits, and 0 when there is none (as for ""). */
  function IntVal(s: string): (r: nat) {
    DigitsValue(LeadingDigits(s))
  }

  lemma {:induction false} LeadingDigitsOfDigits(s: string)
    requires AllDigits(s)
    ensures LeadingDigits(s) == s
  {
    if s != [] {
      LeadingDigitsOfDigits(s[1..]);
    }
  }

  lemma {:induction false} DigitsValueOfIntToString(n: nat)
    ensures DigitsValue(IntToString(n)) == n
  {
    if n >= 10 {
      DigitsValueOfIntToString(n / 10);
      var s := IntToString(n);
      assert s[..|s| - 1] == IntToString(n / 10);
    }
  }

  /** `intval` reads back the decimal text of any non-negative integer. */
  lemma IntValOfIntToString(n: nat)
    ensures IntVal(IntToString(n)) == n
  {
    LeadingDigitsOfDigits(IntToString(n));
    DigitsValueOfIntToString(n);
  }

  /** No two integers have the same decimal text. */
  lemma IntToStringInjective(m: nat, n: nat)
    requires IntToString(m) == IntToString(n)
    ensures m == n
  {
    IntValOfIntToString(m);
    IntValOfIntToString(n);
  }
}
