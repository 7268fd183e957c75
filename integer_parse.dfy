/** `to_i` on strings (base 10) and its inverse `to_s` on integers. */
module IntegerParse {

  /** The characters `String#to_i` skips before the number: space, \t, \n, \v, \f, \r. */
  predicate IsSpace(c: char)
  {
    c == ' ' || '\t' <= c <= '\r'
  }

  predicate IsDigit(c: char)
  {
    '0' <= c <= '9'
  }

  predicate AllDigits(s: string)
  {
    forall i :: 0 <= i < |s| ==> IsDigit(s[i])
  }

  /** The string with its leading whitespace removed. */
  function SkipSpace(s: string): (t: string)
    ensures |t| <= |s| && t == s[|s| - |t|..]
    ensures t != [] ==> !IsSpace(t[0])
    ensures forall i :: 0 <= i < |s| - |t| ==> IsSpace(s[i])
  {
    if s != [] && IsSpace(s[0]) then SkipSpace(s[1..]) else s
  }

  /** Length of the run of decimal digits that starts the string. */
  function DigitRun(s: string): (n: nat)
    ensures n <= |s|
    ensures AllDigits(s[..n])
    ensures n < |s| ==> !IsDigit(s[n])
  {
    if s != [] && IsDigit(s[0]) then 1 + DigitRun(s[1..]) else 0
  }

  /** The value of a string of decimal digits, most significant first. */
  function DigitsValue(d: string): (v: nat)
    requires AllDigits(d)
  {
    if d == [] then 0
    else DigitsValue(d[..|d| - 1]) * 10 + (d[|d| - 1] as int - '0' as int)
  }

  /** The value of the digits that start `s` (0 when it does not start with a digit). */
  function LeadingValue(s: string): nat
  {
    DigitsValue(s[..DigitRun(s)])
  }

  /** The string without the base-10 prefix `0d` or `0D`, when it has one. */
  function Unprefixed(u: string): string
  {
    if |u| >= 2 && u[0] == '0' && (u[1] == 'd' || u[1] == 'D') then u[2..] else u
  }

  /** The value of the unsigned part of a number: an optional `0d` prefix,
      then the leading decimal digits. */
  function Magnitude(u: string): nat
  {
    LeadingValue(Unprefixed(u))
  }

  /** `s.to_i`: skip whitespace, read an optional sign, an optional `0d`
      prefix and the decimal digits that follow; anything unparsable gives 0.
      Underscores between digits, which Ruby also accepts, are not modelled. */
  function ParseInt(s: string): int
  {
    var t := SkipSpace(s);
    if t != [] && t[0] == '-' then 0 - Magnitude(t[1..]) as int
    else if t != [] && t[0] == '+' then Magnitude(t[1..])
    else Magnitude(t)
  }

  function DigitChar(d: nat): (c: char)
    requires d < 10
    ensures IsDigit(c) && c as int - '0' as int == d
  {
    ('0' as int + d) as char
  }

  /** `n.to_s` for a natural number: its decimal digits, no leading zeros. */
  function NatToString(n: nat): (s: string)
    decreases n
  {
    if n < 10 then [DigitChar(n)] else NatToString(n / 10) + [DigitChar(n % 10)]
  }

  /** `n.to_s`: decimal digits with a leading '-' for a negative number. */
  function IntToString(n: int): string
  {
    if n < 0 then "-" + NatToString(-n) else NatToString(n)
  }

  lemma {:induction false} NatToStringDigits(n: nat)
    ensures NatToString(n) != [] && AllDigits(NatToString(n))
    ensures DigitsValue(NatToString(n)) == n
    decreases n
  {
    if n >= 10 {
      NatToStringDigits(n / 10);
      var s := NatToString(n);
      assert s[..|s| - 1] == NatToString(n / 10);
    }
  }

  lemma DigitRunAll(s: string)
    requires AllDigits(s)
    ensures DigitRun(s) == |s|
  {
  }

  /** Parsing the decimal form of an integer gives the integer back:
      `n.to_s.to_i == n`. */
  lemma {:induction false} LeadingValueOfNat(m: nat)
    ensures LeadingValue(NatToString(m)) == m
  {
    var d := NatToString(m);
    NatToStringDigits(m);
    DigitRunAll(d);
    assert d[..|d|] == d;
  }

  /** The decimal form of a number never looks like a `0d` prefix. */
  lemma NotPrefixed(m: nat)
    ensures Unprefixed(NatToString(m)) == NatToString(m)
  {
    var d := NatToString(m);
    if |d| >= 2 {
      assert IsDigit(d[1]) by { NatToStringDigits(m); }
      assert !(d[1] == 'd' || d[1] == 'D');
    }
  }

  /** `"0d" + m.to_s` parses as `m`. */
  lemma PrefixedDecimal(m: nat)
    ensures ParseInt("0d" + NatToString(m)) == m
  {
    var s := "0d" + NatToString(m);
    assert s[0] == '0' && s[1] == 'd' && s[2..] == NatToString(m);
    ParseUnsigned(s);
    LeadingValueOfNat(m);
  }

  /** A string that starts with a digit is read as its magnitude. */
  lemma ParseUnsigned(d: string)
    requires d != [] && IsDigit(d[0])
    ensures ParseInt(d) == Magnitude(d)
  {
    assert SkipSpace(d) == d;
  }

  /** A string that starts with '-' is read as minus the magnitude of the rest. */
  lemma ParseMinus(s: string)
    requires s != [] && s[0] == '-'
    ensures ParseInt(s) == -(Magnitude(s[1..]) as int)
  {
    assert SkipSpace(s) == s;
  }

  /** `m.to_s.to_i == m` for a natural number `m`. */
  lemma ParseNatString(m: nat)
    ensures ParseInt(NatToString(m)) == m
  {
    var d := NatToString(m);
    assert d != [] && IsDigit(d[0]) by { NatToStringDigits(m); }
    ParseUnsigned(d);
    LeadingValueOfNat(m);
    NotPrefixed(m);
  }

  /** `("-" + m.to_s).to_i == -m` for a natural number `m`. */
  lemma ParseNegatedString(m: nat)
    ensures ParseInt("-" + NatToString(m)) == -(m as int)
  {
    var s := "-" + NatToString(m);
    assert s[1..] == NatToString(m);
    ParseMinus(s);
    LeadingValueOfNat(m);
    NotPrefixed(m);
  }

  lemma {:induction false} ParseIntToString(n: int)
    ensures ParseInt(IntToString(n)) == n
  {
    if n < 0 {
      ParseNegatedString(-n);
    } else {
      ParseNatString(n);
    }
  }

  /** A string that holds no digit after its whitespace and sign parses as 0,
      which is what `match_type!` reports as a failed cast. */
  lemma NoDigitsParseZero(s: string)
    requires var t := SkipSpace(s);
      (t == [] || !IsDigit(t[0])) && (t != [] && (t[0] == '-' || t[0] == '+') ==> |t| == 1 || !IsDigit(t[1]))
    ensures ParseInt(s) == 0
  {
  }
}
