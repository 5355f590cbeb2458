/**
 * A restricted model of Go's `strconv.ParseFloat(s, 64)`: the plain decimal
 * forms `[+|-] digits [. digits]` and `[+|-] . digits`, read as exact
 * rationals. Exponents, `Inf`, `NaN`, hexadecimal and binary rounding are not
 * part of this model.
 */
module Decimal {
  import opened Results

  predicate IsDigit(c: char) {
    '0' <= c <= '9'
  }

  predicate AllDigits(s: string) {
    forall i | 0 <= i < |s| :: IsDigit(s[i])
  }

  /** The value of a run of decimal digits, most significant first. */
  function Natural(s: string): nat
    requires AllDigits(s)
  {
    if s == [] then 0
    else Natural(s[..|s| - 1]) * 10 + (s[|s| - 1] as int - '0' as int)
  }

  function Pow10(n: nat): (r: nat)
    ensures r >= 1
  {
    if n == 0 then 1 else 10 * Pow10(n - 1)
  }

  /** Index of the first `c` in `s`, or `|s|` when there is none. */
  function IndexOf(s: string, c: char): (k: nat)
    ensures k <= |s|
    ensures k < |s| ==> s[k] == c
    ensures forall i | 0 <= i < k :: s[i] != c
  {
    if s == [] then 0
    else if s[0] == c then 0
    else 1 + IndexOf(s[1..], c)
  }

  /** An unsigned decimal: digits, optionally a point and more digits, at least one digit overall. */
  function Unsigned(s: string): Option<real> {
    var k := IndexOf(s, '.');
    var whole := s[..k];
    var fraction := if k < |s| then s[k + 1..] else [];
    if AllDigits(whole) && AllDigits(fraction) && |whole| + |fraction| > 0 then
      Some(Natural(whole) as real + Natural(fraction) as real / Pow10(|fraction|) as real)
    else None
  }

  /** `strconv.ParseFloat` on the decimal subset; `None` stands for its syntax error. */
  function ParseDecimal(s: string): (r: Option<real>)
    ensures s == [] ==> r == None
    ensures AllDigits(s) && s != [] ==> r == Some(Natural(s) as real)
  {
    if s != [] && s[0] == '-' then
      match Unsigned(s[1..])
      case Some(v) => Some(-v)
      case None => None
    else if s != [] && s[0] == '+' then Unsigned(s[1..])
    else
      assert AllDigits(s) ==> IndexOf(s, '.') == |s| && s[..|s|] == s;
      Unsigned(s)
  }

  /** An unsigned decimal is made of digits and one point only. */
  lemma UnsignedCharacters(t: string)
    requires Unsigned(t).Some?
    ensures forall i | 0 <= i < |t| :: IsDigit(t[i]) || t[i] == '.'
  {
    var k := IndexOf(t, '.');
    forall i | 0 <= i < |t| ensures IsDigit(t[i]) || t[i] == '.' {
      if i < k {
        assert t[i] == t[..k][i];
      } else if i > k {
        assert t[i] == t[k + 1..][i - k - 1];
      }
    }
  }

  /** Only digits, a sign and a point can be read: a text with a comma never parses. */
  lemma NoSeparatorsAccepted(s: string, c: char)
    requires ParseDecimal(s).Some?
    requires !IsDigit(c) && c != '.' && c != '-' && c != '+'
    ensures c !in s
  {
    if s != [] && (s[0] == '-' || s[0] == '+') {
      UnsignedCharacters(s[1..]);
      forall i | 1 <= i < |s| ensures s[i] != c {
        assert s[i] == s[1..][i - 1];
      }
    } else {
      UnsignedCharacters(s);
    }
  }
}
