/**
 * The integer conversions the benchmark scripts use to pass settings through the
 * environment: the driver writes `String(n)` for a non-negative integer and the
 * workers read it back with `parseInt(value, 10)`.
 */
module JsInt {
  import opened Common

  predicate IsDigit(c: char) {
    '0' <= c <= '9'
  }

  /** The white space `parseInt` skips before the number (the common members of ECMAScript's WhiteSpace and LineTerminator). */
  predicate IsWhiteSpace(c: char) {
    c in " \t\n\r\U{0B}\U{0C}\U{A0}\U{2028}\U{2029}\U{FEFF}"
  }

  predicate AllDigits(s: string) {
    forall i :: 0 <= i < |s| ==> IsDigit(s[i])
  }

  /** `s` without its leading white space. */
  function TrimStart(s: string): (t: string)
    ensures |t| <= |s| && t == s[|s| - |t|..]
    ensures t == [] || !IsWhiteSpace(t[0])
    ensures forall i :: 0 <= i < |s| - |t| ==> IsWhiteSpace(s[i])
  {
    if s != [] && IsWhiteSpace(s[0]) then TrimStart(s[1..]) else s
  }

  /** The longest prefix of `s` made of decimal digits. */
  function LeadingDigits(s: string): (d: string)
    ensures |d| <= |s| && d == s[..|d|]
    ensures AllDigits(d)
    ensures |d| == |s| || !IsDigit(s[|d|])
  {
    if s != [] && IsDigit(s[0]) then [s[0]] + LeadingDigits(s[1..]) else []
  }

  /** The value of a string of decimal digits, most significant first. */
  function DigitsValue(d: string): nat
    requires AllDigits(d)
  {
    if d == [] then 0 else DigitsValue(d[..|d| - 1]) * 10 + (d[|d| - 1] as int - '0' as int)
  }

  /**
   * `parseInt(s, 10)`: skip leading white space, take an optional sign, then the
   * longest run of decimal digits; `NaN` (here `None`) when there is no digit.
   * Whatever follows the digits is ignored.
   */
  function ParseInt(s: string): Option<int> {
    var t := TrimStart(s);
    var digits := LeadingDigits(WithoutSign(t));
    if digits == [] then None else Some(Sign(t) * DigitsValue(digits))
  }

  function WithoutSign(t: string): string {
    if t != [] && (t[0] == '-' || t[0] == '+') then t[1..] else t
  }

  function Sign(t: string): int {
    if t != [] && t[0] == '-' then -1 else 1
  }

  /** `parseInt(process.env[name], 10)`: a missing variable reads as `undefined`, which parses to `NaN`. */
  function EnvInt(env: map<string, string>, name: string): Option<int> {
    if name in env then ParseInt(env[name]) else None
  }

  function DigitChar(d: nat): (c: char)
    requires d < 10
    ensures IsDigit(c) && c as int - '0' as int == d
  {
    ('0' as int + d) as char
  }

  /** `String(n)` for a non-negative integer: its decimal digits without leading zeros. */
  function DecimalString(n: nat): (s: string)
    ensures s != [] && AllDigits(s)
    ensures |s| > 1 ==> s[0] != '0'
  {
    if n < 10 then [DigitChar(n)] else DecimalString(n / 10) + [DigitChar(n % 10)]
  }

  lemma {:induction false} DigitsValueOfDecimal(n: nat)
    ensures DigitsValue(DecimalString(n)) == n
  {
    var s := DecimalString(n);
    if n >= 10 {
      assert s[..|s| - 1] == DecimalString(n / 10);
      DigitsValueOfDecimal(n / 10);
    } else {
      assert s[..0] == [];
    }
  }

  /** A variable set to `String(n)` reads back as `n`. */
  lemma EnvIntDecimal(env: map<string, string>, name: string, n: nat)
    requires name in env && env[name] == DecimalString(n)
    ensures EnvInt(env, name) == Some(n)
  {
    ParseDecimal(n);
  }

  /** Round trip: `parseInt(String(n), 10) === n` for every non-negative integer `n`. */
  lemma ParseDecimal(n: nat)
    ensures ParseInt(DecimalString(n)) == Some(n)
  {
    var s := DecimalString(n);
    assert TrimStart(s) == s by {
      assert !IsWhiteSpace(s[0]);
    }
    assert WithoutSign(s) == s && Sign(s) == 1;
    assert LeadingDigits(s) == s;
    DigitsValueOfDecimal(n);
  }
}
