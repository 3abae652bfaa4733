/** The two string-to-number conversions the core uses: `parseFloat`, which
    reads the longest decimal literal at the start of the string, and
    `Number(string)`, which accepts only a string that is one decimal literal
    as a whole. Values are exact `real`s; NaN is `None`. */
module JsNumber {
  import opened JsText
  import opened Wrappers

  predicate IsDigit(c: char) {
    '0' <= c <= '9'
  }

  /** Length of the run of decimal digits at the start of `s`. */
  function DigitRun(s: string): (n: nat)
    ensures n <= |s|
    ensures forall i :: 0 <= i < n ==> IsDigit(s[i])
    ensures n < |s| ==> !IsDigit(s[n])
  {
    if |s| > 0 && IsDigit(s[0]) then 1 + DigitRun(s[1..]) else 0
  }

  function DigitsValue(d: string): nat
    requires forall i :: 0 <= i < |d| ==> IsDigit(d[i])
  {
    if |d| == 0 then 0
    else
      assert IsDigit(d[|d| - 1]);
      DigitsValue(d[..|d| - 1]) * 10 + (d[|d| - 1] as int - '0' as int)
  }

  function Pow10(k: nat): (p: nat)
    ensures p >= 1
  {
    if k == 0 then 1 else 10 * Pow10(k - 1)
  }

  /** The exponent part `e[+|-]digits` at the start of `s`, as (exponent,
      length); absent when no digit follows the marker. */
  function ExponentPart(s: string): (r: Option<(int, nat)>)
    ensures r.Some? ==> 2 <= r.value.1 <= |s|
  {
    if |s| == 0 || (s[0] != 'e' && s[0] != 'E') then None
    else
      var signLen := if |s| > 1 && (s[1] == '+' || s[1] == '-') then 1 else 0;
      var m := DigitRun(s[1 + signLen..]);
      if m == 0 then None
      else
        var mag := DigitsValue(s[1 + signLen..1 + signLen + m]);
        Some((if signLen == 1 && s[1] == '-' then -(mag as int) else mag, 1 + signLen + m))
  }

  function Scale(v: real, e: int): real {
    if e >= 0 then v * (Pow10(e) as real) else v / (Pow10(-e) as real)
  }

  /** The longest prefix of `s` that is a signed decimal literal
      (`[+-]? (digits [. digits?] | . digits) ([eE] [+-]? digits)?`), as
      (value, length). */
  function DecimalPrefix(s: string): (r: Option<(real, nat)>)
    ensures r.Some? ==> 1 <= r.value.1 <= |s|
  {
    var signLen := if |s| > 0 && (s[0] == '+' || s[0] == '-') then 1 else 0;
    var t := s[signLen..];
    var n1 := DigitRun(t);
    var hasDot := n1 < |t| && t[n1] == '.';
    var n2 := if hasDot then DigitRun(t[n1 + 1..]) else 0;
    if n1 + n2 == 0 then None
    else
      var mantLen := if hasDot then n1 + 1 + n2 else n1;
      var whole := DigitsValue(t[..n1]) as real;
      var frac := if hasDot then DigitsValue(t[n1 + 1..n1 + 1 + n2]) as real / (Pow10(n2) as real) else 0.0;
      var mant := if signLen == 1 && s[0] == '-' then -(whole + frac) else whole + frac;
      match ExponentPart(t[mantLen..])
      case None => Some((mant, signLen + mantLen))
      case Some((e, len)) => Some((Scale(mant, e), signLen + mantLen + len))
  }

  /** `parseFloat(s)`: leading white space is skipped, then the longest
      decimal prefix is read; no such prefix gives NaN (`None`). */
  function ParseFloat(s: string): (r: Option<real>)
    ensures r.Some? <==> DecimalPrefix(TrimStart(s)).Some?
  {
    match DecimalPrefix(TrimStart(s))
    case None => None
    case Some((v, _)) => Some(v)
  }

  /** `Number(s)` for a string: white space around is ignored, the empty
      string is 0, and otherwise the whole string must be one literal. */
  function ToNumber(s: string): (r: Option<real>)
    ensures Trim(s) == "" ==> r == Some(0.0)
  {
    var t := Trim(s);
    if t == "" then Some(0.0)
    else
      match DecimalPrefix(t)
      case Some((v, len)) => if len == |t| then Some(v) else None
      case None => None
  }

  lemma {:induction false} DigitsOfNat(n: nat)
    ensures forall i :: 0 <= i < |NatToString(n)| ==> IsDigit(NatToString(n)[i])
    ensures DigitsValue(NatToString(n)) == n
    ensures DigitRun(NatToString(n)) == |NatToString(n)|
    decreases n
  {
    var s := NatToString(n);
    if n >= 10 {
      DigitsOfNat(n / 10);
      assert s[..|s| - 1] == NatToString(n / 10);
      DigitRunAll(s);
    }
  }

  lemma {:induction false} DigitRunAll(s: string)
    requires forall i :: 0 <= i < |s| ==> IsDigit(s[i])
    ensures DigitRun(s) == |s|
    decreases |s|
  {
    if |s| > 0 { DigitRunAll(s[1..]); }
  }

  /** A non-empty run of digits is read whole, as its decimal value. */
  lemma DecimalPrefixOfDigits(s: string)
    requires |s| > 0 && DigitRun(s) == |s|
    requires forall i :: 0 <= i < |s| ==> IsDigit(s[i])
    ensures DecimalPrefix(s) == Some((DigitsValue(s) as real, |s|))
  {
    assert IsDigit(s[0]);
    assert !(s[0] == '+' || s[0] == '-');
    assert s[0..] == s;
    assert s[..|s|] == s;
    assert ExponentPart(s[|s|..]) == None;
  }

  /** `parseFloat(String(n)) == n` for every non-negative integer. */
  lemma ParseFloatOfNat(n: nat)
    ensures ParseFloat(NatToString(n)) == Some(n as real)
  {
    var s := NatToString(n);
    DigitsOfNat(n);
    assert TrimStart(s) == s;
    DecimalPrefixOfDigits(s);
  }
}
