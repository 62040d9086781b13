/**
 * Python's `float(text)` as a partial parser into the reals, and `str(n)` for
 * naturals. Quantities and amounts are reals throughout the model.
 */
module Numbers {
  import opened Wrappers
  import opened Text

  function Abs(x: real): real {
    if x < 0.0 then -x else x
  }

  predicate DigitString(s: string) {
    forall i :: 0 <= i < |s| ==> IsDigit(s[i])
  }

  /** The value of a string of decimal digits, most significant first. */
  function NatValue(ds: string): nat
    requires DigitString(ds)
    decreases |ds|
  {
    if ds == [] then 0 else NatValue(ds[..|ds| - 1]) * 10 + DigitValue(ds[|ds| - 1])
  }

  /** The value of the digits after a decimal point. */
  function FracValue(ds: string): (x: real)
    requires DigitString(ds)
    ensures 0.0 <= x < 1.0
    decreases |ds|
  {
    if ds == [] then 0.0 else (DigitValue(ds[0]) as real + FracValue(ds[1..])) / 10.0
  }

  /** Index of the first '.' (or the length when there is none). */
  function FirstDot(s: string): (k: nat)
    ensures k <= |s|
    ensures forall i :: 0 <= i < k ==> s[i] != '.'
    ensures k < |s| ==> s[k] == '.'
    decreases |s|
  {
    if s == [] || s[0] == '.' then 0 else 1 + FirstDot(s[1..])
  }

  /** Digits with at most one '.', at least one digit in all. */
  function ParseUnsigned(b: string): (r: Option<real>)
    ensures r.Some? ==> r.value >= 0.0
  {
    var k := FirstDot(b);
    var ip := b[..k];
    var fp := if k < |b| then b[k + 1..] else [];
    if DigitString(ip) && DigitString(fp) && |ip| + |fp| > 0 then Some(NatValue(ip) as real + FracValue(fp))
    else None
  }

  /**
   * `float(s)` restricted to surrounding whitespace, an optional sign and a
   * decimal literal: no exponent, `inf`, `nan` or `_` separators.
   */
  function ParseFloat(s: string): Option<real> {
    ParseSigned(Strip(s))
  }

  /** An optional sign and a decimal literal, nothing around them. */
  function ParseSigned(t: string): Option<real> {
    if t == [] then None
    else if t[0] == '-' || t[0] == '+' then
      match ParseUnsigned(t[1..])
      case Some(v) => Some(if t[0] == '-' then -v else v)
      case None => None
    else ParseUnsigned(t)
  }

  /** Whatever `ParseFloat` accepts holds a digit; it has no `inf` or `nan` forms. */
  lemma {:induction false} ParseFloatHasDigit(s: string)
    requires ParseFloat(s).Some?
    ensures exists i :: 0 <= i < |s| && IsDigit(s[i])
  {
    SignedHasDigit(Strip(s));
    var i :| 0 <= i < |Strip(s)| && IsDigit(Strip(s)[i]);
    StripAt(s, i);
  }

  lemma {:induction false} SignedHasDigit(t: string)
    requires ParseSigned(t).Some?
    ensures exists i :: 0 <= i < |t| && IsDigit(t[i])
  {
    if t[0] == '-' || t[0] == '+' {
      UnsignedHasDigit(t[1..]);
      var i :| 0 <= i < |t[1..]| && IsDigit(t[1..][i]);
      assert IsDigit(t[1 + i]);
    } else {
      UnsignedHasDigit(t);
    }
  }

  lemma {:induction false} UnsignedHasDigit(b: string)
    requires ParseUnsigned(b).Some?
    ensures exists i :: 0 <= i < |b| && IsDigit(b[i])
  {
    var k := FirstDot(b);
    if k > 0 { assert IsDigit(b[..k][0]); assert IsDigit(b[0]); }
    else { assert IsDigit(b[k + 1..][0]); assert IsDigit(b[k + 1]); }
  }

  function DigitChar(d: nat): (c: char)
    requires d < 10
    ensures IsDigit(c) && DigitValue(c) == d
  {
    (d + '0' as int) as char
  }

  /** `str(n)` for a natural number. */
  function DecimalString(n: nat): (s: string)
    ensures |s| > 0 && DigitString(s)
    decreases n
  {
    if n < 10 then [DigitChar(n)] else DecimalString(n / 10) + [DigitChar(n % 10)]
  }

  /** `str(n)` writes ASCII digits only. */
  lemma {:induction false} DecimalStringAscii(n: nat)
    ensures forall i :: 0 <= i < |DecimalString(n)| ==> IsAsciiDigit(DecimalString(n)[i])
    decreases n
  {
    if n >= 10 {
      DecimalStringAscii(n / 10);
      var s := DecimalString(n);
      assert s == DecimalString(n / 10) + [DigitChar(n % 10)];
    }
  }

  lemma {:induction false} NatValueOfDecimalString(n: nat)
    ensures NatValue(DecimalString(n)) == n
    decreases n
  {
    var s := DecimalString(n);
    if n < 10 {
      assert s[..|s| - 1] == [];
    } else {
      NatValueOfDecimalString(n / 10);
      assert s[..|s| - 1] == DecimalString(n / 10);
    }
  }

  /** `float(str(n)) == n` */
  lemma {:induction false} ParseDecimalString(n: nat)
    ensures ParseFloat(DecimalString(n)) == Some(n as real)
  {
    ParsePlainDigits(DecimalString(n));
    NatValueOfDecimalString(n);
  }

  /** The value `ParseUnsigned` gives for digits, a dot and digits. */
  lemma {:induction false} ParseUnsignedParts(b: string, k: nat, fp: string)
    requires k == FirstDot(b) && fp == (if k < |b| then b[k + 1..] else [])
    requires DigitString(b[..k]) && DigitString(fp) && k > 0
    ensures ParseUnsigned(b) == Some(NatValue(b[..k]) as real + FracValue(fp))
  {
  }

  /** `float` reads a string that starts and ends with a digit as `ParseUnsigned` does. */
  lemma {:induction false} ParseFloatUnsigned(t: string)
    requires t != [] && IsDigit(t[0]) && IsDigit(t[|t| - 1])
    ensures ParseFloat(t) == ParseUnsigned(t)
  {
    assert t[0] != '-' && t[0] != '+';
    assert ParseSigned(t) == ParseUnsigned(t);
    StripUnspaced(t);
  }
  /** A plain decimal literal with no sign and no surrounding space parses to the value of its two digit runs. */
  lemma {:induction false} ParseFloatParts(t: string, k: nat, fp: string)
    requires t != [] && IsDigit(t[0]) && IsDigit(t[|t| - 1])
    requires k == FirstDot(t) && fp == (if k < |t| then t[k + 1..] else [])
    requires DigitString(t[..k]) && DigitString(fp) && k > 0
    ensures ParseFloat(t) == Some(NatValue(t[..k]) as real + FracValue(fp))
  {
    ParseFloatUnsigned(t);
    ParseUnsignedParts(t, k, fp);
  }

  /** Text holding no digit does not parse under `ParseFloat`, which has no `inf` or `nan` forms. */
  lemma {:induction false} ParseFloatNoDigit(s: string)
    requires forall i :: 0 <= i < |s| ==> !IsDigit(s[i])
    ensures ParseFloat(s).None?
  {
    if ParseFloat(s).Some? {
      ParseFloatHasDigit(s);
      assert false;
    }
  }

  /** `float` of a non-empty string of digits is its value. */
  lemma {:induction false} ParsePlainDigits(s: string)
    requires |s| > 0 && DigitString(s)
    ensures ParseFloat(s) == Some(NatValue(s) as real)
  {
    assert ParseSigned(s) == Some(NatValue(s) as real) by {
      assert IsDigit(s[0]);
      NoDot(s);
      assert s[..|s|] == s;
    }
    assert Strip(s) == s by { StripUnspaced(s); }
  }

  lemma {:induction false} NoDot(s: string)
    requires DigitString(s)
    ensures FirstDot(s) == |s|
    decreases |s|
  {
    if s != [] { NoDot(s[1..]); }
  }
}
