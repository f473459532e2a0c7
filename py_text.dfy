/** Python's `int(str)` for base 10, which the policy search applies to the age field. */
module PyText {
  import opened Strings
  import opened Wrappers

  /** The characters for which Python's `str.isspace()` is true; `int()` ignores them at
      either end of its argument. */
  predicate IsPySpace(c: char) {
    || ('\t' <= c <= '\r') || ('\U{1C}' <= c <= '\U{1F}') || c == ' '
    || c == '\U{85}' || c == '\U{A0}' || c == '\U{1680}' || ('\U{2000}' <= c <= '\U{200A}')
    || c == '\U{2028}' || c == '\U{2029}' || c == '\U{202F}' || c == '\U{205F}'
    || c == '\U{3000}'
  }

  /** A digit group as the base-10 `int()` accepts it: digits, where a single underscore
      may stand between two digits. */
  predicate IsDigitGroup(t: string) {
    && |t| > 0
    && IsDigit(t[0]) && IsDigit(t[|t| - 1])
    && (forall i :: 0 <= i < |t| ==> IsDigit(t[i]) || t[i] == '_')
    && (forall i :: 0 <= i < |t| - 1 ==> !(t[i] == '_' && t[i + 1] == '_'))
  }

  /** The digits of `t` with the underscores dropped. */
  function DropUnderscores(t: string): (r: string)
    requires forall i :: 0 <= i < |t| ==> IsDigit(t[i]) || t[i] == '_'
    ensures AllDigits(r) && |r| <= |t|
    ensures AllDigits(t) ==> r == t
  {
    if t == [] then []
    else (if t[0] == '_' then [] else [t[0]]) + DropUnderscores(t[1..])
  }

  /** `int(s)`: `Some(value)` when `s` is a base-10 integer literal with optional sign and
      surrounding white space, `None` where Python raises `ValueError`. Unicode decimal
      digits other than ASCII, which Python also accepts, are not modelled. */
  function ParseInt(s: string): (r: Option<int>)
  {
    var t := Strip(s, IsPySpace);
    if |t| > 0 && (t[0] == '+' || t[0] == '-') then
      var g := t[1..];
      if IsDigitGroup(g) then
        var v: int := DigitsValue(DropUnderscores(g));
        Some(if t[0] == '-' then -v else v)
      else None
    else if IsDigitGroup(t) then Some(DigitsValue(DropUnderscores(t)))
    else None
  }

  /** A decimal numeral is a digit group whose value is the number it was written for. */
  lemma NumeralIsDigitGroup(n: nat)
    ensures IsDigitGroup(NatToString(n))
    ensures DigitsValue(DropUnderscores(NatToString(n))) == n
  {
    DigitsValueOfNatToString(n);
  }

  /** The numeral a browser number field holds parses back to its value. */
  lemma ParseIntOfNatToString(n: nat)
    ensures ParseInt(NatToString(n)) == Some(n)
  {
    var s := NatToString(n);
    assert !IsPySpace(s[0]) && !IsPySpace(s[|s| - 1]);
    StripUnpadded(s, IsPySpace);
    NumeralIsDigitGroup(n);
  }

  /** A leading minus sign negates. */
  lemma ParseIntOfNegative(n: nat)
    ensures ParseInt("-" + NatToString(n)) == Some(-(n as int))
  {
    var d := NatToString(n);
    var s := "-" + d;
    assert !IsPySpace(s[0]) && !IsPySpace(s[|s| - 1]);
    StripUnpadded(s, IsPySpace);
    assert s[0] == '-' && s[1..] == d;
    NumeralIsDigitGroup(n);
  }

  /** Strings of white space only, among them the empty string, are not integers. */
  lemma ParseIntOfBlank(s: string)
    requires forall i :: 0 <= i < |s| ==> IsPySpace(s[i])
    ensures ParseInt(s) == None
  {
    StripEmptyIff(s, IsPySpace);
  }
}
