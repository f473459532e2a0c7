/** Sequence and string helpers shared by the browser-side and the server-side models. */
module Strings {

  /** `p` is a prefix of `s`. */
  predicate IsPrefix<T(==)>(p: seq<T>, s: seq<T>) {
    |p| <= |s| && s[..|p|] == p
  }

  /** `needle` occurs in `hay` starting at position `i`. */
  predicate OccursAt(hay: string, needle: string, i: int) {
    0 <= i <= |hay| - |needle| && hay[i..i + |needle|] == needle
  }

  /** Substring containment. This is Python's `in` on strings and the meaning given here to
      Django's `icontains` lookup (case folding is not modelled). The empty needle is
      contained in every string, as `LIKE '%%'` matches every non-null value. */
  predicate Contains(hay: string, needle: string)
    decreases |hay|
  {
    IsPrefix(needle, hay) || (|hay| > 0 && Contains(hay[1..], needle))
  }

  /** Contains agrees with the positional definition of an occurrence. */
  lemma {:induction false} ContainsIffOccurs(hay: string, needle: string)
    ensures Contains(hay, needle) <==> exists i :: OccursAt(hay, needle, i)
    decreases |hay|
  {
    if |hay| > 0 {
      ContainsIffOccurs(hay[1..], needle);
    }
    if Contains(hay, needle) {
      if IsPrefix(needle, hay) {
        assert OccursAt(hay, needle, 0);
      } else {
        var i :| OccursAt(hay[1..], needle, i);
        assert hay[1..][i..i + |needle|] == hay[i + 1..i + 1 + |needle|];
        assert OccursAt(hay, needle, i + 1);
      }
    }
    if exists i :: OccursAt(hay, needle, i) {
      var i :| OccursAt(hay, needle, i);
      if i == 0 {
        assert IsPrefix(needle, hay);
      } else {
        assert hay[1..][i - 1..i - 1 + |needle|] == hay[i..i + |needle|];
        assert OccursAt(hay[1..], needle, i - 1);
      }
    }
  }

  /** Every string contains itself and the empty string. */
  lemma ContainsSelfAndEmpty(s: string)
    ensures Contains(s, s) && Contains(s, "")
  {
    assert IsPrefix(s, s);
    assert IsPrefix("", s);
  }

  /** The first `n` elements, or all of them when there are fewer: JavaScript's
      `substring(0, n)` and Python's slice `[:n]` for a non-negative `n`. */
  function Take<T>(s: seq<T>, n: nat): (r: seq<T>)
    ensures |r| == if |s| < n then |s| else n
    ensures r == s[..|r|]
  {
    if |s| <= n then s else s[..n]
  }

  /** `r` is `s` with `a` white-space characters removed in front and only white space
      removed behind. */
  predicate StripWindow(s: string, space: char -> bool, a: int, r: string) {
    && 0 <= a <= a + |r| <= |s|
    && r == s[a..a + |r|]
    && (forall i :: 0 <= i < a ==> space(s[i]))
    && (forall i :: a + |r| <= i < |s| ==> space(s[i]))
  }

  /** Removes the leading and trailing characters for which `space` holds; both
      JavaScript's `trim()` and Python's `strip()` are this with their own white-space set.
      Its properties are the lemmas below. */
  function Strip(s: string, space: char -> bool): string {
    StripEnd(StripStart(s, space), space)
  }

  function StripStart(s: string, space: char -> bool): string {
    if |s| > 0 && space(s[0]) then StripStart(s[1..], space) else s
  }

  function StripEnd(s: string, space: char -> bool): string {
    if |s| > 0 && space(s[|s| - 1]) then StripEnd(s[..|s| - 1], space) else s
  }

  lemma {:induction false} StripStartShape(s: string, space: char -> bool)
    ensures var r := StripStart(s, space);
      && |r| <= |s| && r == s[|s| - |r|..]
      && (forall i :: 0 <= i < |s| - |r| ==> space(s[i]))
      && (r == [] || !space(r[0]))
  {
    if |s| > 0 && space(s[0]) {
      StripStartShape(s[1..], space);
    }
  }

  lemma {:induction false} StripEndShape(s: string, space: char -> bool)
    ensures var r := StripEnd(s, space);
      && |r| <= |s| && r == s[..|r|]
      && (forall i :: |r| <= i < |s| ==> space(s[i]))
      && (r == [] || !space(r[|r| - 1]))
  {
    if |s| > 0 && space(s[|s| - 1]) {
      StripEndShape(s[..|s| - 1], space);
    }
  }

  /** The stripped string is a window of the original with only white space outside it,
      and it neither starts nor ends with white space. */
  lemma StripShape(s: string, space: char -> bool)
    ensures exists a :: StripWindow(s, space, a, Strip(s, space))
    ensures var r := Strip(s, space); r == [] || (!space(r[0]) && !space(r[|r| - 1]))
  {
    var t := StripStart(s, space);
    StripStartShape(s, space);
    StripEndShape(t, space);
    assert StripWindow(s, space, |s| - |t|, Strip(s, space));
  }

  /** Stripping yields the empty string exactly when every character is white space. */
  lemma StripEmptyIff(s: string, space: char -> bool)
    ensures Strip(s, space) == "" <==> forall i :: 0 <= i < |s| ==> space(s[i])
  {
    var r := Strip(s, space);
    StripShape(s, space);
    var a :| StripWindow(s, space, a, r);
    if r != [] {
      assert r[0] == s[a];
      assert !space(s[a]);
    }
  }

  /** Stripping a string that neither starts nor ends with white space changes nothing. */
  lemma StripUnpadded(s: string, space: char -> bool)
    requires s == [] || (!space(s[0]) && !space(s[|s| - 1]))
    ensures Strip(s, space) == s
  {
  }

  /** Stripping twice is stripping once. */
  lemma StripIdempotent(s: string, space: char -> bool)
    ensures Strip(Strip(s, space), space) == Strip(s, space)
  {
    StripShape(s, space);
    StripUnpadded(Strip(s, space), space);
  }

  // ---- decimal numerals ----

  predicate IsDigit(c: char) {
    '0' <= c <= '9'
  }

  predicate AllDigits(s: string) {
    forall i :: 0 <= i < |s| ==> IsDigit(s[i])
  }

  function DigitChar(d: nat): (c: char)
    requires d < 10
    ensures IsDigit(c) && c as int - '0' as int == d
  {
    ('0' as int + d) as char
  }

  /** The value of a string of decimal digits (0 for the empty string). */
  function DigitsValue(s: string): nat
    requires AllDigits(s)
  {
    if s == [] then 0
    else DigitsValue(s[..|s| - 1]) * 10 + (s[|s| - 1] as int - '0' as int)
  }

  /** The decimal numeral of `n` without leading zeros, as JavaScript's template literals
      render a non-negative integer. */
  function NatToString(n: nat): (r: string)
    ensures r != [] && AllDigits(r)
    ensures |r| > 1 ==> r[0] != '0'
  {
    if n < 10 then [DigitChar(n)] else NatToString(n / 10) + [DigitChar(n % 10)]
  }

  /** Reading the numeral back gives the number. */
  lemma {:induction false} DigitsValueOfNatToString(n: nat)
    ensures DigitsValue(NatToString(n)) == n
  {
    if n >= 10 {
      DigitsValueOfNatToString(n / 10);
      var s := NatToString(n);
      assert s[..|s| - 1] == NatToString(n / 10);
    }
  }
}
