/** JavaScript's `String.prototype.trim`, used by the browser code on every input value and
    button caption it compares. */
module JsText {
  import opened Strings

  /** WhiteSpace and LineTerminator code points of ECMAScript (section 12.2 and 12.3 of
      ECMA-262), the characters `trim()` removes. */
  predicate IsJsSpace(c: char) {
    || c == '\t' || c == '\n' || c == '\U{B}' || c == '\U{C}' || c == '\r' || c == ' '
    || c == '\U{A0}' || c == '\U{1680}' || ('\U{2000}' <= c <= '\U{200A}')
    || c == '\U{2028}' || c == '\U{2029}' || c == '\U{202F}' || c == '\U{205F}'
    || c == '\U{3000}' || c == '\U{FEFF}'
  }

  /** `s.trim()`: `Strip` with JavaScript's white space (see TrimIsStrip), written out
      for that set. */
  function Trim(s: string): string {
    TrimEnd(TrimStart(s))
  }

  function TrimStart(s: string): string {
    if |s| > 0 && IsJsSpace(s[0]) then TrimStart(s[1..]) else s
  }

  function TrimEnd(s: string): string {
    if |s| > 0 && IsJsSpace(s[|s| - 1]) then TrimEnd(s[..|s| - 1]) else s
  }

  lemma {:induction false} TrimIsStrip(s: string)
    ensures Trim(s) == Strip(s, IsJsSpace)
  {
    TrimStartIsStripStart(s);
    TrimEndIsStripEnd(TrimStart(s));
  }

  lemma {:induction false} TrimStartIsStripStart(s: string)
    ensures TrimStart(s) == StripStart(s, IsJsSpace)
  {
    if |s| > 0 && IsJsSpace(s[0]) {
      TrimStartIsStripStart(s[1..]);
    }
  }

  lemma {:induction false} TrimEndIsStripEnd(s: string)
    ensures TrimEnd(s) == StripEnd(s, IsJsSpace)
  {
    if |s| > 0 && IsJsSpace(s[|s| - 1]) {
      TrimEndIsStripEnd(s[..|s| - 1]);
    }
  }

  /** The trimmed string is the original without white space at either end. */
  lemma TrimShape(s: string)
    ensures exists a :: StripWindow(s, IsJsSpace, a, Trim(s))
    ensures var r := Trim(s); r == [] || (!IsJsSpace(r[0]) && !IsJsSpace(r[|r| - 1]))
  {
    TrimIsStrip(s);
    StripShape(s, IsJsSpace);
  }

  /** `if (!s.trim())` succeeds exactly for strings made only of white space (or empty). */
  lemma TrimEmptyIff(s: string)
    ensures Trim(s) == "" <==> forall i :: 0 <= i < |s| ==> IsJsSpace(s[i])
  {
    TrimIsStrip(s);
    StripEmptyIff(s, IsJsSpace);
  }

  lemma TrimIdempotent(s: string)
    ensures Trim(Trim(s)) == Trim(s)
  {
    TrimIsStrip(s);
    TrimIsStrip(Trim(s));
    StripIdempotent(s, IsJsSpace);
  }

  /** A string without white space at either end is its own trim; the button captions and
      notices the model compares against are such strings. */
  lemma TrimUnpadded(s: string)
    requires s == [] || (!IsJsSpace(s[0]) && !IsJsSpace(s[|s| - 1]))
    ensures Trim(s) == s
  {
    TrimIsStrip(s);
    StripUnpadded(s, IsJsSpace);
  }
}
