/** The part of JavaScript's string semantics the form relies on:
    `String.prototype.trim`, which strips the ECMAScript WhiteSpace and
    LineTerminator code points from both ends. */
module JsString {

  /** ECMAScript WhiteSpace (TAB, VT, FF, ZWNBSP and the Unicode space
      separators Zs) and LineTerminator (LF, CR, LS, PS). */
  predicate IsWhitespace(c: char)
  {
    || c == '\t' || c == '\n' || c == '\U{000B}' || c == '\U{000C}' || c == '\r'
    || c == ' ' || c == '\U{00A0}' || c == '\U{1680}'
    || ('\U{2000}' <= c <= '\U{200A}')
    || c == '\U{2028}' || c == '\U{2029}' || c == '\U{202F}' || c == '\U{205F}'
    || c == '\U{3000}' || c == '\U{FEFF}'
  }

  /** Every character of `s` is whitespace. */
  predicate AllWhitespace(s: string)
  {
    forall i :: 0 <= i < |s| ==> IsWhitespace(s[i])
  }

  /** `s` without its leading whitespace. */
  function TrimStart(s: string): (r: string)
    ensures |r| <= |s| && r == s[|s| - |r|..]
    ensures r == [] || !IsWhitespace(r[0])
    ensures AllWhitespace(s[..|s| - |r|])
  {
    if s != [] && IsWhitespace(s[0]) then TrimStart(s[1..]) else s
  }

  /** `s` without its trailing whitespace. */
  function TrimEnd(s: string): (r: string)
    ensures |r| <= |s| && r == s[..|r|]
    ensures r == [] || !IsWhitespace(r[|r| - 1])
    ensures AllWhitespace(s[|r|..])
  {
    if s != [] && IsWhitespace(s[|s| - 1]) then TrimEnd(s[..|s| - 1]) else s
  }

  /** `s.trim()`: at most as long as `s`, and when not empty it neither
      starts nor ends with whitespace. */
  function Trim(s: string): (r: string)
    ensures |r| <= |s|
    ensures r == [] || (!IsWhitespace(r[0]) && !IsWhitespace(r[|r| - 1]))
  {
    TrimEnd(TrimStart(s))
  }

  /** The form's guard `!s.trim()`: the trimmed string is empty, which
      happens exactly when every character is whitespace (the empty string
      included). */
  predicate IsBlank(s: string): (b: bool)
    ensures b <==> AllWhitespace(s)
  {
    Trim(s) == ""
  }

  /** Trimming cuts `s` into whitespace, the trimmed text and whitespace:
      the result is the contiguous middle of `s`. */
  lemma TrimSplits(s: string) returns (lead: string, trail: string)
    ensures s == lead + Trim(s) + trail
    ensures AllWhitespace(lead) && AllWhitespace(trail)
  {
    var u := TrimStart(s);
    var r := TrimEnd(u);
    lead := s[..|s| - |u|];
    trail := u[|r|..];
    ThreeWaySplit(s, |s| - |u|, |r|);
  }

  /** Cutting a sequence at `k` and its rest at `j` and gluing the three
      pieces back gives the sequence. */
  lemma ThreeWaySplit<T>(s: seq<T>, k: nat, j: nat)
    requires k + j <= |s|
    ensures s == s[..k] + s[k..][..j] + s[k..][j..]
  {
    assert s[k..] == s[k..][..j] + s[k..][j..];
  }

  /** A title that passes the form's blank check is not empty, so the
      board's own `!title` check lets it through. */
  lemma NotBlankIsNonEmpty(s: string)
    ensures !IsBlank(s) ==> s != ""
  {
  }
}
