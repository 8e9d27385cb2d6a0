/**
 * Whitespace and `String.prototype.trim`, as the contact form uses them.
 *
 * ECMAScript gives the regular-expression class `\s` and `trim` the same
 * character set: the WhiteSpace code points (tab, vertical tab, form feed,
 * the byte-order mark and every Unicode space separator) together with the
 * LineTerminator code points (line feed, carriage return, line and
 * paragraph separators).
 */
module Text {

  /** The characters matched by `\s` and removed by `trim`. */
  predicate IsWs(c: char)
  {
    || c == '\t' || c == '\U{000B}' || c == '\U{000C}' || c == '\U{FEFF}'
    || c == ' ' || c == '\U{00A0}' || c == '\U{1680}'
    || ('\U{2000}' <= c <= '\U{200A}')
    || c == '\U{202F}' || c == '\U{205F}' || c == '\U{3000}'
    || c == '\n' || c == '\r' || c == '\U{2028}' || c == '\U{2029}'
  }

  /** Every character of `s` is whitespace (vacuously true of ""). */
  predicate AllWs(s: string)
  {
    forall j | 0 <= j < |s| :: IsWs(s[j])
  }

  /** `s` with its leading whitespace removed. */
  function TrimStart(s: string): string
  {
    if |s| > 0 && IsWs(s[0]) then TrimStart(s[1..]) else s
  }

  /** `s` with its trailing whitespace removed. */
  function TrimEnd(s: string): string
  {
    if |s| > 0 && IsWs(s[|s| - 1]) then TrimEnd(s[..|s| - 1]) else s
  }

  /** `s.trim()`: whitespace removed from both ends. */
  function Trim(s: string): string
  {
    TrimEnd(TrimStart(s))
  }

  /** `!s.trim()`: the string is falsy (empty) after trimming. */
  predicate IsBlank(s: string)
  {
    Trim(s) == []
  }

  /**
   * `r` is what is left of `s` once the whitespace prefix `s[..a]` and the
   * whitespace suffix after `r` are removed.
   */
  predicate TrimmedAt(s: string, r: string, a: int)
  {
    && 0 <= a <= |s| - |r|
    && r == s[a..a + |r|]
    && AllWs(s[..a])
    && AllWs(s[a + |r|..])
  }

  /** TrimStart removes a whitespace prefix and stops at the first other character. */
  lemma {:induction false} TrimStartSpec(s: string)
    ensures var r := TrimStart(s);
            && |r| <= |s| && r == s[|s| - |r|..]
            && AllWs(s[..|s| - |r|])
            && (r == [] || !IsWs(r[0]))
  {
    if |s| > 0 && IsWs(s[0]) {
      TrimStartSpec(s[1..]);
      var r := TrimStart(s[1..]);
      assert s[..|s| - |r|] == [s[0]] + s[1..][..|s| - 1 - |r|];
    }
  }

  /** TrimEnd removes a whitespace suffix and stops at the last other character. */
  lemma {:induction false} TrimEndSpec(s: string)
    ensures var r := TrimEnd(s);
            && |r| <= |s| && r == s[..|r|]
            && AllWs(s[|r|..])
            && (r == [] || !IsWs(r[|r| - 1]))
  {
    if |s| > 0 && IsWs(s[|s| - 1]) {
      TrimEndSpec(s[..|s| - 1]);
      var r := TrimEnd(s[..|s| - 1]);
      assert s[|r|..] == s[..|s| - 1][|r|..] + [s[|s| - 1]];
    }
  }

  /**
   * `s.trim()` is the slice of `s` left after removing the whitespace on
   * both ends, and it neither starts nor ends with whitespace.
   */
  lemma TrimSpec(s: string)
    ensures TrimmedAt(s, Trim(s), |s| - |TrimStart(s)|)
    ensures Trim(s) != [] ==> !IsWs(Trim(s)[0]) && !IsWs(Trim(s)[|Trim(s)| - 1])
  {
    var t := TrimStart(s);
    TrimStartSpec(s);
    TrimEndSpec(t);
    TrimTwoSteps(s, t, TrimEnd(t));
  }

  /** A string is blank after trimming exactly when it holds nothing but whitespace. */
  lemma BlankIffAllWs(s: string)
    ensures IsBlank(s) <==> AllWs(s)
  {
    var t := TrimStart(s);
    TrimStartSpec(s);
    TrimEndSpec(t);
    TrimTwoSteps(s, t, TrimEnd(t));
  }

  /**
   * The same, stated for any `t` that is `s` without a whitespace prefix and
   * whose first character is not whitespace, and any `r` that is `t` without
   * a whitespace suffix.
   */
  lemma TrimTwoSteps(s: string, t: string, r: string)
    requires |t| <= |s| && t == s[|s| - |t|..] && AllWs(s[..|s| - |t|])
    requires t == [] || !IsWs(t[0])
    requires |r| <= |t| && r == t[..|r|] && AllWs(t[|r|..])
    requires r == [] || !IsWs(r[|r| - 1])
    ensures TrimmedAt(s, r, |s| - |t|)
    ensures r != [] ==> !IsWs(r[0]) && !IsWs(r[|r| - 1])
    ensures r == [] <==> AllWs(s)
  {
  }
}
