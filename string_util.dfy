/**
 * StringUtil.isBlank and the few java.lang.String operations the services
 * use (String.isBlank, startsWith, endsWith).
 */
module StringUtil {
  import opened Common

  /**
   * Character.isWhitespace: the Unicode space, line and paragraph
   * separators except the three no-break spaces, plus U+0009..U+000D and
   * U+001C..U+001F.
   */
  predicate IsWhitespace(c: char) {
    var n := c as int;
    || (0x09 <= n <= 0x0D) || (0x1C <= n <= 0x20)
    || n == 0x1680
    || (0x2000 <= n <= 0x2006) || (0x2008 <= n <= 0x200A)
    || n == 0x2028 || n == 0x2029 || n == 0x205F || n == 0x3000
  }

  /**
   * The index of the first non-whitespace character at or after `from`,
   * or |s| when there is none (String.indexOfNonWhitespace).
   */
  function IndexOfNonWhitespace(s: string, from: nat): (i: nat)
    requires from <= |s|
    decreases |s| - from
    ensures from <= i <= |s|
    ensures forall j :: from <= j < i ==> IsWhitespace(s[j])
    ensures i < |s| ==> !IsWhitespace(s[i])
  {
    if from == |s| then from
    else if IsWhitespace(s[from]) then IndexOfNonWhitespace(s, from + 1)
    else from
  }

  /** String.isBlank: empty or only whitespace code points. */
  predicate JavaIsBlank(s: string) {
    IndexOfNonWhitespace(s, 0) == |s|
  }

  /** StringUtil.isBlank: null, or String.isBlank. */
  predicate IsBlank(s: Option<string>) {
    s.None? || JavaIsBlank(s.value)
  }

  /** A string is blank exactly when every character is whitespace. */
  lemma BlankIffAllWhitespace(s: string)
    ensures JavaIsBlank(s) <==> forall i :: 0 <= i < |s| ==> IsWhitespace(s[i])
  {
    var k := IndexOfNonWhitespace(s, 0);
    if k < |s| {
      assert !IsWhitespace(s[k]);
    }
  }

  /** isBlank(null) and isBlank("") hold; a string with a non-whitespace
      character is not blank. */
  lemma IsBlankCases(s: string, i: nat)
    requires i < |s| && !IsWhitespace(s[i])
    ensures IsBlank(None) && IsBlank(Some(""))
    ensures !IsBlank(Some(s))
  {
    BlankIffAllWhitespace(s);
  }

  /** The blank strings from the locale tests: "", " " and "  ". */
  lemma BlankExamples()
    ensures IsBlank(Some("")) && IsBlank(Some(" ")) && IsBlank(Some("  "))
    ensures !IsBlank(Some("de-DE"))
  {
    assert IndexOfNonWhitespace("  ", 0) == 2;
    assert IndexOfNonWhitespace("de-DE", 0) == 0;
  }

  predicate StartsWith(s: string, prefix: string) {
    |prefix| <= |s| && s[..|prefix|] == prefix
  }

  predicate EndsWith(s: string, suffix: string) {
    |suffix| <= |s| && s[|s| - |suffix|..] == suffix
  }

  /** endsWith("/") is a test of the last character. */
  lemma EndsWithSlash(s: string)
    ensures EndsWith(s, "/") <==> (|s| > 0 && s[|s| - 1] == '/')
  {
  }
}
