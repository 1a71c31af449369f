/** The string tests the launcher relies on: `String.startsWith` and Spring's
    `StringUtils.hasText`. Strings are sequences of characters. */
module Text {

  /** `s.startsWith(prefix)` */
  predicate StartsWith(s: string, prefix: string)
  {
    |prefix| <= |s| && s[..|prefix|] == prefix
  }

  /** `Character.isWhitespace(c)`: the Unicode space, line and paragraph
      separators other than the three non-breaking spaces, plus the ASCII
      controls tab, line feed, vertical tab, form feed, carriage return and
      the four information separators. */
  predicate IsWhitespace(c: char)
  {
    || c == ' ' || c == '\t' || c == '\n' || c == '\U{000B}' || c == '\U{000C}' || c == '\r'
    || ('\U{001C}' <= c <= '\U{001F}')
    || c == '\U{1680}'
    || ('\U{2000}' <= c <= '\U{200A}' && c != '\U{2007}')
    || c == '\U{2028}' || c == '\U{2029}' || c == '\U{205F}' || c == '\U{3000}'
  }

  /** `StringUtils.hasText(s)` for a non-null `s`: some character is not whitespace. */
  predicate HasText(s: string)
  {
    exists i :: 0 <= i < |s| && !IsWhitespace(s[i])
  }
}
