/** The character classes used by the sentence-splitting regular expression
    of the rationale segmenter, as Python's `re` module interprets them for a
    `str` pattern. */
module CharClasses {

  /** `[A-Z]` */
  predicate IsUpper(c: char) {
    'A' <= c <= 'Z'
  }

  /** `[a-z]` */
  predicate IsLower(c: char) {
    'a' <= c <= 'z'
  }

  predicate IsDigit(c: char) {
    '0' <= c <= '9'
  }

  /** `\w`, restricted to its ASCII members: letters, digits and underscore. */
  predicate IsWord(c: char) {
    IsUpper(c) || IsLower(c) || IsDigit(c) || c == '_'
  }

  /** `\s`: every character Python's `str.isspace` accepts. */
  predicate IsSpace(c: char) {
    || c == ' '
    || '\t' <= c <= '\r'
    || '\U{1C}' <= c <= '\U{1F}'
    || c == '\U{85}'
    || c == '\U{A0}'
    || c == '\U{1680}'
    || '\U{2000}' <= c <= '\U{200A}'
    || c == '\U{2028}'
    || c == '\U{2029}'
    || c == '\U{202F}'
    || c == '\U{205F}'
    || c == '\U{3000}'
  }

  /** The regular-expression `.` without DOTALL: any character but a newline. */
  predicate IsAnyButNewline(c: char) {
    c != '\n'
  }

  /** A whitespace character is never a word character, a letter or one of
      the two sentence terminators; the split rule relies on this. */
  lemma SpaceIsNoOtherClass(c: char)
    requires IsSpace(c)
    ensures !IsWord(c) && !IsUpper(c) && !IsLower(c)
    ensures c != '.' && c != '?'
  {
  }
}
