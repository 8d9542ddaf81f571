/**
 * Character classes used by the regular expressions and string methods of
 * the chatbot, restricted to ASCII.
 *
 * - IsSpace is the ASCII part of what Python counts as whitespace: the same
 *   set is used by the regex class `\s`, by `str.strip()` and by `str.split()`.
 * - IsWordChar is the ASCII part of the regex class `\w` (letters, digits, `_`),
 *   which decides where `\b` holds.
 * - Lower and EqualsIgnoreCase give the ASCII part of `re.IGNORECASE`.
 */
module Chars {

  /** Tab, line feed, vertical tab, form feed, carriage return, the four
      information separators 0x1C..0x1F, and space. */
  predicate IsSpace(c: char) {
    var n := c as int;
    n == 32 || 9 <= n <= 13 || 28 <= n <= 31
  }

  predicate IsLower(c: char) {
    'a' <= c <= 'z'
  }

  predicate IsUpper(c: char) {
    'A' <= c <= 'Z'
  }

  /** The regex class `[a-zA-Z]`. */
  predicate IsLetter(c: char) {
    IsLower(c) || IsUpper(c)
  }

  predicate IsDigit(c: char) {
    '0' <= c <= '9'
  }

  /** The regex class `\w`. */
  predicate IsWordChar(c: char) {
    IsLetter(c) || IsDigit(c) || c == '_'
  }

  /** ASCII lower-casing: the case folding `re.IGNORECASE` applies. */
  function Lower(c: char): (r: char)
    ensures IsUpper(c) ==> IsLower(r) && r as int == c as int + 32
    ensures !IsUpper(c) ==> r == c
  {
    if IsUpper(c) then (c as int + 32) as char else c
  }

  /** A letter is never whitespace, so the two classes of `[a-zA-Z\s]` are disjoint. */
  lemma LetterIsNotSpace(c: char)
    requires IsLetter(c)
    ensures !IsSpace(c) && IsWordChar(c)
  {
  }

  /** Case-insensitive equality of two strings of the same length, character by character. */
  predicate EqualsIgnoreCase(s: string, t: string) {
    |s| == |t| && forall j :: 0 <= j < |s| ==> Lower(s[j]) == Lower(t[j])
  }

  /** Every character is a lower-case ASCII letter: the shape of every keyword
      in the chatbot's patterns. */
  predicate IsLowerWord(w: string) {
    w != [] && forall j :: 0 <= j < |w| ==> IsLower(w[j])
  }

  /** A character that matches a lower-case letter ignoring case is a letter,
      hence a word character and not whitespace. */
  lemma MatchedLetterIsWordChar(c: char, k: char)
    requires IsLower(k) && Lower(c) == Lower(k)
    ensures IsLetter(c) && IsWordChar(c) && !IsSpace(c)
  {
  }
}
