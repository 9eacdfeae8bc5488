/**
 * Character classes of the JavaScript regular expressions the OOM parser uses.
 * All patterns run without the `u` flag, so classes are the ES2015 ASCII-plus-whitespace ones.
 */
module Chars {
  /** `\d` */
  predicate IsDigit(c: char) { '0' <= c <= '9' }

  /** `\w` (unchanged by the `i` flag without `u`) */
  predicate IsWordChar(c: char) { 'a' <= c <= 'z' || 'A' <= c <= 'Z' || IsDigit(c) || c == '_' }

  /** `[0-9a-f]` matched under the `i` flag */
  predicate IsHexDigit(c: char) { IsDigit(c) || 'a' <= c <= 'f' || 'A' <= c <= 'F' }

  /** `[0-9a-f:]` matched under the `i` flag */
  predicate IsHexOrColon(c: char) { IsHexDigit(c) || c == ':' }

  /** The line terminators, which `.` does not match. */
  predicate IsLineTerminator(c: char) {
    c == '\n' || c == '\r' || c == '\U{2028}' || c == '\U{2029}'
  }

  /** `\s`: white space and line terminators; also exactly what `String.prototype.trim` removes. */
  predicate IsSpace(c: char) {
    || c == '\t' || c == '\U{000B}' || c == '\U{000C}' || c == ' ' || c == '\U{00A0}'
    || c == '\U{1680}' || ('\U{2000}' <= c <= '\U{200A}') || c == '\U{202F}' || c == '\U{205F}'
    || c == '\U{3000}' || c == '\U{FEFF}' || IsLineTerminator(c)
  }

  /** `\S` */
  predicate IsNonSpace(c: char) { !IsSpace(c) }

  /** `.` */
  predicate IsAnyButTerminator(c: char) { !IsLineTerminator(c) }

  /**
   * Canonical form used by the `i` flag.  Without `u` a non-ASCII character never folds onto an
   * ASCII one, and every pattern character here is ASCII, so ASCII upper-casing decides equality.
   */
  function Upper(c: char): char {
    if 'a' <= c <= 'z' then (c as int - 32) as char else c
  }

  predicate SameIgnoringCase(c: char, p: char) { Upper(c) == Upper(p) }

  lemma {:induction false} SpaceIsNotWordOrDigit(c: char)
    requires IsSpace(c)
    ensures !IsWordChar(c) && !IsDigit(c) && !IsHexOrColon(c)
  {}
}
