/**
 * The character classes the registration form tests with regular
 * expressions. A `char` stands for one UTF-16 code unit of a JavaScript
 * string, so `|s|` is JavaScript's `s.length`.
 */
module Chars {

  /** `[a-zA-Z]` */
  predicate IsAsciiLetter(c: char) {
    'a' <= c <= 'z' || 'A' <= c <= 'Z'
  }

  /** `[0-9]` */
  predicate IsAsciiDigit(c: char) {
    '0' <= c <= '9'
  }

  /**
   * The bracket class shared by the id, password and name checks:
   * ! @ # $ % ^ & * ( ) _ + = [ ] { } ; ' : " \ | , . < > ?
   * It holds `_` but not `-`, `/`, `~`, the backtick or the space.
   */
  const SpecialChars: set<char> :=
    {'!', '@', '#', '$', '%', '^', '&', '*', '(', ')', '_', '+', '=', '[', ']',
     '{', '}', ';', '\'', ':', '"', '\\', '|', ',', '.', '<', '>', '?'}

  predicate IsSpecial(c: char) {
    c in SpecialChars
  }

  /** `[a-zA-Z0-9_-]`, the characters a nickname may use. */
  predicate IsNickChar(c: char) {
    IsAsciiLetter(c) || IsAsciiDigit(c) || c == '_' || c == '-'
  }

  /**
   * JavaScript's white space and line terminators: the set matched by `\s`
   * and removed by `String.prototype.trim`.
   */
  predicate IsJsWhitespace(c: char) {
    c in {'\t', '\n', '\U{000B}', '\U{000C}', '\r', ' ', '\U{00A0}', '\U{1680}',
          '\U{2028}', '\U{2029}', '\U{202F}', '\U{205F}', '\U{3000}', '\U{FEFF}'}
    || '\U{2000}' <= c <= '\U{200A}'
  }

  /** `/[a-zA-Z]/.test(s)` */
  predicate HasLetter(s: string) {
    exists i | 0 <= i < |s| :: IsAsciiLetter(s[i])
  }

  /** `/[0-9]/.test(s)` */
  predicate HasDigit(s: string) {
    exists i | 0 <= i < |s| :: IsAsciiDigit(s[i])
  }

  /** The special-character regex's `.test(s)`. */
  predicate HasSpecial(s: string) {
    exists i | 0 <= i < |s| :: IsSpecial(s[i])
  }

  /** `/[^a-zA-Z0-9_-]/.test(s)` */
  predicate HasNonNickChar(s: string) {
    exists i | 0 <= i < |s| :: !IsNickChar(s[i])
  }

  /** `/^[a-zA-Z0-9_-]*$/.test(s)` */
  predicate AllNickChars(s: string) {
    forall i | 0 <= i < |s| :: IsNickChar(s[i])
  }

  /** Every character of `s` is matched by `\S`. */
  predicate NoWhitespace(s: string) {
    forall i | 0 <= i < |s| :: !IsJsWhitespace(s[i])
  }

  /** The id rule's special-character test as it treats a few characters. */
  lemma SpecialSetMembers()
    ensures IsSpecial('_') && IsSpecial('@') && IsSpecial('.') && IsSpecial('\\')
    ensures !IsSpecial('-') && !IsSpecial('~') && !IsSpecial(' ') && !IsSpecial('/') && !IsSpecial('`')
    ensures !IsSpecial('가') && !IsSpecial('한')
  {
  }
}
