/** The byte classes of PostgreSQL's lexer that a WHEN condition is read with. A clause is a string
    whose characters stand for bytes; everything from 0x80 up belongs to a word, as in scan.l. */
module WhenBytes {
  const STRING_QUOTE := '\''
  const IDENTIFIER_QUOTE := '"'
  const FIELD_SELECTOR := '.'
  const FIRST_ABOVE_ASCII := 0x80

  predicate IsWordStart(c: char) {
    'a' <= c <= 'z' || 'A' <= c <= 'Z' || c == '_' || c as int >= FIRST_ABOVE_ASCII
  }

  predicate IsTagByte(c: char) {
    IsWordStart(c) || '0' <= c <= '9'
  }

  predicate IsWordByte(c: char) {
    IsTagByte(c) || c == '$'
  }

  predicate IsNewline(c: char) {
    c == '\n' || c == '\r'
  }

  predicate IsSpace(c: char) {
    c == ' ' || c == '\t' || IsNewline(c) || c as int == 0x0C || c as int == 0x0B
  }

  function Fold(c: char): char {
    if 'A' <= c <= 'Z' then (c as int + 32) as char else c
  }

  /** Case-insensitive equality, which is what strings.EqualFold answers for words spelled with
      letters other than K and S (the two ASCII letters with a non-ASCII case variant). */
  predicate EqualFold(a: string, b: string) {
    |a| == |b| && forall k :: 0 <= k < |a| ==> Fold(a[k]) == Fold(b[k])
  }

  /** Whether a two-byte token stands in `text` at `at`. */
  predicate PairAt(text: string, at: nat, first: char, second: char) {
    at + 1 < |text| && text[at] == first && text[at + 1] == second
  }
}
