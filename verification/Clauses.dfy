/** Clause boundaries in streamed prose, shared by the live buffer and the typewriter. */
module Clauses {
  predicate IsSpace(c: char) { c in [' ', '\t', '\n', '\r'] }

  predicate EndsClause(c: char) { c in ['.', '!', '?', ',', ';', ':'] }

  /** A newline, or punctuation that is known to be followed by a space. */
  predicate IsBoundary(s: string, i: nat)
    requires i < |s|
  {
    s[i] == '\n' || (EndsClause(s[i]) && i + 1 < |s| && IsSpace(s[i + 1]))
  }
}
