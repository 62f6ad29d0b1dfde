/** Checks shared by the contract objects. */
module Contracts {

  predicate IsAlphanumeric(c: char) {
    'A' <= c <= 'Z' || 'a' <= c <= 'z' || '0' <= c <= '9'
  }

  /** The identifier pattern of the contracts. */
  predicate IsIdentifier(s: string) {
    && 0 < |s| <= 256
    && IsAlphanumeric(s[0])
    && forall i :: 0 <= i < |s| ==> IsAlphanumeric(s[i]) || s[i] in "_.:@+-"
  }
}
