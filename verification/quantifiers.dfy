/**
 * The four-valued cardinality ("quantifier") that the query compiler attaches
 * to every capture and that the checker propagates through expressions.
 */
module Quantifiers {

  datatype Quantifier = One | ZeroOrOne | ZeroOrMore | OneOrMore

  /** The quantifiers a `for` loop accepts as its source: a list value. */
  predicate IsList(q: Quantifier) {
    q == ZeroOrMore || q == OneOrMore
  }

  /** The only quantifier a `some`/`none` condition accepts. */
  predicate IsOptional(q: Quantifier) {
    q == ZeroOrOne
  }
}
