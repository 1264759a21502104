/**
 * Identifiers. Interning is not modelled: a name is its text, which is what
 * both variable lookups and compiled-query lookups compare.
 */
module Names {
  type Name = string
}
