/** The arithmetic shared by the other modules. */
module Arithmetic {

  function Min(a: int, b: int): int { if a < b then a else b }

  function Max(a: int, b: int): int { if a < b then b else a }

  lemma TimesMonotone(a: int, b: int, c: nat)
    requires a <= b
    ensures a * c <= b * c
  {
  }
}
