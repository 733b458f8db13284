// Multiplication and division of naturals, for the solver.

module Arithmetic {
  /** DIV_ROUND_UP */
  function RoundUp(x: nat, y: nat): nat
    requires y > 0
  {
    (x + y - 1) / y
  }

  lemma Monotone(a: nat, b: nat, y: nat)
    ensures a <= b ==> a * y <= b * y
    ensures (a + 1) * y == a * y + y
  {}

  lemma Associative(a: nat, b: nat, c: nat)
    ensures (a * b) * c == a * (b * c)
  {}

  lemma DivParts(x: nat, y: nat)
    requires y > 0
    ensures x / y * y + x % y == x && x % y < y
  {}

  lemma DivUnique(x: nat, y: nat, q: nat, r: nat)
    requires y > 0 && x == q * y + r && r < y
    ensures x / y == q && x % y == r
  {
    DivParts(x, y);
    Monotone(x / y + 1, q, y);
    Monotone(q + 1, x / y, y);
  }
}
