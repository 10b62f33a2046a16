/** Products and quotients of reals. */
module Reals {

  lemma MulMonotone(a: real, x: real, y: real)
    requires a >= 0.0 && x <= y
    ensures a * x <= a * y
  {
  }

  lemma TimesQuotient(n: real, y: real)
    requires n > 0.0
    ensures n * (y / n) == y
  {
  }

  lemma DivideBy(n: real, x: real, y: real)
    requires n > 0.0 && n * x <= y
    ensures x <= y / n
  {
  }

  lemma DivideAbove(n: real, x: real, y: real)
    requires n > 0.0 && y <= n * x
    ensures y / n <= x
  {
  }

  lemma Quotient(n: real, y: real, z: real)
    requires n > 0.0 && n * z == y
    ensures y / n == z
  {
  }
}
