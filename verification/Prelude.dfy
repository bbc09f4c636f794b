/** Result types shared by all modules. */
module Prelude {

  datatype Option<+T> = None | Some(value: T)

  /** `Err` stands for a thrown error. */
  datatype Result<+T, +E> = Ok(value: T) | Err(error: E)

  /** JavaScript truth of a nullable string. */
  predicate Truthy(s: Option<string>) { s.Some? && s.value != "" }

  function Max(a: int, b: int): int { if a < b then b else a }

  function Min(a: int, b: int): int { if a < b then a else b }

  // ---------- Division ----------

  lemma OneMore(x: int, y: int, p: nat)
    requires x > y
    ensures x * p >= y * p + p
  {
    assert (x - y - 1) * p >= 0;
  }

  lemma QuotientBounds(n: nat, d: nat)
    requires d > 0
    ensures n / d * d <= n < n / d * d + d
  {
  }

  /** Only one multiple of d lies within d below n. */
  lemma QuotientUnique(n: nat, d: nat, a: int, b: int)
    requires a * d <= n < a * d + d && b * d <= n < b * d + d
    ensures a == b
  {
    if a > b {
      OneMore(a, b, d);
    } else if b > a {
      OneMore(b, a, d);
    }
  }

  lemma DivModUnique(n: nat, d: nat, q: nat, r: nat)
    requires n == q * d + r && r < d
    ensures n / d == q && n % d == r
  {
    QuotientBounds(n, d);
    QuotientUnique(n, d, n / d, q);
  }
}
