/** Integer division facts. */
module Division {
  lemma TimesIsMonotone(x: int, y: int, d: int)
    requires d > 0
    ensures x <= y ==> x * d <= y * d
  {
  }

  lemma QuotientIsUnique(a: int, d: int, q: int, r: int)
    requires d > 0 && a == q * d + r && 0 <= r < d
    ensures a / d == q && a % d == r
  {
    var q' := a / d;
    assert q' * d <= a < q' * d + d;
    TimesIsMonotone(q + 1, q', d);
    TimesIsMonotone(q' + 1, q, d);
  }

  lemma DivideAndRest(a: nat, d: nat)
    requires d > 0
    ensures a == a / d * d + a % d && a % d < d && a % d <= a
  {
    if a < d {
      QuotientIsUnique(a, d, 0, a);
    }
  }
}
