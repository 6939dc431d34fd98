/**
 Facts about products, to be used one at a time.
 */
module Products {
  lemma MulMonotone(a: nat, b: nat, c: nat)
    requires a <= b
    ensures a * c <= b * c
  {
    assert b * c == a * c + (b - a) * c;
  }

  lemma OneMore(n: nat, m: nat)
    ensures (n + 1) * m == n * m + m
  {}

  // The end of k of n pieces, each m long.
  lemma Position(i: nat, k: nat, n: nat, m: nat)
    requires m > 0 && i == k * m
    ensures i < n * m <==> k < n
    ensures k < n ==> i + m <= n * m
    ensures i + m == (k + 1) * m
  {
    OneMore(k, m);
    if k < n { MulMonotone(k + 1, n, m); } else { MulMonotone(n, k, m); }
  }
}
