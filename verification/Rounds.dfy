/** Small facts about remainders: going round a list of n places. */
module Rounds {

  lemma Apart(d: int, n: int)
    requires n > 0
    ensures d > 0 ==> d * n >= n
    ensures d < 0 ==> d * n <= -n
  {
  }

  lemma Remainder(a: int, q: int, r: int, n: int)
    requires 0 <= r < n && a == q * n + r
    ensures a % n == r
  {
    var d := q - a / n;
    assert d * n == a % n - r;
    Apart(d, n);
  }

  lemma SameRemainder(a: nat, j: nat, n: nat)
    requires n > 0
    ensures (a % n + j) % n == (a + j) % n
  {
    var p, r := (a % n + j) / n, (a % n + j) % n;
    assert a + j == (a / n) * n + p * n + r;
    assert (a / n) * n + p * n == (a / n + p) * n;
    Remainder(a + j, a / n + p, r, n);
  }

  lemma Wraps(i: nat, j: nat, n: nat)
    requires i < n && j < n
    ensures (i + j) % n == if i + j < n then i + j else i + j - n
  {
    if i + j < n {
      Remainder(i + j, 0, i + j, n);
    } else {
      Remainder(i + j, 1, i + j - n, n);
    }
  }

  /** From any index there are fewer than n steps to place k. */
  lemma StepsTo(index: nat, k: nat, n: nat)
    requires k < n
    ensures (index + (k - index) % n) % n == k
  {
    var q := (k - index) / n;
    assert k - index == q * n + (k - index) % n;
    Remainder(index + (k - index) % n, -q, k, n);
  }
}
