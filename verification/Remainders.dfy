/** Remainders of successive numbers, for hash slots and ring indices. */
module Remainders {

  lemma MultipleIsFar(m: int, d: int)
    requires m > 0
    ensures d >= 1 ==> m * d >= m
    ensures d <= -1 ==> m * d <= -m
  {
  }

  lemma RemainderIs(x: int, m: int, q: int, r: int)
    requires 0 <= r < m && x == m * q + r
    ensures x / m == q && x % m == r
  {
    var d := q - x / m;
    assert x == m * (x / m) + x % m;
    assert m * q == m * d + m * (x / m);
    MultipleIsFar(m, d);
  }

  lemma NextRemainder(a: nat, n: nat)
    requires n > 0
    ensures (a + 1) % n == if a % n + 1 == n then 0 else a % n + 1
  {
    assert a == n * (a / n) + a % n;
    if a % n + 1 == n {
      assert a + 1 == n * (a / n + 1) + 0;
      RemainderIs(a + 1, n, a / n + 1, 0);
    } else {
      RemainderIs(a + 1, n, a / n, a % n + 1);
    }
  }

  /** Two numbers less than `n` apart: their remainders are as far apart, going round. */
  lemma {:induction false} NearRemainders(a: nat, b: nat, n: nat)
    requires n > 0 && b <= a < b + n
    ensures a % n == if b % n + (a - b) < n then b % n + (a - b) else b % n + (a - b) - n
    ensures a != b ==> a % n != b % n
    decreases a
  {
    if a > b {
      NearRemainders(a - 1, b, n);
      NextRemainder(a - 1, n);
    }
  }
}
