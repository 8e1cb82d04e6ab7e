/** Why the hash multiplies by an odd number: in a table whose size is a power of two, as many
    consecutive sequence numbers of one context as there are slots all have different homes. And what
    becomes of that in tables of other sizes. */
module HashDispersal {
  import opened HwFences
  import opened Remainders
  import opened FenceTables

  function Pow2(b: nat): (m: nat)
    ensures m > 0
  {
    if b == 0 then 1 else 2 * Pow2(b - 1)
  }

  lemma {:induction false} Pow2Divides(b: nat, c: nat)
    requires b <= c
    ensures Pow2(c) == Pow2(b) * Pow2(c - b)
  {
    if b > 0 {
      Pow2Divides(b - 1, c - 1);
    }
  }

  lemma U64IsPow2()
    ensures Pow2(64) == U64_LIMIT
  {
    assert Pow2(8) == 256;
    Pow2Divides(8, 16);
    Pow2Divides(16, 32);
    Pow2Divides(32, 64);
  }

  lemma ShiftByMultiple(x: int, m: int, j: int)
    requires m > 0
    ensures (x - m * j) % m == x % m
  {
    assert x == m * (x / m) + x % m;
    assert x - m * j == m * (x / m - j) + x % m;
    RemainderIs(x - m * j, m, x / m - j, x % m);
  }

  /** The odd number that a context multiplies by. */
  function OddMultiplier(ctx: u64): u64 {
    WrapU64(ctx + WrapU64(ctx - 1))
  }

  lemma MultiplierIsOdd(ctx: u64)
    ensures OddMultiplier(ctx) % 2 == 1
  {
  }

  lemma WrapDrops(x: int) returns (q: int)
    ensures WrapU64(x) == x - U64_LIMIT * q
  {
    q := x / U64_LIMIT;
  }

  lemma CollectMultiples(x: int, o: int, y: int, l: int, m: int, p: int, q1: int, q2: int, q3: int, q4: int)
    requires l == m * p
    ensures (x - l * q1) * o - l * q2 + (y - l * q3) - l * q4 == x * o + y - m * (p * (q1 * o + q2 + q3 + q4))
  {
    var j := q1 * o + q2 + q3 + q4;
    assert (x - l * q1) * o == x * o - l * (q1 * o);
    assert l * j == l * (q1 * o) + l * q2 + l * q3 + l * q4;
    assert (m * p) * j == m * (p * j);
  }

  /** The hash without any wrapping. */
  function Unwrapped(k: Key): int {
    (HASH_A_MULT * k.seqno) * OddMultiplier(k.ctx) + HASH_C_MULT * k.ctx
  }

  lemma HomeIs(m: nat, k: Key, x: int, y: int, o: int)
    requires m > 0 && x == HASH_A_MULT * k.seqno && y == HASH_C_MULT * k.ctx && o == OddMultiplier(k.ctx)
    ensures HomeSlot(m, k) == WrapU64(WrapU64(WrapU64(x) * o) + WrapU64(y)) % m
  {
  }

  /** Wrapping at 64 bits does not show in the home slot. */
  lemma HomeWithoutWrapping(b: nat, k: Key)
    requires b <= 64
    ensures HomeSlot(Pow2(b), k) == Unwrapped(k) % Pow2(b)
  {
    var m, o, x, y := Pow2(b), OddMultiplier(k.ctx), HASH_A_MULT * k.seqno, HASH_C_MULT * k.ctx;
    HomeIs(m, k, x, y, o);
    U64IsPow2();
    Pow2Divides(b, 64);
    WrapCongruent(m, Pow2(64 - b), x, y, o);
  }

  lemma WrapCongruent(m: nat, p: nat, x: int, y: int, o: int)
    requires m > 0 && U64_LIMIT == m * p
    ensures WrapU64(WrapU64(WrapU64(x) * o) + WrapU64(y)) % m == (x * o + y) % m
  {
    var q1 := WrapDrops(x);
    var q2 := WrapDrops(WrapU64(x) * o);
    var q3 := WrapDrops(y);
    var q4 := WrapDrops(WrapU64(WrapU64(x) * o) + WrapU64(y));
    CollectMultiples(x, o, y, U64_LIMIT, m, p, q1, q2, q3, q4);
    ShiftByMultiple(x * o + y, m, p * (q1 * o + q2 + q3 + q4));
  }

  lemma EvenFactor(h: int, d: int, r: int)
    requires (2 * h + 1) * d == 2 * r
    ensures d == 2 * (d / 2) && (2 * h + 1) * (d / 2) == r
  {
    assert (2 * h + 1) * d == 2 * (h * d) + d;
    var e := d / 2;
    assert d == 2 * e;
    assert (2 * h + 1) * (2 * e) == 2 * ((2 * h + 1) * e);
  }

  /** An odd factor does not help a power of two to divide. */
  lemma {:induction false} OddFactor(b: nat, h: int, d: int, q: int) returns (f: int)
    requires (2 * h + 1) * d == Pow2(b) * q
    ensures d == Pow2(b) * f
  {
    if b == 0 {
      f := d;
    } else {
      var half := Pow2(b - 1);
      assert (2 * half) * q == 2 * (half * q);
      EvenFactor(h, d, half * q);
      f := OddFactor(b - 1, h, d / 2, q);
      assert 2 * (half * f) == (2 * half) * f;
    }
  }

  lemma SeqnosDisperse(b: nat, ctx: u64, s1: u64, s2: u64)
    requires b <= 64 && s1 < s2 < s1 + Pow2(b)
    ensures HomeSlot(Pow2(b), Key(ctx, s1)) != HomeSlot(Pow2(b), Key(ctx, s2))
  {
    HomeWithoutWrapping(b, Key(ctx, s1));
    HomeWithoutWrapping(b, Key(ctx, s2));
    MultiplierIsOdd(ctx);
    UnwrappedDiffer(Pow2(b), b, s1, s2, OddMultiplier(ctx), HASH_C_MULT * ctx);
  }

  lemma UnwrappedDiffer(m: nat, b: nat, s1: nat, s2: nat, o: int, y: int)
    requires m == Pow2(b) && s1 < s2 < s1 + m && o % 2 == 1
    ensures ((HASH_A_MULT * s1) * o + y) % m != ((HASH_A_MULT * s2) * o + y) % m
  {
    var x1, x2 := (HASH_A_MULT * s1) * o + y, (HASH_A_MULT * s2) * o + y;
    if x1 % m == x2 % m {
      var q := x2 / m - x1 / m;
      assert x2 - x1 == m * q by {
        assert x1 == m * (x1 / m) + x1 % m;
        assert x2 == m * (x2 / m) + x2 % m;
        assert m * q == m * (x2 / m) - m * (x1 / m);
      }
      var h := HASH_A_MULT * (o / 2) + 2484;
      FactorOut(o, o / 2, s1, s2);
      var f := OddFactor(b, h, s2 - s1, q);
      MultipleIsFar(m, f);
      assert false;
    }
  }

  lemma FactorOut(o: int, h: int, s1: int, s2: int)
    requires o == 2 * h + 1
    ensures (HASH_A_MULT * s2) * o - (HASH_A_MULT * s1) * o == (2 * (HASH_A_MULT * h + 2484) + 1) * (s2 - s1)
  {
    assert (HASH_A_MULT * s2) * o - (HASH_A_MULT * s1) * o == (HASH_A_MULT * o) * (s2 - s1);
    assert HASH_A_MULT * o == 2 * (HASH_A_MULT * h + 2484) + 1;
  }

  // ----- Tables of any size -----

  lemma EqualRemainders(a: nat, b: nat, m: nat)
    requires m > 0 && a <= b
    ensures a % m == b % m <==> (b - a) % m == 0
  {
    var qa, qb := a / m, b / m;
    assert a == m * qa + a % m && b == m * qb + b % m;
    if a % m == b % m {
      assert b - a == m * (qb - qa) + 0 by {
        assert m * (qb - qa) == m * qb - m * qa;
      }
      RemainderIs(b - a, m, qb - qa, 0);
    }
    if (b - a) % m == 0 {
      var q := (b - a) / m;
      assert b - a == m * q;
      assert m * (qa + q) == m * qa + m * q;
      RemainderIs(b, m, qa + q, a % m);
    }
  }

  /** No product or sum of the hash wraps. */
  predicate FitsIn64(k: Key) {
    HASH_A_MULT * k.seqno < U64_LIMIT && HASH_C_MULT * k.ctx < U64_LIMIT && Unwrapped(k) < U64_LIMIT
  }

  lemma WrapNothing(x: nat)
    requires x < U64_LIMIT
    ensures WrapU64(x) == x
  {
  }

  lemma HomeUnwrapped(m: nat, k: Key)
    requires m > 0 && FitsIn64(k)
    ensures HomeSlot(m, k) == Unwrapped(k) % m
  {
    var x, y, o := HASH_A_MULT * k.seqno, HASH_C_MULT * k.ctx, OddMultiplier(k.ctx);
    HomeIs(m, k, x, y, o);
    assert Unwrapped(k) == x * o + y;
    hide HomeSlot, OddMultiplier, Unwrapped, WrapU64;
    WrapNothing(x);
    WrapNothing(x * o);
    WrapNothing(y);
    WrapNothing(x * o + y);
  }

  /** The distance of two keys of a context, in the hash. */
  function Distance(ctx: u64, s1: nat, s2: nat): nat
    requires s1 <= s2
  {
    (HASH_A_MULT * (s2 - s1)) * OddMultiplier(ctx)
  }

  lemma UnwrappedDistance(ctx: u64, s1: u64, s2: u64)
    requires s1 <= s2
    ensures Unwrapped(Key(ctx, s2)) == Unwrapped(Key(ctx, s1)) + Distance(ctx, s1, s2)
    ensures HASH_A_MULT * s1 <= HASH_A_MULT * s2
  {
    hide OddMultiplier;
    var o := OddMultiplier(ctx);
    assert HASH_A_MULT * s2 == HASH_A_MULT * s1 + HASH_A_MULT * (s2 - s1);
    assert (HASH_A_MULT * s1 + HASH_A_MULT * (s2 - s1)) * o == (HASH_A_MULT * s1) * o + (HASH_A_MULT * (s2 - s1)) * o;
  }

  lemma UnwrappedPositive(k: Key)
    ensures Unwrapped(k) >= 0
  {
    hide OddMultiplier;
  }

  /** In a table of any size, as long as nothing wraps at 64 bits: two fences of a context have the same
      home slot exactly if the size divides the distance of their sequence numbers, times both factors. */
  lemma CollideIff(m: nat, ctx: u64, s1: u64, s2: u64)
    requires m > 0 && s1 <= s2 && FitsIn64(Key(ctx, s2))
    ensures HomeSlot(m, Key(ctx, s1)) == HomeSlot(m, Key(ctx, s2)) <==> Distance(ctx, s1, s2) % m == 0
  {
    hide HomeSlot, Unwrapped, Distance;
    UnwrappedDistance(ctx, s1, s2);
    UnwrappedPositive(Key(ctx, s1));
    HomeUnwrapped(m, Key(ctx, s1));
    HomeUnwrapped(m, Key(ctx, s2));
    EqualRemainders(Unwrapped(Key(ctx, s1)), Unwrapped(Key(ctx, s2)), m);
  }

  /** So a table of 4969 slots gives all fences of a context, as long as nothing wraps, one home slot. */
  lemma AllCollide(ctx: u64, s1: u64, s2: u64)
    requires s1 <= s2 && FitsIn64(Key(ctx, s2))
    ensures HomeSlot(4969, Key(ctx, s1)) == HomeSlot(4969, Key(ctx, s2))
  {
    hide HomeSlot, OddMultiplier, FitsIn64;
    CollideIff(4969, ctx, s1, s2);
    FactorDivides(HASH_A_MULT, s2 - s1, OddMultiplier(ctx));
  }

  lemma FactorDivides(a: nat, d: nat, o: nat)
    requires a > 0
    ensures ((a * d) * o) % a == 0
  {
    assert (a * d) * o == a * (d * o) + 0;
    RemainderIs((a * d) * o, a, d * o, 0);
  }

  /** The hash in numbers: in a table of 2^b slots, for contexts that fit in 63 bits. */
  lemma HomeInNumbers(b: nat, ctx: u64, seqno: u64)
    requires b <= 64 && 0 < ctx < U64_LIMIT / 2
    ensures HomeSlot(Pow2(b), Key(ctx, seqno)) == ((4969 * seqno) * (2 * ctx - 1) + 907 * ctx) % Pow2(b)
  {
    hide HomeSlot, Pow2;
    HomeWithoutWrapping(b, Key(ctx, seqno));
    assert OddMultiplier(ctx) == 2 * ctx - 1;
  }
}
