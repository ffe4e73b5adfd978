/** The arithmetic of taking turns with a 32-bit counter: who is hit how often in a window of reads. */
module RoundRobin {
  import opened Collections

  /** The counter after one more read. */
  function Next(c: nat): nat {
    if c + 1 >= U32 then 0 else c + 1
  }

  /** How many of `k` consecutive values of the wrapping counter, from `c` on, pick number `i` of `n`. */
  function Hits(c: nat, k: nat, n: nat, i: nat): nat
    requires n > 0
    decreases k
  {
    if k == 0 then 0
    else (if c % n == i then 1 else 0) + Hits(Next(c), k - 1, n, i)
  }

  /** The same for a counter that never wraps. */
  function Straight(c: nat, k: nat, n: nat, i: nat): nat
    requires n > 0
    decreases k
  {
    if k == 0 then 0
    else (if c % n == i then 1 else 0) + Straight(c + 1, k - 1, n, i)
  }

  lemma DivUnique(x: int, n: int, q: int, r: int)
    requires n > 0 && x == q * n + r && 0 <= r < n
    ensures x / n == q && x % n == r
  {
    var d := x / n - q;
    assert x == (x / n) * n + x % n;
    assert d * n == r - x % n;
    MultipleIsLarge(d, n);
  }

  lemma MultipleIsLarge(d: int, n: int)
    requires n > 0
    ensures d >= 1 ==> d * n >= n
    ensures d <= -1 ==> d * n <= -n
  {
  }

  /** The running quotient steps up exactly where the remainder is `i`. */
  lemma QuotientStep(c: nat, n: nat, i: nat)
    requires n > 0 && i < n
    ensures (c + 1 + n - 1 - i) / n == (c + n - 1 - i) / n + if c % n == i then 1 else 0
  {
    var q, r := c / n, c % n;
    assert c == q * n + r;
    assert (q + 1) * n == q * n + n && (q + 2) * n == q * n + 2 * n;
    if r < i {
      DivUnique(c + n - 1 - i, n, q, r + n - 1 - i);
      DivUnique(c + n - i, n, q, r + n - i);
    } else if r == i {
      DivUnique(c + n - 1 - i, n, q, n - 1);
      DivUnique(c + n - i, n, q + 1, 0);
    } else {
      DivUnique(c + n - 1 - i, n, q + 1, r - 1 - i);
      DivUnique(c + n - i, n, q + 1, r - i);
    }
  }

  lemma {:induction false} StraightIsQuotient(c: nat, k: nat, n: nat, i: nat)
    requires n > 0 && i < n
    ensures Straight(c, k, n, i) == (c + k + n - 1 - i) / n - (c + n - 1 - i) / n
    decreases k
  {
    if k > 0 {
      StraightIsQuotient(c + 1, k - 1, n, i);
      QuotientStep(c, n, i);
    }
  }

  function Ceil(k: nat, n: nat): nat
    requires n > 0
  {
    k / n + if k % n == 0 then 0 else 1
  }

  lemma Distributes(p: int, q: int, n: int)
    ensures (p + q) * n == p * n + q * n
  {
  }

  lemma QuotientWindow(a: nat, k: nat, n: nat)
    requires n > 0
    ensures k / n <= (a + k) / n - a / n <= Ceil(k, n)
  {
    var qa, ra, qk, rk := a / n, a % n, k / n, k % n;
    assert a == qa * n + ra && k == qk * n + rk;
    Distributes(qa, qk, n);
    Distributes(qa + qk, 1, n);
    if ra + rk < n {
      DivUnique(a + k, n, qa + qk, ra + rk);
    } else {
      DivUnique(a + k, n, qa + qk + 1, ra + rk - n);
    }
  }

  /** In any window an unwrapped counter hits everyone k/n times, rounded down or up. */
  lemma StraightIsFair(c: nat, k: nat, n: nat, i: nat)
    requires n > 0 && i < n
    ensures k / n <= Straight(c, k, n, i) <= Ceil(k, n)
  {
    StraightIsQuotient(c, k, n, i);
    QuotientWindow(c + n - 1 - i, k, n);
  }

  lemma {:induction false} HitsBeforeWrap(c: nat, k: nat, n: nat, i: nat)
    requires n > 0 && c + k <= U32
    ensures Hits(c, k, n, i) == Straight(c, k, n, i)
    decreases k
  {
    if k > 1 {
      HitsBeforeWrap(c + 1, k - 1, n, i);
    } else if k == 1 {
      assert Hits(Next(c), 0, n, i) == 0 == Straight(c + 1, 0, n, i);
    }
  }

  lemma SameRemainderNext(c: nat, d: nat, n: nat)
    requires n > 0 && c % n == d % n
    ensures (c + 1) % n == (d + 1) % n
  {
    var r := c % n;
    var p, q := c / n, d / n;
    assert c == p * n + r && d == q * n + r;
    assert (p + 1) * n == p * n + n && (q + 1) * n == q * n + n;
    if r + 1 < n {
      DivUnique(c + 1, n, p, r + 1);
      DivUnique(d + 1, n, q, r + 1);
    } else {
      DivUnique(c + 1, n, p + 1, 0);
      DivUnique(d + 1, n, q + 1, 0);
    }
  }

  /** When n divides 2^32 the wrap goes unnoticed. */
  lemma {:induction false} HitsWhenDividing(c: nat, d: nat, k: nat, n: nat, i: nat)
    requires n > 0 && U32 % n == 0 && c < U32 && c % n == d % n
    ensures Hits(c, k, n, i) == Straight(d, k, n, i)
    decreases k
  {
    if k > 0 {
      SameRemainderNext(c, d, n);
      HitsWhenDividing(Next(c), d + 1, k - 1, n, i);
    }
  }

  /** A window that crosses the wrap is its part before and its part after. */
  lemma {:induction false} HitsAcrossWrap(c: nat, k: nat, m: nat, n: nat, i: nat)
    requires n > 0 && c + k == U32 && k > 0
    ensures Hits(c, k + m, n, i) == Straight(c, k, n, i) + Hits(0, m, n, i)
    decreases k
  {
    if k > 1 {
      HitsAcrossWrap(c + 1, k - 1, m, n, i);
    } else {
      assert Straight(c + 1, 0, n, i) == 0;
    }
  }

  /** A window that stays below the wrap, or any window when n divides 2^32, is fair. */
  lemma WindowIsFair(c: nat, k: nat, n: nat, i: nat)
    requires n > 0 && i < n && c < U32
    requires c + k <= U32 || U32 % n == 0
    ensures k / n <= Hits(c, k, n, i) <= Ceil(k, n)
  {
    StraightIsFair(c, k, n, i);
    if c + k <= U32 {
      HitsBeforeWrap(c, k, n, i);
    } else {
      HitsWhenDividing(c, c, k, n, i);
    }
  }

  /** Any window of at most 2^32 reads keeps two candidates within 2 of each other. */
  lemma CrossingWindowSpread(c: nat, k: nat, n: nat, i: nat, j: nat)
    requires n > 0 && i < n && j < n && c < U32 && k <= U32
    ensures -2 <= Hits(c, k, n, i) - Hits(c, k, n, j) <= 2
  {
    if c + k <= U32 {
      WindowIsFair(c, k, n, i);
      WindowIsFair(c, k, n, j);
    } else {
      var head, tail := U32 - c, c + k - U32;
      forall x | x == i || x == j
        ensures Hits(c, k, n, x) == Straight(c, head, n, x) + Hits(0, tail, n, x)
        ensures head / n <= Straight(c, head, n, x) <= head / n + 1
        ensures tail / n <= Hits(0, tail, n, x) <= tail / n + 1
      {
        HitsAcrossWrap(c, head, tail, n, x);
        StraightIsFair(c, head, n, x);
        WindowIsFair(0, tail, n, x);
      }
    }
  }

  /** Any two candidates are within one read of each other in every window. */
  ghost predicate AllWindowsFair(n: nat)
    requires n > 0
  {
    forall c, k, i, j :: 0 <= c < U32 && 0 <= k && 0 <= i < n && 0 <= j < n ==>
      Hits(c, k, n, i) - Hits(c, k, n, j) <= 1
  }

  /** When n does not divide 2^32, the reads around the wrap hit the first candidate twice and the last never. */
  lemma UnfairWindow(n: nat)
    requires n > 0 && U32 % n != 0
    ensures var r := U32 % n;
      Hits(U32 - r, r + 1, n, 0) == 2 && Hits(U32 - r, r + 1, n, n - 1) == 0
  {
    var q, r := U32 / n, U32 % n;
    var c := U32 - r;
    assert c == q * n;
    DivUnique(c, n, q, 0);
    DivUnique(0, n, 0, 0);
    HitsAcrossWrap(c, r, 1, n, 0);
    HitsAcrossWrap(c, r, 1, n, n - 1);
    assert Hits(0, 1, n, 0) == 1 + Hits(1, 0, n, 0);
    assert Hits(0, 1, n, n - 1) == 0 + Hits(1, 0, n, n - 1);
    FirstRound(c, r, n, q);
  }

  /** From a multiple of n on, r < n values pick the first number once and the last never. */
  lemma FirstRound(c: nat, r: nat, n: nat, q: nat)
    requires 0 < r < n && c == q * n
    ensures Straight(c, r, n, 0) == 1 && Straight(c, r, n, n - 1) == 0
  {
    StraightIsQuotient(c, r, n, 0);
    StraightIsQuotient(c, r, n, n - 1);
    Distributes(q, 1, n);
    DivUnique(c, n, q, 0);
    DivUnique(c + r, n, q, r);
    DivUnique(c + n - 1, n, q, n - 1);
    DivUnique(c + r + n - 1, n, q + 1, r - 1);
  }

  /** Every window is fair exactly when the number of candidates divides 2^32. */
  lemma AllWindowsFairIffDividing(n: nat)
    requires n > 0
    ensures AllWindowsFair(n) <==> U32 % n == 0
  {
    if U32 % n == 0 {
      forall c, k, i, j | 0 <= c < U32 && 0 <= k && 0 <= i < n && 0 <= j < n
        ensures Hits(c, k, n, i) - Hits(c, k, n, j) <= 1
      {
        WindowIsFair(c, k, n, i);
        WindowIsFair(c, k, n, j);
      }
    } else {
      UnfairWindow(n);
      var r := U32 % n;
      assert Hits(U32 - r, r + 1, n, 0) - Hits(U32 - r, r + 1, n, n - 1) == 2;
    }
  }

  // ---- Two candidates whose list shrinks ----

  /** How far the earlier of two places is ahead in the round that counter value `c` falls in. */
  function Phase(c: nat, n: nat, i: nat, j: nat): int
    requires n > 0
  {
    if i < c % n <= j then 1 else 0
  }

  /** One read moves the phase by what it moves the difference. */
  lemma PhaseStep(c: nat, n: nat, i: nat, j: nat)
    requires i < j < n
    ensures Phase(c + 1, n, i, j) - Phase(c, n, i, j)
         == (if c % n == i then 1 else 0) - (if c % n == j then 1 else 0)
  {
    var q, r := c / n, c % n;
    assert c == q * n + r;
    assert (q + 1) * n == q * n + n;
    if r + 1 < n {
      DivUnique(c + 1, n, q, r + 1);
    } else {
      DivUnique(c + 1, n, q + 1, 0);
    }
  }
}
