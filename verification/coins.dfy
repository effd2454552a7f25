/** The sterling denomination table and the sequence vocabulary shared by
    every other module: sums, runs of one coin, ordering. Amounts are whole
    pence, so all arithmetic is on integers. */
module Coins {

  /** Every coin the calculator may hand out, in pence, largest first.
      The greedy walk depends on this order. */
  const COINS: seq<int> := [200, 100, 50, 20, 10, 5, 2, 1]

  predicate IsCoin(c: int) {
    c in COINS
  }

  predicate StrictlyDescending(s: seq<int>) {
    forall k, l :: 0 <= k < l < |s| ==> s[k] > s[l]
  }

  predicate NonIncreasing(s: seq<int>) {
    forall k, l :: 0 <= k <= l < |s| ==> s[k] >= s[l]
  }

  /** All copies of one value sit next to each other. */
  predicate Contiguous(s: seq<int>) {
    forall k, l, m :: 0 <= k <= l <= m < |s| && s[k] == s[m] ==> s[l] == s[k]
  }

  /** The facts about the table that the algorithm relies on: positive,
      strictly descending, ending in the one-penny coin. */
  lemma CoinsTable()
    ensures StrictlyDescending(COINS)
    ensures forall k :: 0 <= k < |COINS| ==> COINS[k] >= 1
    ensures COINS[|COINS| - 1] == 1
  {
  }

  /** A coin from the table at or after position `i` is no larger than `COINS[i]`. */
  lemma AtMostFirst(x: int, i: nat)
    requires i < |COINS| && x in COINS[i..]
    ensures x <= COINS[i]
  {
    CoinsTable();
    var j :| 0 <= j < |COINS| - i && COINS[i..][j] == x;
    assert COINS[i + j] == x;
  }

  function Sum(s: seq<int>): int {
    if |s| == 0 then 0 else s[0] + Sum(s[1..])
  }

  /** `n` copies of the coin `c`. */
  function Repeat(c: int, n: nat): (r: seq<int>)
    ensures |r| == n
    ensures forall k :: 0 <= k < |r| ==> r[k] == c
  {
    if n == 0 then [] else [c] + Repeat(c, n - 1)
  }

  lemma {:induction false} SumAppend(a: seq<int>, b: seq<int>)
    ensures Sum(a + b) == Sum(a) + Sum(b)
    decreases |a|
  {
    if |a| == 0 {
      assert a + b == b;
    } else {
      assert (a + b)[1..] == a[1..] + b;
      SumAppend(a[1..], b);
    }
  }

  lemma RepeatSnoc(c: int, n: nat)
    ensures Repeat(c, n) + [c] == Repeat(c, n + 1)
  {
  }

  lemma ConsRun(c: int, n: nat, tail: seq<int>)
    requires n >= 1
    ensures [c] + (Repeat(c, n - 1) + tail) == Repeat(c, n) + tail
  {
    assert Repeat(c, n) == [c] + Repeat(c, n - 1);
  }

  /** A non-increasing sequence keeps each value in one block. */
  lemma NonIncreasingIsContiguous(s: seq<int>)
    requires NonIncreasing(s)
    ensures Contiguous(s)
  {
  }

  /** Division with remainder is determined by its defining equation. */
  lemma DivModUnique(x: int, c: int, q: int, r: int)
    requires c > 0 && 0 <= r < c && x == q * c + r
    ensures x / c == q && x % c == r
  {
    var q', r' := x / c, x % c;
    assert x == q' * c + r';
    assert (q - q') * c == r' - r;
    MulSign(q - q', c);
  }

  /** Taking one `c` off an amount of at least `c` lowers the quotient by one
      and keeps the remainder. */
  lemma DivStep(x: int, c: int)
    requires 0 < c <= x
    ensures x / c >= 1
    ensures (x - c) / c == x / c - 1 && (x - c) % c == x % c
  {
    var q, r := x / c, x % c;
    assert x == q * c + r;
    MulSign(q, c);
    assert (x - c) == (q - 1) * c + r;
    DivModUnique(x - c, c, q - 1, r);
  }

  lemma MulSign(d: int, c: int)
    requires c > 0
    ensures d >= 1 ==> d * c >= c
    ensures d <= -1 ==> d * c <= -c
  {
  }
}
