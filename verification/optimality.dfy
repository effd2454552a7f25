/** The class's headline promise: the greedy change uses the fewest coins
    that any way of paying the amount with sterling coins can use.

    The argument goes through a closed form of the greedy coin count. The
    table below the pound is the 1-2-5 series for units and for tens, and
    the pound coins pay the hundreds in pairs, so the greedy change spends
    on each decimal position only what that position's digit needs. From
    the closed form, adding any single coin to an amount raises the greedy
    count by at most one; by induction over any other list of coins for the
    same amount, that list is at least as long as the greedy one. */
module Optimality {
  import opened Coins
  import Greedy

  /** `s` pays exactly `amount` using sterling coins only. */
  predicate IsChangeFor(s: seq<int>, amount: int) {
    (forall k :: 0 <= k < |s| ==> IsCoin(s[k])) && Sum(s) == amount
  }

  /** Coins of one 1-2-5 series (1p, 2p, 5p or 10p, 20p, 50p) that the
      greedy rule spends on one decimal digit. */
  function DigitCoins(d: int): int {
    d / 5 + (d % 5) / 2 + (d % 5) % 2
  }

  /** Coins of the pair 1, 2 (here £1 and £2) the greedy rule spends on `h`. */
  function PairCoins(h: int): int {
    h / 2 + h % 2
  }

  /** Greedy coins spent on `x` tens: £1 and £2 coins for the hundreds, the
      10p-20p-50p series for the tens digit. */
  function TensCoins(x: nat): nat {
    PairCoins(x / 10) + DigitCoins(x % 10)
  }

  /** The greedy coin count of `amount`, position by decimal position. */
  function CountByDigits(amount: nat): nat {
    TensCoins(amount / 10) + DigitCoins(amount % 10)
  }

  /** The recursive greedy change has exactly the closed-form count. */
  lemma GreedyCountByDigits(amount: nat)
    ensures |Greedy.Change(amount, 0)| == CountByDigits(amount)
  {
    var a1 := amount % 200;
    RunLength(amount, 0, 200);
    RunLength(a1, 1, 100);
    HundredsByPairs(amount);
    GreedyCountBelowPound(a1 % 100);
  }

  /** Below one pound the greedy change pays the tens digit with the
      10p-20p-50p series and the units digit with the 1p-2p-5p series. */
  lemma GreedyCountBelowPound(x: nat)
    requires x < 100
    ensures |Greedy.Change(x, 2)| == DigitCoins(x / 10) + DigitCoins(x % 10)
  {
    var a3 := x % 50;
    var a4 := a3 % 20;
    RunLength(x, 2, 50);
    RunLength(a3, 3, 20);
    RunLength(a4, 4, 10);
    TensBySeries(x);
    GreedyCountBelowTen(a4 % 10);
  }

  /** Below ten pence the greedy change pays with the 1p-2p-5p series. */
  lemma GreedyCountBelowTen(y: nat)
    requires y < 10
    ensures |Greedy.Change(y, 5)| == DigitCoins(y)
  {
    var a6 := y % 5;
    var a7 := a6 % 2;
    RunLength(y, 5, 5);
    RunLength(a6, 6, 2);
    RunLength(a7, 7, 1);
    assert Greedy.Change(a7 % 1, 8) == [];
  }

  /** The greedy change spends `amount / c` coins on the denomination `c`
      at position `i` of the table. */
  lemma RunLength(amount: nat, i: nat, c: int)
    requires i < |COINS| && COINS[i] == c
    ensures |Greedy.Change(amount, i)| == amount / c + |Greedy.Change(amount % c, i + 1)|
  {
    Greedy.DenominationRun(amount, i);
  }

  lemma HundredsByPairs(amount: nat)
    ensures amount / 200 + (amount % 200) / 100 == PairCoins(amount / 100)
    ensures (amount % 200) % 100 == amount % 100
    ensures (amount / 10) / 10 == amount / 100
    ensures (amount / 10) % 10 == (amount % 100) / 10
  {
  }

  lemma TensBySeries(x: nat)
    requires x < 100
    ensures x / 50 + (x % 50) / 20 + ((x % 50) % 20) / 10 == DigitCoins(x / 10)
    ensures ((x % 50) % 20) % 10 == x % 10
  {
    var t, v := x / 10, x % 10;
    var t5, t2 := t % 5, (t % 5) % 2;
    DivModUnique(x, 50, t / 5, 10 * t5 + v);
    DivModUnique(10 * t5 + v, 20, t5 / 2, 10 * t2 + v);
    DivModUnique(10 * t2 + v, 10, t2, v);
  }

  /** Adding one coin of a 1-2-5 series to a digit: without a carry the
      digit's count grows by at most one; with a carry the digit left
      behind needs no more coins than before. */
  lemma DigitAdd(u: int, c: int)
    requires 0 <= u < 10 && (c == 1 || c == 2 || c == 5)
    ensures u + c < 10 ==> DigitCoins(u + c) <= DigitCoins(u) + 1
    ensures u + c >= 10 ==> DigitCoins(u + c - 10) <= DigitCoins(u)
  {
  }

  lemma PairAdd(h: int)
    requires h >= 0
    ensures PairCoins(h + 1) <= PairCoins(h) + 1
    ensures PairCoins(h + 2) == PairCoins(h) + 1
  {
  }

  /** Adding 1, 2 or 5 tens, or one or two hundreds, costs at most one
      more coin. */
  lemma TensAdd(x: nat, k: int)
    requires k == 1 || k == 2 || k == 5 || k == 10 || k == 20
    ensures TensCoins(x + k) <= TensCoins(x) + 1
  {
    var h, t := x / 10, x % 10;
    PairAdd(h);
    if k == 10 || k == 20 {
      assert (x + k) / 10 == h + k / 10 && (x + k) % 10 == t;
    } else if t + k < 10 {
      DigitAdd(t, k);
      assert (x + k) / 10 == h && (x + k) % 10 == t + k;
    } else {
      DigitAdd(t, k);
      assert (x + k) / 10 == h + 1 && (x + k) % 10 == t + k - 10;
    }
  }

  /** Adding any single coin raises the greedy count by at most one. */
  lemma DigitsTriangle(b: nat, c: int)
    requires IsCoin(c)
    ensures CountByDigits(b + c) <= CountByDigits(b) + 1
  {
    var x, u := b / 10, b % 10;
    if c == 1 || c == 2 || c == 5 {
      DigitAdd(u, c);
      if u + c < 10 {
        assert (b + c) / 10 == x && (b + c) % 10 == u + c;
      } else {
        TensAdd(x, 1);
        assert (b + c) / 10 == x + 1 && (b + c) % 10 == u + c - 10;
      }
    } else {
      TensAdd(x, c / 10);
      assert (b + c) / 10 == x + c / 10 && (b + c) % 10 == u;
    }
  }

  /** The greedy change is a way of paying the amount. */
  lemma GreedyIsChange(amount: nat)
    ensures IsChangeFor(Greedy.Change(amount, 0), amount)
  {
    Greedy.ChangeUsesTable(amount, 0);
    Greedy.ChangeSum(amount, 0);
  }

  /** One more coin's worth of change costs at most one more coin. */
  lemma GreedyTriangle(b: nat, c: int)
    requires IsCoin(c)
    ensures |Greedy.Change(b + c, 0)| <= |Greedy.Change(b, 0)| + 1
  {
    assert c >= 1 by { CoinsTable(); }
    GreedyCountByDigits(b);
    GreedyCountByDigits(b + c);
    DigitsTriangle(b, c);
  }

  /** No list of sterling coins paying `amount` is shorter than the greedy
      change for it. */
  lemma {:induction false} FewestCoins(s: seq<int>, amount: int)
    requires IsChangeFor(s, amount)
    ensures amount >= 0
    ensures |Greedy.Change(amount, 0)| <= |s|
    decreases |s|
  {
    if |s| == 0 {
      Greedy.ChangeOfZero(0);
    } else {
      var c, rest := s[0], s[1..];
      assert c >= 1 by { CoinsTable(); }
      FewestCoins(rest, amount - c);
      GreedyTriangle(amount - c, c);
    }
  }
}
