/** The greedy change rule written as a recursive reference definition:
    hand out the current denomination while it fits, then move on to the
    next smaller one. The calculator's nested loops are proved equal to it. */
module Greedy {
  import opened Coins

  /** Greedy change for `amount` using only the denominations `COINS[i..]`. */
  function Change(amount: nat, i: nat): seq<int>
    requires i <= |COINS|
    decreases amount, |COINS| - i
  {
    if i == |COINS| then
      []
    else if COINS[i] <= amount then
      assert COINS[i] >= 1 by { CoinsTable(); }
      [COINS[i]] + Change(amount - COINS[i], i)
    else
      Change(amount, i + 1)
  }

  /** Only denominations from `COINS[i..]` are handed out. */
  lemma {:induction false} ChangeUsesTable(amount: nat, i: nat)
    requires i <= |COINS|
    ensures forall k :: 0 <= k < |Change(amount, i)| ==> Change(amount, i)[k] in COINS[i..]
    decreases amount, |COINS| - i
  {
    if i < |COINS| {
      assert COINS[i] >= 1 by { CoinsTable(); }
      if COINS[i] <= amount {
        ChangeUsesTable(amount - COINS[i], i);
      } else {
        ChangeUsesTable(amount, i + 1);
        assert COINS[i..] == [COINS[i]] + COINS[i + 1..];
      }
    }
  }

  /** Larger denominations come first. */
  lemma {:induction false} ChangeNonIncreasing(amount: nat, i: nat)
    requires i <= |COINS|
    ensures NonIncreasing(Change(amount, i))
    decreases amount, |COINS| - i
  {
    if i < |COINS| {
      assert COINS[i] >= 1 by { CoinsTable(); }
      if COINS[i] <= amount {
        var rest := Change(amount - COINS[i], i);
        ChangeNonIncreasing(amount - COINS[i], i);
        ChangeUsesTable(amount - COINS[i], i);
        forall k | 0 <= k < |rest|
          ensures rest[k] <= COINS[i]
        {
          AtMostFirst(rest[k], i);
        }
        assert Change(amount, i) == [COINS[i]] + rest;
      } else {
        ChangeNonIncreasing(amount, i + 1);
      }
    }
  }

  /** While any denomination is left, the coins add up to the amount: the
      table ends in the one-penny coin, so nothing is left over. */
  lemma {:induction false} ChangeSum(amount: nat, i: nat)
    requires i < |COINS|
    ensures Sum(Change(amount, i)) == amount
    decreases amount, |COINS| - i
  {
    CoinsTable();
    if COINS[i] <= amount {
      var rest := Change(amount - COINS[i], i);
      ChangeSum(amount - COINS[i], i);
      assert ([COINS[i]] + rest)[1..] == rest;
    } else if i + 1 < |COINS| {
      ChangeSum(amount, i + 1);
    }
  }

  /** Nothing owed, nothing handed out, whichever denomination comes next. */
  lemma {:induction false} ChangeOfZero(i: nat)
    requires i <= |COINS|
    ensures Change(0, i) == []
    decreases |COINS| - i
  {
    CoinsTable();
    if i < |COINS| {
      ChangeOfZero(i + 1);
    }
  }

  /** Denomination `COINS[i]` is used exactly `amount / COINS[i]` times, as
      one block, and the rest is the greedy change for the remainder. */
  lemma {:induction false} DenominationRun(amount: nat, i: nat)
    requires i < |COINS|
    ensures Change(amount, i)
         == Repeat(COINS[i], amount / COINS[i]) + Change(amount % COINS[i], i + 1)
    decreases amount
  {
    var c := COINS[i];
    assert c >= 1 by { CoinsTable(); }
    if c <= amount {
      DivStep(amount, c);
      DenominationRun(amount - c, i);
      ConsRun(c, amount / c, Change(amount % c, i + 1));
    } else {
      DivModUnique(amount, c, 0, amount);
    }
  }

  /** The single-digit outputs listed in the calculator's test table. */
  lemma TestTableSmall()
    ensures Change(0, 0) == []
    ensures Change(1, 0) == [1]
    ensures Change(2, 0) == [2]
    ensures Change(3, 0) == [2, 1]
    ensures Change(4, 0) == [2, 2]
    ensures Change(5, 0) == [5]
    ensures Change(6, 0) == [5, 1]
    ensures Change(7, 0) == [5, 2]
    ensures Change(8, 0) == [5, 2, 1]
    ensures Change(9, 0) == [5, 2, 2]
  {
    assert Change(0, 5) == [] && Change(0, 6) == [] && Change(0, 7) == [];
  }

  /** The two- and three-digit outputs listed in the calculator's test table. */
  lemma TestTableLarge()
    ensures Change(10, 0) == [10]
    ensures Change(80, 0) == [50, 20, 10]
    ensures Change(99, 0) == [50, 20, 20, 5, 2, 2]
    ensures Change(100, 0) == [100]
    ensures Change(101, 0) == [100, 1]
  {
    assert Change(0, 4) == [] && Change(0, 5) == [] && Change(0, 6) == [] && Change(0, 7) == [];
    assert Change(9, 3) == [5, 2, 2];
    assert Change(49, 3) == [20, 20, 5, 2, 2];
  }

  /** An output listed in the calculator's test table: 199p. */
  lemma TestTable199()
    ensures Change(199, 0) == [100, 50, 20, 20, 5, 2, 2]
  {
    assert Change(0, 7) == [];
    assert Change(9, 3) == [5, 2, 2];
    assert Change(49, 3) == [20, 20, 5, 2, 2];
    assert Change(99, 2) == [50, 20, 20, 5, 2, 2];
  }

  /** An output listed in the calculator's test table: 234p. */
  lemma TestTable234()
    ensures Change(234, 0) == [200, 20, 10, 2, 2]
  {
    assert Change(0, 7) == [];
    assert Change(4, 3) == [2, 2];
    assert Change(14, 3) == [10, 2, 2];
    assert Change(34, 1) == [20, 10, 2, 2];
  }
}
