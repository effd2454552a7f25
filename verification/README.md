# Greedy sterling change calculator, in Dafny

This project models `App\ChangeCalculator`, a small PHP class that works out
which sterling coins to hand back for an amount of change given in pence.

The class holds a fixed table of denominations, largest first:
200, 100, 50, 20, 10, 5, 2 and 1 pence. Its constructor refuses a negative
amount with an exception. `calculate()` walks the table. For each coin it
keeps deducting the coin from the change still owed, and appending it to the
list of coins due, for as long as the coin is not larger than what is still
owed. It leaves the walk early once nothing is owed. The class's doc comment
promises the fewest coins.

## Layout

- `coins.dfy` (module `Coins`): the denomination table `COINS`, the facts
  about it that the algorithm relies on, `Sum`, `Repeat` (a run of one coin),
  and small sequence and division lemmas.
- `greedy.dfy` (module `Greedy`): `Change(amount, i)`, a recursive reference
  definition of the greedy rule. It hands out `COINS[i]` while it fits and
  then moves on to `i + 1`. It never stops early on zero, so it scans the
  whole table. Lemmas give its properties and the outputs in the test table.
- `change_calculator.dfy` (module `ChangeCalculator`): the class itself. The
  object is an immutable `Calculator(changeAmount, coinsDue)` value. Each
  private method becomes a function or method of the same name that returns
  the updated value. The two loops are Dafny `while` loops with invariants.
  `ChangeFor` is what a caller does: construct, then calculate. `Valid`
  (nothing negative is owed) is the class invariant. The constructor
  establishes it, and a deduction only happens when the coin fits, so it is
  never broken. Members that rely on it require it.
- `optimality.dfy` (module `Optimality`): the fewest-coins proof.
- `results.dfy` (module `Results`): `Result`, standing in for the exception.

The recursive `Greedy.Change` is the reference. The test file calls a
`calculateUsingRecursion()` method, but the class does not define one. The
loops are proved to hand out exactly `Greedy.Change(amount, 0)`. Because
`Change` never stops early, this also shows that the early exit on zero does
not change the output.

The fewest-coins proof works through a closed form of the greedy coin count.
Below one pound, the table is the 1-2-5 series for the units digit and again
for the tens digit. The £1 and £2 coins pay the hundreds in pairs. So the
greedy count is the sum of a per-digit count (`Optimality.CountByDigits`).
From that closed form, adding one coin to an amount raises the greedy count
by at most one. By induction over any other list of sterling coins for the
same amount, that list is at least as long as the greedy change.

## Model

| member | source | states |
|---|---|---|
| `Coins.CoinsTable` | src/ChangeCalculator.php:21-26 | the table is positive and strictly descending, and it ends in the 1p coin |
| `ChangeCalculator.New` | src/ChangeCalculator.php:45-52 | a negative amount fails, and only a negative amount; otherwise the calculator owes exactly the amount and has no coins due |
| `ChangeCalculator.IsCalculationCompleted` | src/ChangeCalculator.php:161-164 | the calculation counts as complete exactly when no denomination of the table fits into the change still owed |
| `ChangeCalculator.ReduceChangeAmountByCoin` | src/ChangeCalculator.php:151-154 | the value accounted for (coins due plus change owed) drops by the coin; the coins due are untouched |
| `ChangeCalculator.AddCoinToChange` | src/ChangeCalculator.php:139-142 | the coin is appended at the end, the earlier coins keep their places, the change owed is untouched, and the value accounted for grows by the coin |
| `ChangeCalculator.DeductCoinFromChangeAndStoreUsage` | src/ChangeCalculator.php:125-130 | one deduction moves the coin from the change owed to the coins due, and keeps the value accounted for |
| `ChangeCalculator.KeepDeductingCoin` | src/ChangeCalculator.php:109-116 | the coin is handed out `changeAmount / coin` times, as one block; the remainder `changeAmount % coin` is left owing, which is less than the coin; the change owed never goes negative; the value accounted for is kept; the result is always true |
| `ChangeCalculator.KeepDeductingCoinWhileChangeAmountExists` | src/ChangeCalculator.php:92-99 | it answers false exactly when nothing is owed, and then changes nothing; otherwise it deducts the coin as often as it fits |
| `ChangeCalculator.PerformCalculation` | src/ChangeCalculator.php:74-81 | the walk over the table, with its early exit, appends exactly the greedy change of the reference definition, leaves nothing owing, and keeps the value accounted for |
| `ChangeCalculator.Calculate` | src/ChangeCalculator.php:59-66 | the returned list is the calculator's coins due, which is the earlier coins due followed by the greedy change for the amount owed; nothing is left owing |
| `ChangeCalculator.ChangeFor` | src/ChangeCalculator.php:5-66 | constructing and calculating fails exactly for a negative amount; otherwise the coins are table coins that sum to the amount, are non-increasing with each denomination in one block, and are no more than any other list of table coins for that amount |
| `Greedy.ChangeUsesTable` | src/ChangeCalculator.php:76-80 | the greedy change only uses denominations from the part of the table still to be walked |
| `Greedy.ChangeNonIncreasing` | src/ChangeCalculator.php:21-26 | the greedy change is non-increasing, because the table is walked largest coin first |
| `Greedy.ChangeSum` | src/ChangeCalculator.php:109-113 | the greedy change sums exactly to the amount, because the table ends in the 1p coin |
| `Greedy.ChangeOfZero` | src/ChangeCalculator.php:94-96 | with nothing owed, no denomination is handed out, so stopping the walk early loses nothing |
| `Greedy.DenominationRun` | src/ChangeCalculator.php:109-116 | the greedy change is a block of `amount / COINS[i]` copies of `COINS[i]`, followed by the greedy change of `amount % COINS[i]` from the next denomination on |
| `Greedy.TestTableSmall` | tests/ChangeCalculatorTest.php:121-132 | the outputs for 0p to 9p listed in the tests, for example 3p gives [2, 1] |
| `Greedy.TestTableLarge` | tests/ChangeCalculatorTest.php:133-137 | the outputs for 10p, 80p, 99p, 100p and 101p listed in the tests |
| `Greedy.TestTable199` | tests/ChangeCalculatorTest.php:138 | 199p gives [100, 50, 20, 20, 5, 2, 2] |
| `Greedy.TestTable234` | tests/ChangeCalculatorTest.php:139 | 234p gives [200, 20, 10, 2, 2] |
| `Optimality.GreedyIsChange` | src/ChangeCalculator.php:5-11 | the greedy change pays the amount exactly with real coin denominations |
| `Optimality.GreedyCountByDigits` | src/ChangeCalculator.php:76-116 | the number of greedy coins equals a per-digit count: £1 and £2 coins for the hundreds, and the 1-2-5 series for the tens and for the units |
| `Optimality.GreedyTriangle` | src/ChangeCalculator.php:5-6 | one more coin's worth of change never costs more than one more coin |
| `Optimality.FewestCoins` | src/ChangeCalculator.php:5-6 | no list of table coins that sums to an amount is shorter than the greedy change for it |

## Left out

- The command-line script `calculate_change_in_fewest_coins.php` is not part of this model. It parses arguments, casts with `(int)`, prints with `printf`, and converts to pounds with floating-point division. All of that is I/O or floating point.
- The `TypeError` tests for a missing, null, string, object, `false` or float argument are left out. They test PHP's runtime type checks. Here the amount is an `int` parameter, so those inputs cannot be written.
- PHP integer overflow is left out. Amounts are unbounded integers, and the algorithm itself never goes outside `0..amount`.
- New: the exception's message text ('invalid change value - cannot be negative') is not modelled. Only the fact that construction fails is modelled.
- `calculateUsingRecursion()`, which the tests call, is not defined in the class source. `Greedy.Change` plays its part as a reference definition. It is proved equal to the loops rather than transcribed.
- KeepDeductingCoin and KeepDeductingCoinWhileChangeAmountExists require a positive coin. With any other value the PHP loop would never end, and the class only ever passes table coins.
- Reusing one calculator object is covered only as far as `Calculate` states it: the new coins are appended to the coins already due.
