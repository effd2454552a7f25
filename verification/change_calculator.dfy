/** The calculator object of src/ChangeCalculator.php: it owns the change
    still to be paid and the list of coins handed out so far. The object is
    modelled as an immutable value; each private method of the class becomes
    a function or method that returns the updated value. */
module ChangeCalculator {
  import opened Coins
  import opened Results
  import Greedy
  import Optimality

  /** The exception the constructor throws for a negative amount. */
  datatype CalculatorError = NegativeChangeAmount

  /** The object's two fields: change still owed and coins handed out. */
  datatype Calculator = Calculator(changeAmount: int, coinsDue: seq<int>)

  /** The state every constructed calculator stays in. */
  predicate Valid(calculator: Calculator) {
    calculator.changeAmount >= 0
  }

  /** The value a calculator accounts for: coins handed out plus change owed.
      Every step of the calculation keeps it fixed. */
  function Accounted(calculator: Calculator): int {
    Sum(calculator.coinsDue) + calculator.changeAmount
  }

  /** The constructor: a negative amount is refused before anything is
      computed; otherwise no coins are due yet. */
  function New(changeAmount: int): (r: Result<Calculator, CalculatorError>)
    ensures r.Failure? <==> changeAmount < 0
    ensures r.Success? ==> Valid(r.value) && r.value.coinsDue == []
                           && Accounted(r.value) == changeAmount
  {
    if changeAmount < 0 then Failure(NegativeChangeAmount)
    else Success(Calculator(changeAmount, []))
  }

  /** The calculation is complete exactly when no denomination fits into
      the change still owed. */
  function IsCalculationCompleted(calculator: Calculator): (done: bool)
    requires Valid(calculator)
    ensures done <==> forall k :: 0 <= k < |COINS| ==> COINS[k] > calculator.changeAmount
  {
    CoinsTable();
    calculator.changeAmount == 0
  }

  /** Takes the coin off the change owed; the coins due stay as they are. */
  function ReduceChangeAmountByCoin(calculator: Calculator, coin: int): (r: Calculator)
    ensures r.coinsDue == calculator.coinsDue
    ensures Accounted(r) == Accounted(calculator) - coin
  {
    calculator.(changeAmount := calculator.changeAmount - coin)
  }

  /** Appends the coin to the coins due; the change owed stays as it is. */
  function AddCoinToChange(calculator: Calculator, coin: int): (r: Calculator)
    ensures r.changeAmount == calculator.changeAmount
    ensures |r.coinsDue| == |calculator.coinsDue| + 1
    ensures r.coinsDue[..|calculator.coinsDue|] == calculator.coinsDue
    ensures r.coinsDue[|calculator.coinsDue|] == coin
    ensures Accounted(r) == Accounted(calculator) + coin
  {
    SumAppend(calculator.coinsDue, [coin]);
    calculator.(coinsDue := calculator.coinsDue + [coin])
  }

  /** One deduction: the coin moves from the change owed to the coins due,
      so the value accounted for does not change. */
  function DeductCoinFromChangeAndStoreUsage(calculator: Calculator, coin: int): (r: Calculator)
    ensures r.changeAmount == calculator.changeAmount - coin
    ensures r.coinsDue == calculator.coinsDue + [coin]
    ensures Accounted(r) == Accounted(calculator)
  {
    AddCoinToChange(ReduceChangeAmountByCoin(calculator, coin), coin)
  }

  /** Deducts the coin for as long as it is not larger than the change owed:
      it is handed out `changeAmount / coin` times and the remainder is left
      owing. Always reports that the calculation may go on. */
  method KeepDeductingCoin(calculator: Calculator, coin: int) returns (r: Calculator, carryOn: bool)
    requires Valid(calculator) && coin > 0
    ensures carryOn
    ensures Valid(r) && r.changeAmount < coin
    ensures r.changeAmount == calculator.changeAmount % coin
    ensures r.coinsDue == calculator.coinsDue + Repeat(coin, calculator.changeAmount / coin)
    ensures Accounted(r) == Accounted(calculator)
  {
    r := calculator;
    var used: nat := 0;
    while coin <= r.changeAmount
      invariant Valid(r)
      invariant r.changeAmount == calculator.changeAmount - used * coin
      invariant r.coinsDue == calculator.coinsDue + Repeat(coin, used)
      invariant Accounted(r) == Accounted(calculator)
      decreases r.changeAmount
    {
      r := DeductCoinFromChangeAndStoreUsage(r, coin);
      RepeatSnoc(coin, used);
      used := used + 1;
    }
    DivModUnique(calculator.changeAmount, coin, used, r.changeAmount);
    carryOn := true;
  }

  /** Stops the walk over the table once nothing is owed; otherwise deducts
      the coin as often as it fits. */
  method KeepDeductingCoinWhileChangeAmountExists(calculator: Calculator, coin: int)
    returns (r: Calculator, carryOn: bool)
    requires Valid(calculator) && coin > 0
    ensures carryOn <==> calculator.changeAmount != 0
    ensures !carryOn ==> r == calculator
    ensures Valid(r) && r.changeAmount < coin
    ensures r.changeAmount == calculator.changeAmount % coin
    ensures r.coinsDue == calculator.coinsDue + Repeat(coin, calculator.changeAmount / coin)
  {
    if IsCalculationCompleted(calculator) {
      assert calculator.changeAmount == 0;
      return calculator, false;
    }
    r, carryOn := KeepDeductingCoin(calculator, coin);
  }

  /** The walk over the denomination table, largest coin first, leaving the
      loop as soon as nothing is owed. It hands out exactly the greedy
      change of the reference definition, and leaves nothing owing. */
  method PerformCalculation(calculator: Calculator) returns (r: Calculator)
    requires Valid(calculator)
    ensures r.changeAmount == 0
    ensures r.coinsDue == calculator.coinsDue + Greedy.Change(calculator.changeAmount, 0)
    ensures Accounted(r) == Accounted(calculator)
  {
    CoinsTable();
    r := calculator;
    var i := 0;
    while i < |COINS|
      invariant 0 <= i <= |COINS|
      invariant Valid(r)
      invariant r.coinsDue + Greedy.Change(r.changeAmount, i)
             == calculator.coinsDue + Greedy.Change(calculator.changeAmount, 0)
      invariant 0 < i ==> r.changeAmount < COINS[i - 1]
    {
      var next, carryOn := KeepDeductingCoinWhileChangeAmountExists(r, COINS[i]);
      if !carryOn {
        Greedy.ChangeOfZero(i);
        break;
      }
      Greedy.DenominationRun(r.changeAmount, i);
      r := next;
      i := i + 1;
    }
    Greedy.ChangeOfZero(i);
    Greedy.ChangeSum(calculator.changeAmount, 0);
    SumAppend(calculator.coinsDue, Greedy.Change(calculator.changeAmount, 0));
  }

  /** Runs the calculation and returns the coins due, together with the
      calculator as the calculation leaves it. */
  method Calculate(calculator: Calculator) returns (coins: seq<int>, after: Calculator)
    requires Valid(calculator)
    ensures coins == after.coinsDue
    ensures coins == calculator.coinsDue + Greedy.Change(calculator.changeAmount, 0)
    ensures Valid(after) && after.changeAmount == 0
    ensures Accounted(after) == Accounted(calculator)
  {
    after := PerformCalculation(calculator);
    coins := after.coinsDue;
  }

  /** What a caller of the class sees: construct a calculator for the amount,
      then calculate. A negative amount is refused; any other amount is paid
      exactly, largest coins first, each denomination in one block, and with
      the fewest coins any way of paying it could use. */
  method ChangeFor(changeAmount: int) returns (r: Result<seq<int>, CalculatorError>)
    ensures r.Failure? <==> changeAmount < 0
    ensures r.Success? ==> r.value == Greedy.Change(changeAmount, 0)
    ensures r.Success? ==> Optimality.IsChangeFor(r.value, changeAmount)
    ensures r.Success? ==> NonIncreasing(r.value) && Contiguous(r.value)
    ensures r.Success? ==>
      forall s :: Optimality.IsChangeFor(s, changeAmount) ==> |r.value| <= |s|
  {
    var made := New(changeAmount);
    if made.Failure? {
      return Failure(made.error);
    }
    var coins, after := Calculate(made.value);
    Optimality.GreedyIsChange(changeAmount);
    Greedy.ChangeNonIncreasing(changeAmount, 0);
    NonIncreasingIsContiguous(coins);
    forall s | Optimality.IsChangeFor(s, changeAmount)
      ensures |coins| <= |s|
    {
      Optimality.FewestCoins(s, changeAmount);
    }
    r := Success(coins);
  }
}
