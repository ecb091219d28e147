/** The recursive doubling function of Unit08 (3_recursion.py). */
module Recursion {
  import opened Wrappers

  /** `double` on a non-negative amount: 2 is added once per step down to 0,
      so the result is twice the amount. */
  function Double(amount: int): (r: int)
    requires amount >= 0
    ensures r == 2 * amount
  {
    if amount == 0 then 0 else 2 + Double(amount - 1)
  }

  /** `double` on any integer, run for at most `fuel` calls: None when the
      calls run out before the base case is reached. */
  function DoubleWithin(amount: int, fuel: nat): Option<int>
    decreases fuel
  {
    if fuel == 0 then None
    else if amount == 0 then Some(0)
    else match DoubleWithin(amount - 1, fuel - 1)
      case None => None
      case Some(d) => Some(2 + d)
  }

  /** A negative amount never reaches the base case, however many calls are
      allowed; a non-negative one finishes exactly when `amount + 1` calls
      are allowed, with the same result as `Double`. With CPython's recursion
      limit as the budget, running out is the RecursionError. */
  lemma {:induction false} DoubleTermination(amount: int, fuel: nat)
    ensures amount < 0 ==> DoubleWithin(amount, fuel) == None
    ensures amount >= 0 && fuel > amount ==> DoubleWithin(amount, fuel) == Some(Double(amount))
    ensures amount >= 0 && fuel <= amount ==> DoubleWithin(amount, fuel) == None
    decreases fuel
  {
    if fuel > 0 && amount != 0 {
      DoubleTermination(amount - 1, fuel - 1);
    }
  }
}
