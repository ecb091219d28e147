/** The encapsulated two-balance bank account of Unit06 (ex3.py). */
module Banking {

  /** Account names accepted by `deposit` and `withdraw`. */
  const Checking: string := "checking"
  const Savings: string := "savings"

  class BankAccount {
    var checking: real
    var savings: real

    /** Neither balance is ever negative. */
    predicate Valid()
      reads this
    {
      checking >= 0.0 && savings >= 0.0
    }

    /** Both balances start at zero. */
    constructor ()
      ensures checking == 0.0 && savings == 0.0
      ensures Valid()
    {
      checking := 0.0;
      savings := 0.0;
    }

    /** `get_checking`. */
    function GetChecking(): (r: real)
      reads this
      ensures Valid() ==> r >= 0.0
    {
      checking
    }

    /** `get_savings`. */
    function GetSavings(): (r: real)
      reads this
      ensures Valid() ==> r >= 0.0
    {
      savings
    }

    /** `set_checking`: a negative amount is refused; savings is untouched. */
    method SetChecking(amount: real)
      modifies this
      ensures checking == if amount >= 0.0 then amount else old(checking)
      ensures savings == old(savings)
      ensures old(Valid()) ==> Valid()
    {
      if amount >= 0.0 {
        checking := amount;
      }
    }

    /** `set_savings`: a negative amount is refused; checking is untouched. */
    method SetSavings(amount: real)
      modifies this
      ensures savings == if amount >= 0.0 then amount else old(savings)
      ensures checking == old(checking)
      ensures old(Valid()) ==> Valid()
    {
      if amount >= 0.0 {
        savings := amount;
      }
    }

    /** `deposit`: a positive amount goes to the named account only; any other
        amount or account name changes nothing. */
    method Deposit(accountType: string, amount: real)
      modifies this
      ensures checking == if amount > 0.0 && accountType == Checking then old(checking) + amount else old(checking)
      ensures savings == if amount > 0.0 && accountType == Savings then old(savings) + amount else old(savings)
      ensures old(Valid()) ==> Valid()
    {
      if amount > 0.0 {
        if accountType == Checking {
          checking := checking + amount;
        } else if accountType == Savings {
          savings := savings + amount;
        }
      }
    }

    /** `withdraw`: subtracts from the named account when the amount does not
        exceed its balance; otherwise (insufficient funds or an unknown
        account) both balances stay as they were. The result says whether the
        withdrawal happened, which the source reports only by printing. */
    method Withdraw(accountType: string, amount: real) returns (done: bool)
      modifies this
      ensures done == ((accountType == Checking && amount <= old(checking)) ||
                       (accountType == Savings && amount <= old(savings)))
      ensures checking == if accountType == Checking && amount <= old(checking) then old(checking) - amount else old(checking)
      ensures savings == if accountType == Savings && amount <= old(savings) then old(savings) - amount else old(savings)
      ensures old(Valid()) ==> Valid()
    {
      if accountType == Checking && amount <= checking {
        checking := checking - amount;
        done := true;
      } else if accountType == Savings && amount <= savings {
        savings := savings - amount;
        done := true;
      } else {
        done := false;
      }
    }
  }

  /** A deposit of a positive amount followed by a withdrawal of the same
      amount from the same account leaves both balances as they were. */
  method DepositThenWithdraw(account: BankAccount, accountType: string, amount: real) returns (done: bool)
    requires account.Valid()
    requires amount > 0.0 && (accountType == Checking || accountType == Savings)
    modifies account
    ensures done
    ensures account.checking == old(account.checking) && account.savings == old(account.savings)
  {
    account.Deposit(accountType, amount);
    done := account.Withdraw(accountType, amount);
  }
}
