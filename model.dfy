/**
 * com.bankledger.model: the mutable Account and the immutable Transaction record.
 */
module Model {

  /**
   * An account. The number is fixed at construction; deposit adds a positive
   * amount to the balance, and withdraw only records the amount it was given.
   */
  class Account {
    const accountNumber: string
    var amount: real
    var balance: real

    constructor (accountNumber: string)
      ensures this.accountNumber == accountNumber
      ensures amount == 0.0 && balance == 0.0
    {
      this.accountNumber := accountNumber;
      amount, balance := 0.0, 0.0;
    }

    method Deposit(amount: real)
      modifies this
      ensures balance == Deposited(old(balance), amount)
      ensures this.amount == old(this.amount)
    {
      if amount > 0.0 {
        balance := balance + amount;
      }
    }

    /** As written, the balance is left as it is. */
    method Withdraw(amount: real)
      modifies this
      ensures this.amount == amount
      ensures balance == old(balance)
    {
      this.amount := amount;
    }
  }

  /** The balance after Account.deposit(amount): unchanged unless amount is above zero. */
  function Deposited(balance: real, amount: real): (r: real)
    ensures amount > 0.0 ==> r == balance + amount
    ensures amount <= 0.0 ==> r == balance
    ensures r >= balance
  {
    if amount > 0.0 then balance + amount else balance
  }

  /** The balance after n calls of deposit(amount) starting from balance. */
  function DepositedTimes(n: nat, balance: real, amount: real): real
  {
    if n == 0 then balance else Deposited(DepositedTimes(n - 1, balance, amount), amount)
  }

  /** n deposits of a positive amount on a new account give n times that amount. */
  lemma {:induction false} RepeatedDeposits(n: nat, amount: real)
    requires amount > 0.0
    ensures DepositedTimes(n, 0.0, amount) == n as real * amount
  {
    if n > 0 {
      RepeatedDeposits(n - 1, amount);
    }
  }

  /** Deposits of amounts that are not positive never move the balance. */
  lemma {:induction false} NonPositiveDepositsAreIgnored(n: nat, balance: real, amount: real)
    requires amount <= 0.0
    ensures DepositedTimes(n, balance, amount) == balance
  {
    if n > 0 {
      NonPositiveDepositsAreIgnored(n - 1, balance, amount);
    }
  }

  /** The opaque creation time that Transaction reads from the clock. */
  datatype Timestamp = Timestamp(millis: int)

  /** A transaction record; it is never changed after construction. */
  datatype Transaction = Transaction(accountNumber: string, amount: real, kind: string, date: Timestamp)
}
