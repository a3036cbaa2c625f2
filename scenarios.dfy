/**
 * Whole-system call sequences from an empty store, following the service's
 * unit tests: each method builds a fresh repository and service and states
 * what the sequence ends with.
 */
module Scenarios {
  import opened JavaString
  import opened Messages
  import opened ErrorMap
  import opened Model
  import opened Repository
  import opened Service
  import AccountValidation

  /** A two-decimal amount text of c > 0 cents is a valid amount worth c / 100. */
  lemma AmountText(t: string, c: nat)
    requires c > 0 && t == FormatCents(c)
    ensures InputValidation.IsPositiveAmount(t) && ParseDouble(t).value == c as real / 100.0
  {
    FormatCentsRoundTrip(c);
  }

  /** The texts the service tests use are such two-decimal amounts. */
  lemma TestAmounts()
    ensures FormatCents(10000) == "100.00"
    ensures FormatCents(5000) == "50.00"
    ensures FormatCents(100) == "1.00"
  {
    assert NatToDigits(1) == "1";
    assert NatToDigits(10) == "10";
    assert NatToDigits(100) == "100";
    assert NatToDigits(5) == "5";
    assert NatToDigits(50) == "50";
  }

  /** A fresh store and service holding one new account. */
  method OpenLedger(number: string) returns (repository: AccountRepository, service: LedgerService)
    requires InputValidation.IsNineDigits(number)
    ensures fresh(repository) && fresh(service)
    ensures service.accountRepository == repository && service.Valid()
    ensures repository.accounts.Keys == {number} && fresh(repository.accounts[number])
    ensures repository.accounts[number].balance == 0.0
  {
    repository := new AccountRepository();
    service := new LedgerService(repository);
    var created := service.CreateAccount(Some(number));
    assert created.Ok?;
  }

  /** A new account given a deposit of a two-decimal amount holds that amount ("100.00" gives 100). */
  method DepositScenario(number: string, text: string, cents: nat) returns (balance: real)
    requires InputValidation.IsNineDigits(number)
    requires cents > 0 && text == FormatCents(cents)
    ensures balance == cents as real / 100.0
  {
    var repository, service := OpenLedger(number);
    AmountText(text, cents);

    var deposited := service.Deposit(Some(number), Some(text));
    balance := repository.Balances()[number];
  }

  /**
   * A deposit followed by a withdraw of no more than it succeeds, records the
   * withdrawn amount on the account and, as written, leaves the balance at
   * the deposit ("100.00" then "50.00" leaves 100, where 50 was expected).
   */
  method WithdrawScenario(number: string, depositText: string, depositCents: nat,
                          withdrawText: string, withdrawCents: nat)
    returns (withdrawn: Result<()>, balance: real, amount: real)
    requires InputValidation.IsNineDigits(number)
    requires depositCents > 0 && depositText == FormatCents(depositCents)
    requires 0 < withdrawCents <= depositCents && withdrawText == FormatCents(withdrawCents)
    ensures withdrawn.Ok?
    ensures balance == depositCents as real / 100.0 && amount == withdrawCents as real / 100.0
  {
    var repository, service := OpenLedger(number);
    AmountText(depositText, depositCents);
    AmountText(withdrawText, withdrawCents);

    var deposited := service.Deposit(Some(number), Some(depositText));
    withdrawn := service.Withdraw(Some(number), Some(withdrawText));
    var account := repository.FindByAccountNumber(Some(number));
    balance, amount := account.balance, account.amount;
  }

  /** Any withdraw from a new account fails on the balance alone, and the balance stays 0 ("1.00" fails). */
  method ZeroBalanceScenario(number: string, text: string, cents: nat) returns (withdrawn: Result<()>, balance: real)
    requires InputValidation.IsNineDigits(number)
    requires cents > 0 && text == FormatCents(cents)
    ensures withdrawn == Thrown(ExceptionList([("accountNumber", []), ("amount", [INSUFFICIENT_BALANCE])]))
    ensures balance == 0.0
  {
    var repository, service := OpenLedger(number);
    AmountText(text, cents);

    withdrawn := service.Withdraw(Some(number), Some(text));
    balance := repository.Balances()[number];
  }

  /** A second creation of the same number fails with the exists message and keeps the first account. */
  method DuplicateAccountScenario(number: string) returns (second: Result<()>, kept: bool)
    requires InputValidation.IsNineDigits(number)
    ensures second == Thrown(ExceptionList([("accountNumber", ["accountNumber" + ACCOUNT_NUMBER_EXISTS])]))
    ensures kept
  {
    var repository := new AccountRepository();
    var service := new LedgerService(repository);

    var first := service.CreateAccount(Some(number));
    var stored := repository.accounts[number];
    var store := repository.Balances();
    assert number in store;
    InputValidation.NineDigitsNotBlank(number);
    assert AccountValidation.ValidateNewAccountNumber(Some(number), store, "accountNumber")
        == ["accountNumber" + ACCOUNT_NUMBER_EXISTS];
    second := service.CreateAccount(Some(number));
    kept := repository.accounts[number] == stored;
  }

  /** The transaction log returns what was saved, in the order it was saved. */
  method TransactionLogScenario(first: Transaction, second: Transaction) returns (all: seq<Transaction>)
    ensures all == [first, second]
  {
    var log := new TransactionRepository();
    log.Save(first);
    log.Save(second);
    all := log.FindAll();
  }
}
