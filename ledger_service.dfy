/**
 * com.bankledger.service.LedgerService: each operation validates its inputs
 * against the current store, collects the messages per field in an
 * insertion-ordered error map, and either throws that map (changing nothing)
 * or commits through the repository.
 */
module Service {
  import opened JavaString
  import opened Messages
  import opened ErrorMap
  import opened Model
  import opened Repository
  import InputValidation
  import AccountValidation
  import AmountValidation
  import BalanceValidation

  /** The error map an account creation builds: one list, under "accountNumber". */
  function CreateAccountErrors(accountNumber: Option<string>, store: Balances): (errors: ErrorMap)
    ensures errors == [("accountNumber", AccountValidation.ValidateNewAccountNumber(accountNumber, store, "accountNumber"))]
    ensures !HasErrors(errors) <==>
              accountNumber.Some? && InputValidation.IsNineDigits(accountNumber.value)
              && accountNumber.value !in store
  {
    var accountNumberErrors := AccountValidation.ValidateNewAccountNumber(accountNumber, store, "accountNumber");
    AccountValidation.NewAccountNumberErrors(accountNumber, store, "accountNumber");
    PutIntoEmpty("accountNumber", accountNumberErrors);
    HasErrorsOne("accountNumber", accountNumberErrors);
    var errors := Put([], "accountNumber", accountNumberErrors);
    assert errors == [("accountNumber", accountNumberErrors)];
    assert !HasErrors(errors) <==> accountNumberErrors == [];
    errors
  }

  /** The error map an account lookup builds: one list, under "accountNumber". */
  function GetAccountErrors(accountNumber: Option<string>, store: Balances): (errors: ErrorMap)
    ensures errors == [("accountNumber", AccountValidation.ValidateExistingAccountNumber(accountNumber, store, "accountNumber"))]
    ensures !HasErrors(errors) <==>
              accountNumber.Some? && !IsBlank(accountNumber.value) && accountNumber.value in store
  {
    var accountNumberErrors := AccountValidation.ValidateExistingAccountNumber(accountNumber, store, "accountNumber");
    PutIntoEmpty("accountNumber", accountNumberErrors);
    HasErrorsOne("accountNumber", accountNumberErrors);
    var errors := Put([], "accountNumber", accountNumberErrors);
    assert errors == [("accountNumber", accountNumberErrors)];
    assert !HasErrors(errors) <==> accountNumberErrors == [];
    errors
  }

  /**
   * The error map a deposit builds: the account-number list is put first, the
   * amount list second.
   */
  function DepositErrors(accountNumber: Option<string>, amount: Option<string>, store: Balances)
    : (errors: ErrorMap)
    requires forall k :: k in store ==> InputValidation.IsNineDigits(k)
    ensures errors == [("accountNumber", AccountValidation.ValidateExistingAccountNumber(accountNumber, store, "accountNumber")),
                       ("amount", AmountValidation.ValidateAmount(amount, "amount"))]
    ensures !HasErrors(errors) <==>
              accountNumber.Some? && accountNumber.value in store
              && amount.Some? && InputValidation.IsPositiveAmount(amount.value)
  {
    var accountNumberErrors := AccountValidation.ValidateExistingAccountNumber(accountNumber, store, "accountNumber");
    var errors := Put([], "accountNumber", accountNumberErrors);
    var amountErrors := AmountValidation.ValidateAmount(amount, "amount");
    PutIntoEmpty("accountNumber", accountNumberErrors);
    PutSecond("accountNumber", accountNumberErrors, "amount", amountErrors);
    HasErrorsTwo("accountNumber", accountNumberErrors, "amount", amountErrors);
    if accountNumber.Some? then
      InputValidation.NineDigitsNotBlank(accountNumber.value);
      Put(errors, "amount", amountErrors)
    else Put(errors, "amount", amountErrors)
  }

  /**
   * The error map a withdraw builds. The balance check is put under "amount"
   * after the amount check, so its list replaces the amount list in place.
   */
  function WithdrawErrors(accountNumber: Option<string>, amount: Option<string>, store: Balances)
    : (errors: ErrorMap)
    requires forall k :: k in store ==> InputValidation.IsNineDigits(k)
    ensures errors == [("accountNumber", AccountValidation.ValidateExistingAccountNumber(accountNumber, store, "accountNumber")),
                       ("amount", BalanceValidation.ValidateSufficientBalance(accountNumber, store, amount, "amount"))]
    ensures !HasErrors(errors) <==>
              accountNumber.Some? && accountNumber.value in store
              && amount.Some? && InputValidation.IsPositiveAmount(amount.value)
              && ParseDouble(amount.value).value <= store[accountNumber.value]
    ensures accountNumber.Some? && accountNumber.value in store
            && amount.Some? && InputValidation.IsPositiveAmount(amount.value)
            && store[accountNumber.value] < ParseDouble(amount.value).value
            ==> errors == [("accountNumber", []), ("amount", [INSUFFICIENT_BALANCE])]
  {
    var accountNumberErrors := AccountValidation.ValidateExistingAccountNumber(accountNumber, store, "accountNumber");
    var errors := Put([], "accountNumber", accountNumberErrors);
    var amountErrors := AmountValidation.ValidateAmount(amount, "amount");
    var errors' := Put(errors, "amount", amountErrors);
    var balanceErrors := BalanceValidation.ValidateSufficientBalance(accountNumber, store, amount, "amount");
    PutIntoEmpty("accountNumber", accountNumberErrors);
    PutSecond("accountNumber", accountNumberErrors, "amount", amountErrors);
    PutSecondAgain("accountNumber", accountNumberErrors, "amount", amountErrors, balanceErrors);
    HasErrorsTwo("accountNumber", accountNumberErrors, "amount", balanceErrors);
    if accountNumber.Some? then
      InputValidation.NineDigitsNotBlank(accountNumber.value);
      Put(errors', "amount", balanceErrors)
    else Put(errors', "amount", balanceErrors)
  }

  class LedgerService {
    const accountRepository: AccountRepository

    /**
     * The store invariant kept when the service is the only writer: every key
     * is nine ASCII digits and maps to the account with that number.
     */
    ghost predicate Valid()
      reads this, accountRepository
    {
      forall k :: k in accountRepository.accounts ==>
        InputValidation.IsNineDigits(k) && accountRepository.accounts[k].accountNumber == k
    }

    constructor (accountRepository: AccountRepository)
      ensures this.accountRepository == accountRepository
      ensures accountRepository.accounts == map[] ==> Valid()
    {
      this.accountRepository := accountRepository;
    }

    method CreateAccount(accountNumber: Option<string>) returns (result: Result<()>)
      requires Valid()
      modifies accountRepository
      ensures Valid()
      ensures var errors := CreateAccountErrors(accountNumber, old(accountRepository.Balances()));
              (result.Thrown? <==> HasErrors(errors)) && (result.Thrown? ==> result.exception.errors == errors)
      ensures result.Ok? <==>
                accountNumber.Some? && InputValidation.IsNineDigits(accountNumber.value)
                && accountNumber.value !in old(accountRepository.accounts)
      ensures result.Thrown? ==> accountRepository.accounts == old(accountRepository.accounts)
      ensures result.Ok? ==>
                var number := accountNumber.value;
                && accountRepository.accounts.Keys == old(accountRepository.accounts).Keys + {number}
                && (forall k :: k in old(accountRepository.accounts) ==>
                      accountRepository.accounts[k] == old(accountRepository.accounts)[k])
                && fresh(accountRepository.accounts[number])
                && accountRepository.accounts[number].balance == 0.0
                && accountRepository.accounts[number].amount == 0.0
    {
      var errors := CreateAccountErrors(accountNumber, accountRepository.Balances());
      if HasErrors(errors) {
        return Thrown(ExceptionList(errors));
      }

      CommitCreate(accountNumber.value);
      result := Ok(());
    }

    /** The commit of an account creation: a new zero-balance account saved under its number. */
    method CommitCreate(number: string)
      requires Valid() && InputValidation.IsNineDigits(number)
      modifies accountRepository
      ensures Valid()
      ensures accountRepository.accounts.Keys == old(accountRepository.accounts).Keys + {number}
      ensures forall k :: k in old(accountRepository.accounts) && k != number ==>
                accountRepository.accounts[k] == old(accountRepository.accounts)[k]
      ensures fresh(accountRepository.accounts[number])
      ensures accountRepository.accounts[number].balance == 0.0
      ensures accountRepository.accounts[number].amount == 0.0
    {
      var account := new Account(number);
      accountRepository.Save(account);
    }

    method GetAccount(accountNumber: Option<string>) returns (result: Result<Account>)
      ensures var errors := GetAccountErrors(accountNumber, accountRepository.Balances());
              (result.Thrown? <==> HasErrors(errors)) && (result.Thrown? ==> result.exception.errors == errors)
      ensures result.Ok? <==>
                accountNumber.Some? && !IsBlank(accountNumber.value)
                && accountNumber.value in accountRepository.accounts
      ensures result.Ok? ==> result.value == accountRepository.accounts[accountNumber.value]
    {
      var errors := GetAccountErrors(accountNumber, accountRepository.Balances());
      if HasErrors(errors) {
        return Thrown(ExceptionList(errors));
      }

      var account := accountRepository.FindByAccountNumber(accountNumber);
      result := Ok(account);
    }

    method Deposit(accountNumber: Option<string>, amount: Option<string>) returns (result: Result<()>)
      requires Valid()
      modifies accountRepository, accountRepository.accounts.Values
      ensures Valid()
      ensures accountRepository.accounts == old(accountRepository.accounts)
      ensures accountRepository.Amounts() == old(accountRepository.Amounts())
      ensures var errors := DepositErrors(accountNumber, amount, old(accountRepository.Balances()));
              (result.Thrown? <==> HasErrors(errors)) && (result.Thrown? ==> result.exception.errors == errors)
      ensures result.Ok? <==>
                accountNumber.Some? && accountNumber.value in old(accountRepository.accounts)
                && amount.Some? && InputValidation.IsPositiveAmount(amount.value)
      ensures result.Thrown? ==> accountRepository.Balances() == old(accountRepository.Balances())
      ensures result.Ok? ==>
                var number, before := accountNumber.value, old(accountRepository.Balances());
                accountRepository.Balances()
                  == before[number := before[number] + ParseDouble(amount.value).value]
    {
      var errors := DepositErrors(accountNumber, amount, accountRepository.Balances());
      if HasErrors(errors) {
        return Thrown(ExceptionList(errors));
      }

      CommitDeposit(accountNumber.value, ParseDouble(amount.value).value);
      result := Ok(());
    }

    /**
     * As written, a successful withdraw records the amount on the account and
     * saves it, but leaves every balance as it was.
     */
    method Withdraw(accountNumber: Option<string>, amount: Option<string>) returns (result: Result<()>)
      requires Valid()
      modifies accountRepository, accountRepository.accounts.Values
      ensures Valid()
      ensures accountRepository.accounts == old(accountRepository.accounts)
      ensures accountRepository.Balances() == old(accountRepository.Balances())
      ensures var errors := WithdrawErrors(accountNumber, amount, old(accountRepository.Balances()));
              (result.Thrown? <==> HasErrors(errors)) && (result.Thrown? ==> result.exception.errors == errors)
      ensures result.Ok? <==>
                accountNumber.Some? && accountNumber.value in old(accountRepository.accounts)
                && amount.Some? && InputValidation.IsPositiveAmount(amount.value)
                && ParseDouble(amount.value).value <= old(accountRepository.Balances())[accountNumber.value]
      ensures result.Thrown? ==> accountRepository.Amounts() == old(accountRepository.Amounts())
      ensures result.Ok? ==>
                accountRepository.Amounts()
                  == old(accountRepository.Amounts())[accountNumber.value := ParseDouble(amount.value).value]
    {
      var errors := WithdrawErrors(accountNumber, amount, accountRepository.Balances());
      if HasErrors(errors) {
        return Thrown(ExceptionList(errors));
      }

      CommitWithdraw(accountNumber.value, ParseDouble(amount.value).value);
      result := Ok(());
    }

    /** The commit of a deposit: fetch the stored account, deposit into it in place, save it back. */
    method CommitDeposit(number: string, value: real)
      requires Valid() && number in accountRepository.accounts
      modifies accountRepository, accountRepository.accounts.Values
      ensures Valid()
      ensures accountRepository.accounts == old(accountRepository.accounts)
      ensures accountRepository.Amounts() == old(accountRepository.Amounts())
      ensures var before := old(accountRepository.Balances());
              accountRepository.Balances() == before[number := Deposited(before[number], value)]
    {
      var account := accountRepository.FindByAccountNumber(Some(number));
      account.Deposit(value);
      accountRepository.Save(account);
      assert accountRepository.accounts == old(accountRepository.accounts);
      forall k | k in accountRepository.accounts
        ensures accountRepository.accounts[k].amount == old(accountRepository.accounts[k].amount)
        ensures k != number ==> accountRepository.accounts[k].balance == old(accountRepository.accounts[k].balance)
      {
        assert accountRepository.accounts[k].accountNumber == k;
      }
    }

    /** The commit of a withdraw: fetch the stored account, record the amount on it, save it back. */
    method CommitWithdraw(number: string, value: real)
      requires Valid() && number in accountRepository.accounts
      modifies accountRepository, accountRepository.accounts.Values
      ensures Valid()
      ensures accountRepository.accounts == old(accountRepository.accounts)
      ensures accountRepository.Balances() == old(accountRepository.Balances())
      ensures accountRepository.Amounts() == old(accountRepository.Amounts())[number := value]
    {
      var account := accountRepository.FindByAccountNumber(Some(number));
      account.Withdraw(value);
      accountRepository.Save(account);
      assert accountRepository.accounts == old(accountRepository.accounts);
      forall k | k in accountRepository.accounts
        ensures accountRepository.accounts[k].balance == old(accountRepository.accounts[k].balance)
        ensures k != number ==> accountRepository.accounts[k].amount == old(accountRepository.accounts[k].amount)
      {
        assert accountRepository.accounts[k].accountNumber == k;
      }
    }
  }
}
