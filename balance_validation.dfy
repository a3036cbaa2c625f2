/**
 * com.bankledger.validation.BalanceValidation: amount validation first; only a
 * valid amount is compared with the stored balance, and only when the account
 * exists.
 */
module BalanceValidation {
  import opened JavaString
  import opened Messages
  import InputValidation
  import AmountValidation
  import Repository

  function ValidateSufficientBalance(accountNumber: Option<string>, store: Repository.Balances,
                                     amount: Option<string>, fieldName: string): (errors: seq<string>)
    ensures |errors| <= 1
    ensures AmountValidation.ValidateAmount(amount, fieldName) != [] ==>
              errors == AmountValidation.ValidateAmount(amount, fieldName)
    ensures AmountValidation.ValidateAmount(amount, fieldName) == [] ==>
              errors == if accountNumber.Some? && accountNumber.value in store
                           && store[accountNumber.value] < ParseDouble(amount.value).value
                        then [INSUFFICIENT_BALANCE] else []
  {
    var errors := AmountValidation.ValidateAmount(amount, fieldName);
    if errors != [] then errors
    else if accountNumber.Some? && accountNumber.value in store then
      errors + InputValidation.ValidateSufficientBalance(
        store[accountNumber.value] >= ParseDouble(amount.value).value, "amount")
    else errors
  }
}
