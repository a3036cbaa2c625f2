/**
 * com.bankledger.validation.AccountValidation: account-number checks for a new
 * account and for an existing one. The store is consulted only once the value
 * has passed the null and blank gate; here it is given as the balances map.
 */
module AccountValidation {
  import opened JavaString
  import opened Messages
  import opened InputValidation
  import CommonValidation
  import Repository

  /** Format and already-exists checks both run, in that order, after the gate. */
  function ValidateNewAccountNumber(accountNumber: Option<string>, store: Repository.Balances, fieldName: string)
    : (errors: seq<string>)
    ensures accountNumber.None? || IsBlank(accountNumber.value) ==>
              errors == CommonValidation.ValidateNotNullAndNotBlank(accountNumber, fieldName)
    ensures accountNumber.Some? && !IsBlank(accountNumber.value) ==>
              errors == (if IsNineDigits(accountNumber.value) then [] else [fieldName + INVALID_ACCOUNT_NUMBER])
                      + (if accountNumber.value in store then [fieldName + ACCOUNT_NUMBER_EXISTS] else [])
  {
    var errors := CommonValidation.ValidateNotNullAndNotBlank(accountNumber, fieldName);
    match accountNumber
    case None => errors
    case Some(number) =>
      if errors == [] then
        var format := InputValidation.ValidateAccountNumber(accountNumber, fieldName);
        var existing := InputValidation.ValidateAccountNumberExists(number in store, fieldName);
        errors + format + existing
      else errors
  }

  /** At most two messages, and none exactly for a well-formed number that is not stored yet. */
  lemma NewAccountNumberErrors(accountNumber: Option<string>, store: Repository.Balances, fieldName: string)
    ensures var errors := ValidateNewAccountNumber(accountNumber, store, fieldName);
            && |errors| <= 2
            && (errors == [] <==> accountNumber.Some? && IsNineDigits(accountNumber.value) && accountNumber.value !in store)
  {
    if accountNumber.Some? {
      NineDigitsNotBlank(accountNumber.value);
    }
  }

  /** No format check; a missing account is always reported under the name "accountNumber". */
  function ValidateExistingAccountNumber(accountNumber: Option<string>, store: Repository.Balances, fieldName: string)
    : (errors: seq<string>)
    ensures |errors| <= 1
    ensures accountNumber.None? || IsBlank(accountNumber.value) ==>
              errors == CommonValidation.ValidateNotNullAndNotBlank(accountNumber, fieldName)
    ensures accountNumber.Some? && !IsBlank(accountNumber.value) ==>
              errors == if accountNumber.value in store then [] else ["accountNumber" + ACCOUNT_NOT_FOUND]
    ensures errors == [] <==>
              accountNumber.Some? && !IsBlank(accountNumber.value) && accountNumber.value in store
  {
    var errors := CommonValidation.ValidateNotNullAndNotBlank(accountNumber, fieldName);
    if errors == [] then
      errors + InputValidation.ValidateAccountNotFound(accountNumber.value in store, "accountNumber")
    else errors
  }

  /** A null or blank number is judged without looking at the store. */
  lemma GateIgnoresStore(accountNumber: Option<string>, store1: Repository.Balances, store2: Repository.Balances,
                         fieldName: string)
    requires accountNumber.None? || IsBlank(accountNumber.value)
    ensures ValidateNewAccountNumber(accountNumber, store1, fieldName)
         == ValidateNewAccountNumber(accountNumber, store2, fieldName)
    ensures ValidateExistingAccountNumber(accountNumber, store1, fieldName)
         == ValidateExistingAccountNumber(accountNumber, store2, fieldName)
  {
  }
}
