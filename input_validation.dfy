/**
 * The primitive checks of com.bankledger.validation.InputValidation. Each one
 * returns a fresh list holding at most one message, built from the field name
 * and a Messages suffix.
 */
module InputValidation {
  import opened JavaString
  import opened Messages

  /** A non-null, non-blank amount text that parses to a value above zero. */
  predicate IsPositiveAmount(s: string) {
    ParseDouble(s).Some? && ParseDouble(s).value > 0.0
  }

  /** The shape "\d{9}" demands of an account number. */
  predicate IsNineDigits(s: string) {
    |s| == 9 && AllDigits(s)
  }

  /** A well-formed account number is never blank. */
  lemma NineDigitsNotBlank(s: string)
    ensures IsNineDigits(s) ==> !IsBlank(s)
  {
    if IsNineDigits(s) {
      assert IsAsciiDigit(s[0]);
    }
  }

  function ValidateNotNull(value: Option<string>, fieldName: string): (errors: seq<string>)
    ensures |errors| <= 1
    ensures errors != [] <==> value.None?
    ensures errors != [] ==> errors == [fieldName + PARAMETER_NULL]
  {
    if value.None? then [fieldName + PARAMETER_NULL] else []
  }

  function ValidateNotBlank(value: Option<string>, fieldName: string): (errors: seq<string>)
    ensures |errors| <= 1
    ensures errors != [] <==> value.None? || IsBlank(value.value)
    ensures errors != [] ==> errors == [fieldName + PARAMETER_BLANK]
  {
    match value
    case None => [fieldName + PARAMETER_BLANK]
    case Some(s) =>
      TrimEmptyIffBlank(s);
      if Trim(s) == [] then [fieldName + PARAMETER_BLANK] else []
  }

  /** Returns nothing for null or blank input: those are reported by the gating checks. */
  function ValidateAmount(value: Option<string>, fieldName: string): (errors: seq<string>)
    ensures |errors| <= 1
    ensures value.None? || IsBlank(value.value) ==> errors == []
    ensures value.Some? && !IsBlank(value.value) ==>
              (errors != [] <==> !IsPositiveAmount(value.value))
    ensures errors != [] ==> errors == [fieldName + AMOUNT_INVALID]
  {
    match value
    case None => []
    case Some(s) =>
      TrimEmptyIffBlank(s);
      if Trim(s) == [] then []
      else
        match ParseDouble(s)
        case None => [fieldName + AMOUNT_INVALID]   // NumberFormatException
        case Some(amount) => if amount <= 0.0 then [fieldName + AMOUNT_INVALID] else []
  }

  /** Returns nothing for null or blank input; otherwise fails unless the value is exactly nine ASCII digits. */
  function ValidateAccountNumber(value: Option<string>, fieldName: string): (errors: seq<string>)
    ensures |errors| <= 1
    ensures value.None? || IsBlank(value.value) ==> errors == []
    ensures value.Some? && !IsBlank(value.value) ==>
              (errors != [] <==> !IsNineDigits(value.value))
    ensures errors != [] ==> errors == [fieldName + INVALID_ACCOUNT_NUMBER]
  {
    match value
    case None => []
    case Some(s) =>
      TrimEmptyIffBlank(s);
      if Trim(s) == [] then []
      else if !MatchesDigits(s, 9) then [fieldName + INVALID_ACCOUNT_NUMBER]
      else []
  }

  function ValidateAccountNumberExists(alreadyExists: bool, fieldName: string): (errors: seq<string>)
    ensures |errors| <= 1
    ensures errors != [] <==> alreadyExists
    ensures errors != [] ==> errors == [fieldName + ACCOUNT_NUMBER_EXISTS]
  {
    if alreadyExists then [fieldName + ACCOUNT_NUMBER_EXISTS] else []
  }

  function ValidateAccountNotFound(found: bool, fieldName: string): (errors: seq<string>)
    ensures |errors| <= 1
    ensures errors != [] <==> !found
    ensures errors != [] ==> errors == [fieldName + ACCOUNT_NOT_FOUND]
  {
    if !found then [fieldName + ACCOUNT_NOT_FOUND] else []
  }

  /** The message carries no field name, so fieldName has no effect. */
  function ValidateSufficientBalance(sufficient: bool, fieldName: string): (errors: seq<string>)
    ensures |errors| <= 1
    ensures errors != [] <==> !sufficient
    ensures errors != [] ==> errors == [INSUFFICIENT_BALANCE]
  {
    if !sufficient then [INSUFFICIENT_BALANCE] else []
  }
}
