/**
 * com.bankledger.validation.CommonValidation: the null check gates the blank
 * check, so a field gets at most one of the two messages.
 */
module CommonValidation {
  import opened JavaString
  import opened Messages
  import InputValidation

  function ValidateNotNullAndNotBlank(value: Option<string>, fieldName: string): (errors: seq<string>)
    ensures |errors| <= 1
    ensures value.None? ==> errors == [fieldName + PARAMETER_NULL]
    ensures value.Some? && IsBlank(value.value) ==> errors == [fieldName + PARAMETER_BLANK]
    ensures value.Some? && !IsBlank(value.value) ==> errors == []
  {
    var errors := InputValidation.ValidateNotNull(value, fieldName);
    if errors == [] then errors + InputValidation.ValidateNotBlank(value, fieldName) else errors
  }
}
