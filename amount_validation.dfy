/**
 * com.bankledger.validation.AmountValidation: null and blank are reported by
 * CommonValidation; only a value that passes them is checked for being a
 * number above zero, and that message always names the field "amount".
 */
module AmountValidation {
  import opened JavaString
  import opened Messages
  import CommonValidation
  import InputValidation

  function ValidateAmount(amount: Option<string>, fieldName: string): (errors: seq<string>)
    ensures |errors| <= 1
    ensures amount.None? ==> errors == [fieldName + PARAMETER_NULL]
    ensures amount.Some? && IsBlank(amount.value) ==> errors == [fieldName + PARAMETER_BLANK]
    ensures amount.Some? && !IsBlank(amount.value) ==>
              errors == if InputValidation.IsPositiveAmount(amount.value) then []
                        else ["amount" + AMOUNT_INVALID]
    ensures errors == [] <==> amount.Some? && InputValidation.IsPositiveAmount(amount.value)
  {
    var errors := CommonValidation.ValidateNotNullAndNotBlank(amount, fieldName);
    if errors == [] then errors + InputValidation.ValidateAmount(amount, "amount") else errors
  }
}
