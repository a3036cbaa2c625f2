/**
 * The message suffixes of com.bankledger.constants.Messages. A field error is
 * the field name followed by one of these suffixes; the insufficient-balance
 * message stands alone.
 */
module Messages {

  const PARAMETER_BLANK: string := " must not be blank."
  const INVALID_ACCOUNT_NUMBER: string := " must be a 9 digit number."
  const ACCOUNT_NUMBER_EXISTS: string := " already exists."
  const ACCOUNT_NOT_FOUND: string := " not found."
  const AMOUNT_INVALID: string := " must be a number greater than zero."
  const INSUFFICIENT_BALANCE: string := "Insufficient balance."

  /**
   * The null-value suffix is referenced by the validation code but has no
   * definition in Messages; this text is a stand-in that differs from every
   * other suffix (its length is unique among them).
   */
  const PARAMETER_NULL: string := " must not be null."

  /**
   * The stand-in null message of a field is none of that field's other
   * messages, nor the insufficient-balance message.
   */
  lemma NullMessageIsDistinct(fieldName: string)
    ensures fieldName + PARAMETER_NULL != fieldName + PARAMETER_BLANK
    ensures fieldName + PARAMETER_NULL != fieldName + INVALID_ACCOUNT_NUMBER
    ensures fieldName + PARAMETER_NULL != fieldName + ACCOUNT_NUMBER_EXISTS
    ensures fieldName + PARAMETER_NULL != fieldName + ACCOUNT_NOT_FOUND
    ensures fieldName + PARAMETER_NULL != fieldName + AMOUNT_INVALID
    ensures fieldName + PARAMETER_NULL != INSUFFICIENT_BALANCE
  {
    var m := fieldName + PARAMETER_NULL;
    if |m| == |INSUFFICIENT_BALANCE| {
      assert m[|fieldName|] == ' ' != INSUFFICIENT_BALANCE[|fieldName|];
    }
  }
}
