/**
 * com.bankledger.controller.LedgerController, reduced to what it decides: the
 * status and body of the HTTP response for each way a service call can end,
 * and the 400 body built from the service's error map.
 */
module Controller {
  import opened JavaString
  import opened Messages
  import opened ErrorMap
  import Service
  import InputValidation
  import AccountValidation
  import AmountValidation

  const OK: int := 200
  const BAD_REQUEST: int := 400
  const INTERNAL_SERVER_ERROR: int := 500

  /** How a service call ended: normally, with an ExceptionList, or with any other exception. */
  datatype Outcome = Completed | ValidationFailed(errors: ErrorMap) | UnexpectedError

  /** The body map {"status": ..., "errors": ...}; the errors part is an unordered map. */
  datatype ErrorBody = ErrorBody(status: int, errors: map<string, seq<string>>)

  datatype Response = Response(status: int, body: Option<ErrorBody>)

  /** The outcome of a service call that returned or threw an ExceptionList. */
  function OutcomeOf<T>(r: Result<T>): (o: Outcome)
    ensures o.Completed? <==> r.Ok?
    ensures r.Thrown? ==> o == ValidationFailed(r.exception.errors)
  {
    match r
    case Ok(_) => Completed
    case Thrown(e) => ValidationFailed(e.errors)
  }

  /**
   * The stream filter-and-collect: the entries whose list is non-empty, each
   * with its list unchanged, and no key that is not in the input.
   */
  function NonEmptyEntries(m: seq<Entry>): (r: map<string, seq<string>>)
    requires UniqueKeys(m)
    ensures forall k :: k in r ==> r[k] != [] && exists i :: 0 <= i < |m| && m[i] == (k, r[k])
    ensures forall i :: 0 <= i < |m| && m[i].1 != [] ==> m[i].0 in r && r[m[i].0] == m[i].1
  {
    if m == [] then map[]
    else
      var rest := NonEmptyEntries(m[1..]);
      assert forall i :: 0 <= i < |m[1..]| ==> m[1..][i] == m[i + 1];
      if m[0].1 != [] then rest[m[0].0 := m[0].1] else rest
  }

  /** buildErrorResponse: status 400 and the non-empty error lists. */
  function BuildErrorResponse(errors: ErrorMap): (body: ErrorBody)
    ensures body.status == BAD_REQUEST
    ensures forall k :: k in body.errors ==> body.errors[k] != [] && HasKey(errors, k) && Get(errors, k) == body.errors[k]
    ensures forall k :: HasKey(errors, k) && Get(errors, k) != [] ==> k in body.errors
  {
    var r := NonEmptyEntries(errors);
    forall k | k in r ensures HasKey(errors, k) && Get(errors, k) == r[k] {
      var i :| 0 <= i < |errors| && errors[i] == (k, r[k]);
      GetAt(errors, i);
    }
    forall k | HasKey(errors, k) && Get(errors, k) != [] ensures k in r {
      var i :| 0 <= i < |errors| && errors[i].0 == k;
      GetAt(errors, i);
    }
    ErrorBody(BAD_REQUEST, r)
  }

  /** The three-way dispatch of each endpoint's try/catch. */
  function Respond(outcome: Outcome): (response: Response)
    ensures response.status == OK <==> outcome.Completed?
    ensures response.status == BAD_REQUEST <==> outcome.ValidationFailed?
    ensures response.status == INTERNAL_SERVER_ERROR <==> outcome.UnexpectedError?
    ensures response.body.Some? <==> outcome.ValidationFailed?
    ensures outcome.ValidationFailed? ==> response.body.value == BuildErrorResponse(outcome.errors)
  {
    match outcome
    case Completed => Response(OK, None)
    case ValidationFailed(errors) => Response(BAD_REQUEST, Some(BuildErrorResponse(errors)))
    case UnexpectedError => Response(INTERNAL_SERVER_ERROR, None)
  }

  /**
   * The response to a service call that returned or threw an ExceptionList:
   * 200 with no body, or 400 with the error body, never 500; a map the service
   * throws, which holds a non-empty list, never yields an empty errors part.
   */
  lemma ServiceResponse<T>(r: Result<T>)
    ensures Respond(OutcomeOf(r)) ==
              if r.Ok? then Response(OK, None)
              else Response(BAD_REQUEST, Some(BuildErrorResponse(r.exception.errors)))
    ensures r.Thrown? && HasErrors(r.exception.errors) ==>
              Respond(OutcomeOf(r)).body.value.errors != map[]
  {
    if r.Thrown? {
      ErrorsBodyEmptyIff(r.exception.errors);
    }
  }

  /** A thrown error map holds a non-empty list, so the 400 body never has an empty errors part. */
  lemma {:induction false} ErrorsBodyEmptyIff(errors: ErrorMap)
    ensures BuildErrorResponse(errors).errors == map[] <==> !HasErrors(errors)
  {
    var body := BuildErrorResponse(errors);
    if HasErrors(errors) {
      var i :| 0 <= i < |errors| && errors[i].1 != [];
      GetAt(errors, i);
      assert errors[i].0 in body.errors;
    }
  }

  /** Only the second of two entries, with an empty first list, reaches the body. */
  lemma SecondOnlyBody(k1: string, k2: string, v: seq<string>)
    requires k1 != k2 && v != []
    ensures BuildErrorResponse([(k1, []), (k2, v)]).errors == map[k2 := v]
  {
    var m: seq<Entry> := [(k1, []), (k2, v)];
    var last: seq<Entry> := [(k2, v)];
    assert m[1..] == last;
    assert last[1..] == [];
    assert NonEmptyEntries(last) == map[k2 := v];
    assert NonEmptyEntries(m) == NonEmptyEntries(last);
  }

  /** The end-to-end response to a withdraw that the balance check rejects. */
  lemma InsufficientBalanceResponse(accountNumber: Option<string>, amount: Option<string>,
                                   store: map<string, real>)
    requires forall k :: k in store ==> InputValidation.IsNineDigits(k)
    requires accountNumber.Some? && accountNumber.value in store
    requires amount.Some? && InputValidation.IsPositiveAmount(amount.value)
    requires store[accountNumber.value] < ParseDouble(amount.value).value
    ensures Respond(ValidationFailed(Service.WithdrawErrors(accountNumber, amount, store)))
         == Response(BAD_REQUEST, Some(ErrorBody(BAD_REQUEST, map["amount" := [INSUFFICIENT_BALANCE]])))
  {
    assert Service.WithdrawErrors(accountNumber, amount, store)
        == [("accountNumber", []), ("amount", [INSUFFICIENT_BALANCE])];
    SecondOnlyBody("accountNumber", "amount", [INSUFFICIENT_BALANCE]);
  }

  /** The end-to-end response to a deposit of a non-numeric or non-positive amount into a stored account. */
  lemma InvalidAmountResponse(accountNumber: Option<string>, amount: Option<string>,
                             store: map<string, real>)
    requires forall k :: k in store ==> InputValidation.IsNineDigits(k)
    requires accountNumber.Some? && accountNumber.value in store
    requires amount.Some? && !IsBlank(amount.value) && !InputValidation.IsPositiveAmount(amount.value)
    ensures Respond(ValidationFailed(Service.DepositErrors(accountNumber, amount, store)))
         == Response(BAD_REQUEST, Some(ErrorBody(BAD_REQUEST, map["amount" := ["amount" + AMOUNT_INVALID]])))
  {
    InputValidation.NineDigitsNotBlank(accountNumber.value);
    assert AccountValidation.ValidateExistingAccountNumber(accountNumber, store, "accountNumber") == [];
    assert AmountValidation.ValidateAmount(amount, "amount") == ["amount" + AMOUNT_INVALID];
    SecondOnlyBody("accountNumber", "amount", ["amount" + AMOUNT_INVALID]);
  }
}
