# Bank ledger core, modelled in Dafny

This project models the domain core of a small in-memory bank ledger, a Spring
service with four operations:
- create an account under a nine-digit number;
- look an account up;
- deposit an amount;
- withdraw an amount.

Every request is checked by a chain of validators. Each validator returns a list of messages built as
`fieldName + suffix`. The service collects these lists per field in an
insertion-ordered map (`LinkedHashMap`). If any list is non-empty, it throws
that map as an `ExceptionList` and changes nothing. Otherwise it commits the
change through the account repository. The controller turns each outcome into
an HTTP status and, for a validation failure, a body holding only the
non-empty lists.

Modules, following the Java packages:

- `JavaString` (`java_string.dfy`): the Java string behaviour the validators
  depend on: nullable strings, `String.trim`, the regular expression `\d{9}`,
  and a restricted `Double.parseDouble`.
- `Messages` (`messages.dfy`): the message suffixes.
- `InputValidation`, `CommonValidation`, `AmountValidation`,
  `AccountValidation`, `BalanceValidation`: the validators. These are pure
  functions. Each one that consults the store takes a snapshot of it: the map
  from account number to balance.
- `Model` (`model.dfy`): `Account`, a class with a fixed number and mutable
  `amount` and `balance`. It also holds the `Transaction` record.
- `Repository` (`repository.dfy`): `AccountRepository`, a class over a
  `map<string, Account>` that holds object references, and
  `TransactionRepository`, a class over a `seq<Transaction>`.
- `ErrorMap` (`error_map.dfy`): the insertion-ordered error map, the
  `ExceptionList` payload, and the return-or-throw `Result`.
- `Service` (`ledger_service.dfy`): `LedgerService`. Each operation is a method
  that builds its error map with a pure function (`CreateAccountErrors`,
  `GetAccountErrors`, `DepositErrors`, `WithdrawErrors`). The method then
  either returns `Thrown` or commits. The store invariant `Valid()` says that
  every key is nine ASCII digits and maps to the account carrying that number.
  Every operation preserves it.
- `Controller` (`ledger_controller.dfy`): the outcome-to-status dispatch and
  the error-body builder, over an abstract outcome. The module does not use
  Spring types.
- `Scenarios` (`scenarios.dfy`): whole-system call sequences from an empty
  store. They follow the service's unit tests and state what each sequence
  ends with.

A Java `null` is `None` of `Option`. Amounts and balances are `real`. The
text of an amount is parsed by `JavaString.ParseDouble`, a decimal grammar with
this shape:
- characters at or below U+0020 are trimmed from both ends;
- what remains is `sign? (digits ('.' digits?)? | '.' digits)`, where `sign`
  is `+` or `-` and `digits` is one or more ASCII digits, so "5", "5.", "5.25"
  and ".5" are accepted.

The Java exception `NumberFormatException` is modelled as `None`.
`Messages.PARAMETER_NULL` is used by the code but never defined in
`Messages.java`. The model uses the stand-in `" must not be null."`, whose
length differs from every other suffix.

## Model

| member | source | states |
|---|---|---|
| JavaString.TrimEmptyIffBlank | src/main/java/com/bankledger/validation/InputValidation.java:20 | `trim().isEmpty()` holds exactly when every char of the value is at or below U+0020 |
| JavaString.Trim | src/main/java/com/bankledger/validation/InputValidation.java:20 | the result is the slice of the input that starts after its leading run of chars at or below U+0020; every char before and after the slice is at or below U+0020, and a non-empty result neither starts nor ends with one |
| JavaString.MatchesDigits | src/main/java/com/bankledger/validation/InputValidation.java:44 | `matches("\\d{n}")` accepts exactly the strings of length n made of ASCII digits, in both directions |
| JavaString.ParseDouble | src/main/java/com/bankledger/validation/InputValidation.java:30 | a parse succeeds only on non-blank text; a value with a leading '-' is at most 0, any other value is at least 0 |
| JavaString.FormatCentsRoundTrip | src/main/java/com/bankledger/validation/InputValidation.java:30 | every two-decimal amount text (such as "100.00") parses to exactly its value in cents divided by 100 |
| JavaString.DigitsRoundTrip | src/main/java/com/bankledger/validation/InputValidation.java:30 | reading back the decimal digits of n gives n |
| Messages.NullMessageIsDistinct | src/main/java/com/bankledger/validation/InputValidation.java:13 | the stand-in null message of a field differs from each of that field's other messages and from the insufficient-balance message |
| InputValidation.ValidateNotNull | src/main/java/com/bankledger/validation/InputValidation.java:10-16 | exactly `[field + PARAMETER_NULL]` for null, `[]` otherwise |
| InputValidation.ValidateNotBlank | src/main/java/com/bankledger/validation/InputValidation.java:18-24 | `[field + PARAMETER_BLANK]` iff the value is null or every char is at or below U+0020, `[]` otherwise |
| InputValidation.ValidateAmount | src/main/java/com/bankledger/validation/InputValidation.java:26-39 | `[]` for null or blank input; on other input `[field + AMOUNT_INVALID]` iff the text does not parse or is not above zero |
| InputValidation.ValidateAccountNumber | src/main/java/com/bankledger/validation/InputValidation.java:41-49 | `[]` for null or blank input; on other input `[field + INVALID_ACCOUNT_NUMBER]` iff the value is not exactly nine ASCII digits |
| InputValidation.ValidateAccountNumberExists | src/main/java/com/bankledger/validation/InputValidation.java:51-57 | non-empty iff the flag is true, and then `[field + ACCOUNT_NUMBER_EXISTS]` |
| InputValidation.ValidateAccountNotFound | src/main/java/com/bankledger/validation/InputValidation.java:59-65 | non-empty iff the flag is false, and then `[field + ACCOUNT_NOT_FOUND]` |
| InputValidation.ValidateSufficientBalance | src/main/java/com/bankledger/validation/InputValidation.java:67-73 | non-empty iff the flag is false, and then `["Insufficient balance."]` with no field name |
| CommonValidation.ValidateNotNullAndNotBlank | src/main/java/com/bankledger/validation/CommonValidation.java:8-14 | null gives only the null message; non-null blank gives exactly the blank message; anything else gives `[]`; never more than one message |
| AmountValidation.ValidateAmount | src/main/java/com/bankledger/validation/AmountValidation.java:8-14 | null or blank gives only the gate message; other text gives `["amount" + AMOUNT_INVALID]` unless it parses above zero, whatever the field name; `[]` iff the amount is a positive number |
| AccountValidation.ValidateNewAccountNumber | src/main/java/com/bankledger/validation/AccountValidation.java:11-18 | null or blank gives only the gate message; otherwise the format message (if not nine digits) followed by the exists message (if stored), in that order |
| AccountValidation.NewAccountNumberErrors | src/main/java/com/bankledger/validation/AccountValidation.java:11-18 | at most two messages, and none exactly for a nine-digit number that is not yet stored |
| AccountValidation.ValidateExistingAccountNumber | src/main/java/com/bankledger/validation/AccountValidation.java:20-27 | null or blank gives only the gate message; otherwise `[]` if stored (no format check) and `["accountNumber not found."]` if not; at most one message |
| AccountValidation.GateIgnoresStore | src/main/java/com/bankledger/validation/AccountValidation.java:12-13 | for a null or blank number both validators give the same result whatever the store holds |
| BalanceValidation.ValidateSufficientBalance | src/main/java/com/bankledger/validation/BalanceValidation.java:10-25 | amount errors are returned as they are; otherwise `["Insufficient balance."]` iff the account is stored and its balance is below the parsed amount (zero and negative balances included), else `[]` |
| ErrorMap.Put | src/main/java/com/bankledger/service/LedgerService.java:33 | `LinkedHashMap.put`: a new key is appended; an existing key keeps its position and only its value changes; other entries stay as they are |
| ErrorMap.PutOverwrites | src/main/java/com/bankledger/service/LedgerService.java:94-98 | putting the same key twice leaves only the second list, at the first one's place |
| ErrorMap.HasErrors | src/main/java/com/bankledger/service/LedgerService.java:74 | the any-match test over the map's values holds exactly when some key's list, read through `get`, is non-empty |
| ErrorMap.HasErrorsTwo | src/main/java/com/bankledger/service/LedgerService.java:74 | the "any list non-empty" test on a two-field map holds iff one of the two lists is non-empty |
| Model.Account.constructor | src/main/java/com/bankledger/model/Account.java:12-14 | a new account has the given number, amount 0 and balance 0 |
| Model.Account.Deposit | src/main/java/com/bankledger/model/Account.java:16-20 | the balance becomes `Deposited(old balance, amount)`; the amount field is unchanged |
| Model.Deposited | src/main/java/com/bankledger/model/Account.java:16-20 | a positive amount is added to the balance exactly; any other amount leaves it as it was |
| Model.RepeatedDeposits | src/main/java/com/bankledger/model/Account.java:16-20 | n deposits of a positive amount on a new account give a balance of n times that amount |
| Model.NonPositiveDepositsAreIgnored | src/main/java/com/bankledger/model/Account.java:17 | any number of deposits of an amount that is not positive leave the balance unchanged |
| Model.Account.Withdraw | src/main/java/com/bankledger/model/Account.java:22-24 | the amount field becomes the argument and the balance is unchanged |
| Repository.AccountRepository.constructor | src/main/java/com/bankledger/repository/AccountRepository.java:11 | a new repository is empty |
| Repository.AccountRepository.Save | src/main/java/com/bankledger/repository/AccountRepository.java:13-15 | the store becomes the old one with this account under its number; every other key keeps its entry; the key count grows by one for a new number and not at all for a stored one |
| Repository.AccountRepository.FindByAccountNumber | src/main/java/com/bankledger/repository/AccountRepository.java:17-19 | returns the stored account object iff the number is non-null and stored, otherwise null; the store is not modified |
| Repository.AccountRepository.Balances | src/main/java/com/bankledger/repository/AccountRepository.java:11 | the store snapshot the validators read: exactly the stored numbers, each with its account's balance |
| Repository.TransactionRepository.constructor | src/main/java/com/bankledger/repository/TransactionRepository.java:11 | a new log is empty |
| Repository.TransactionRepository.Save | src/main/java/com/bankledger/repository/TransactionRepository.java:13-15 | the log becomes the old log with the transaction appended at the end |
| Repository.TransactionRepository.FindAll | src/main/java/com/bankledger/repository/TransactionRepository.java:17-19 | returns every saved transaction in saving order, without modifying the log |
| Service.CreateAccountErrors | src/main/java/com/bankledger/service/LedgerService.java:29-36 | the map is exactly `{"accountNumber": validateNewAccountNumber}`; it has no non-empty list iff the number is nine digits and not stored |
| Service.GetAccountErrors | src/main/java/com/bankledger/service/LedgerService.java:45-52 | the map is exactly `{"accountNumber": validateExistingAccountNumber}`; it has no non-empty list iff the number is non-blank and stored |
| Service.DepositErrors | src/main/java/com/bankledger/service/LedgerService.java:63-74 | the map is `accountNumber` then `amount`, in that order; it has no non-empty list iff the number is stored and the amount is a positive number |
| Service.WithdrawErrors | src/main/java/com/bankledger/service/LedgerService.java:86-101 | the map is `accountNumber` then `amount`, with the balance check's list under `amount`; it has no non-empty list iff the number is stored, the amount is positive and it does not exceed the balance; an insufficient balance gives exactly `{"accountNumber": [], "amount": ["Insufficient balance."]}` |
| Service.LedgerService.constructor | src/main/java/com/bankledger/service/LedgerService.java:23-25 | the service uses the given repository, and the store invariant holds over an empty one |
| Service.LedgerService.CreateAccount | src/main/java/com/bankledger/service/LedgerService.java:27-42 | throws the `CreateAccountErrors` map iff it has a non-empty list, and then leaves the store unchanged; succeeds iff the number is nine digits and not stored, and then adds only that key, mapped to a fresh account with balance 0 and amount 0; no existing account is replaced; the store invariant is kept |
| Service.LedgerService.CommitCreate | src/main/java/com/bankledger/service/LedgerService.java:41 | saving a new account adds exactly its key with a fresh zero-balance account and keeps the invariant |
| Service.LedgerService.GetAccount | src/main/java/com/bankledger/service/LedgerService.java:44-58 | throws the `GetAccountErrors` map iff it has a non-empty list; otherwise returns the stored account object, which happens iff the number is non-blank and stored; changes nothing |
| Service.LedgerService.Deposit | src/main/java/com/bankledger/service/LedgerService.java:60-81 | throws the `DepositErrors` map iff it has a non-empty list, and then no balance changes; succeeds iff the number is stored and the amount is a positive number, and then only that account's balance grows, by the parsed amount; no key and no amount field changes; the invariant is kept |
| Service.LedgerService.CommitDeposit | src/main/java/com/bankledger/service/LedgerService.java:79-80 | find, deposit in place and save back: only the target's balance moves, to `Deposited(balance, value)`; the keys and every amount field stay as they are |
| Service.LedgerService.Withdraw | src/main/java/com/bankledger/service/LedgerService.java:83-108 | throws the `WithdrawErrors` map iff it has a non-empty list; succeeds iff the number is stored, the amount is positive and not above the balance; on success only the target's amount field changes, to the parsed amount; no balance ever changes |
| Service.LedgerService.CommitWithdraw | src/main/java/com/bankledger/service/LedgerService.java:106-107 | find, withdraw in place and save back: only the target's amount field changes; every balance and key stays as it was |
| Controller.OutcomeOf | src/main/java/com/bankledger/controller/LedgerController.java:31-34 | a normal return gives the success outcome; a thrown `ExceptionList` gives the validation failure carrying its map |
| Controller.NonEmptyEntries | src/main/java/com/bankledger/controller/LedgerController.java:74-76 | the filter and collect keep exactly the entries with a non-empty list, values unchanged, with no key that is absent from the input |
| Controller.BuildErrorResponse | src/main/java/com/bankledger/controller/LedgerController.java:71-78 | the status is always 400; the errors part holds exactly the fields whose list is non-empty, each with its list unchanged |
| Controller.Respond | src/main/java/com/bankledger/controller/LedgerController.java:31-40 | success gives 200 with no body; an `ExceptionList` gives 400 with the `BuildErrorResponse` body; any other exception gives 500 with no body |
| Controller.ServiceResponse | src/main/java/com/bankledger/controller/LedgerController.java:31-40 | a service call that returns gives 200 with no body; one that throws an `ExceptionList` gives 400 with the body built from its map, never 500, and a map with a non-empty list never gives an empty errors part |
| Controller.ErrorsBodyEmptyIff | src/main/java/com/bankledger/controller/LedgerController.java:74-76 | the errors part of the body is empty iff the map has no non-empty list, so a thrown map never yields an empty body |
| Controller.InsufficientBalanceResponse | src/main/java/com/bankledger/controller/LedgerController.java:57-69 | a withdraw rejected on balance yields 400 with the body errors `{"amount": ["Insufficient balance."]}` |
| Controller.InvalidAmountResponse | src/main/java/com/bankledger/controller/LedgerController.java:43-55 | a deposit of a non-numeric or non-positive amount into a stored account yields 400 with the body errors `{"amount": ["amount must be a number greater than zero."]}` |
| Scenarios.AmountText | src/main/java/com/bankledger/validation/InputValidation.java:26-39 | a two-decimal amount text of c > 0 cents passes amount validation and is worth c / 100 |
| Scenarios.TestAmounts | src/test/java/com/bankledger/unit/service/LedgerServiceTest.java:180 | "100.00", "50.00" and "1.00" are two-decimal texts of 10000, 5000 and 100 cents |
| Scenarios.DepositScenario | src/test/java/com/bankledger/unit/service/LedgerServiceTest.java:176-192 | creating an account and depositing a two-decimal amount leaves exactly that amount as its balance ("100.00" gives 100) |
| Scenarios.WithdrawScenario | src/main/java/com/bankledger/model/Account.java:22-24 | a deposit followed by a withdraw of no more than it succeeds, records the withdrawn amount, and leaves the balance at the deposit |
| Scenarios.ZeroBalanceScenario | src/test/java/com/bankledger/unit/service/LedgerServiceTest.java:316-333 | any positive two-decimal amount withdrawn from a new account fails with only "Insufficient balance." under `amount`, and the balance stays 0 |
| Scenarios.DuplicateAccountScenario | src/main/java/com/bankledger/validation/AccountValidation.java:15 | a second creation of the same number fails with `["accountNumber already exists."]` and keeps the first account object |
| Scenarios.TransactionLogScenario | src/main/java/com/bankledger/repository/TransactionRepository.java:13-19 | two saves followed by `findAll` return the two transactions in saving order |

## Code and tests disagree

The model follows the code. Where the unit tests expect something else:

- `Account.withdraw` (`src/main/java/com/bankledger/model/Account.java:22-24`)
  only records the amount. A successful withdraw therefore never lowers a
  balance (`Service.LedgerService.Withdraw`, `Scenarios.WithdrawScenario`).
  The test at `src/test/java/com/bankledger/unit/service/LedgerServiceTest.java:254-270`
  expects 100 to become 50.
- A successful request answers `ResponseEntity.ok()`, which is 200
  (`src/main/java/com/bankledger/controller/LedgerController.java:40`). The test
  at `src/test/java/com/bankledger/unit/controller/LedgerControllerTest.java:42`
  expects 201.
- The controller tests expect a service exception to propagate. The
  controller catches every exception (`Controller.Respond`).

## Left out

- IEEE `double`: amounts are exact reals. There is no rounding, NaN,
  infinity, exponent, hexadecimal form or `d`/`f` suffix. `JavaString.ParseDouble`
  rejects all of these, so "NaN" counts as invalid here, although in Java it
  passes the `<= 0` test.
- JavaString.ParseDouble: only decimal text with an optional sign is modelled. Its
  contract states the sign of the result and the blank case. The exact value is
  stated only for two-decimal text (`FormatCentsRoundTrip`).
- Service.LedgerService.CreateAccount, Service.LedgerService.Deposit, Service.LedgerService.Withdraw:
  these require the store invariant `Valid()`, which the Java code does not check.
  It holds from an empty repository when only the service writes to it, and
  each operation keeps it. A store that other code fills with mismatched keys is
  not modelled.
- Service.DepositErrors, Service.WithdrawErrors, Controller.InsufficientBalanceResponse, Controller.InvalidAmountResponse:
  these require every stored number to be nine digits, the part of `Valid()`
  their error-emptiness facts rely on. The Java code builds these maps for any
  store; the model states them only for the stores the service can produce.
- Concurrency: the `HashMap` and `ArrayList` are unsynchronised in the source.
  Every call is modelled as atomic.
- Spring wiring, annotations, dependency injection, `Application`, and the
  `ResponseEntity` class: the controller is modelled over an abstract outcome
  and a response value.
- `GlobalExceptionHandler`: the controller catches every exception first, so
  this handler is never reached from the modelled endpoints.
- Logging in the controller: it has no effect on the response.
- The controller's `getAccount` endpoint and its 404 path appear only in the
  controller tests. The controller source has no such endpoint.
- The `Transaction` timestamp, read from the clock in the source, is an opaque
  `Timestamp` value. The service never writes transactions, so the log is
  modelled only as a repository.
- A `null` account passed to `AccountRepository.save`, and a `null` key in the
  `HashMap`: the service never saves either.
- Aliasing of the list that `TransactionRepository.findAll` returns: the model
  returns a value copy. A caller that mutates the returned Java list would
  change the log.
- Mockito-only test assertions, such as call counts and stubbed throws.
- Compile-level drift:
  - `Messages.PARAMETER_NULL` is undefined; the model uses the stand-in text above.
  - `save(account.deposit(...))` passes a `void` result; the model mutates in place and then saves.
  - The tests call a two-argument `Account` constructor that does not exist.
- Lombok-generated `equals`, `hashCode` and `toString`: the repository compares
  accounts only by reference.
- A service error other than an `ExceptionList`: the modelled service never
  raises one. `Controller.Respond` still covers that outcome.
