# Chama backend: a Dafny model of its ledger, listings and loan approval

This project models the core of the machama-app backend, a gRPC service for
chamas (savings groups). Its parts:

- **The ledger.** Deposit and Withdraw move money into and out of a chama
  account and log a transaction record. GetTransaction and ListTransactions
  read that log back.
- **The keyset pager.** Each of the six `List*` handlers repeats the same
  pager. It clamps the page size and decodes the page token to the last-seen
  id. It then reads the rows below that id, newest first, and hands out a
  token only when more rows matched than fit on the page.
- **The ApproveLoan workflow.** It writes APPROVED, looks the chama's
  account up by name, withdraws the loan amount, then writes
  FUNDS_WITHDRAWN_ACCOUNT. Nothing compensates a step that fails.
- **The rest of the core.** This covers the validators and the request
  guards of the Create/Update/Get/Delete handlers for chamas, accounts,
  members, loan products and loans. It also covers the `models` converters
  between stored rows and API messages.

A table is a sequence of rows in insertion order. Its auto-increment ids are
positive and strictly increasing (`Common.WellKeyed`). Request ids are strings
and match a row when they equal the decimal rendering of its id. Every store
call that can fail for reasons other than the table's contents is an input.
So are the clock (`now`) and the caller's identity and admin flag.

Modules, one per source package:

- `Common`: results, errors, ids, lookup.
- `Enums`: the protobuf enums.
- `Models`: the row/message converters.
- `Pager`: the shared list body.
- `Transactions`, `MoneyAccounts`, `Chamas`, `ChamaMembers`, `LoanProducts`
  and `Loans`: one module per service.

The model keeps the source's behaviour as written:

- **Page sizes.**
  - The page size is a Go `int32`, and so is the `pageSize + 1` each List
    handler uses as a slice capacity.
  - An admin asking for the largest `int32` page makes that sum wrap
    negative, and `make` panics. The model reports this as `CapacityPanic`.
  - The crawl lemmas therefore hold for every other page size.
- **Ids.**
  - MySQL's auto-increment counter never moves back.
  - A new row's id is above every id issued before, including ids of deleted
    rows and of inserts that never committed.
- **Ledger updates.**
  - Deposit and Withdraw update the balance on the plain connection, outside
    the database transaction. A failed commit therefore still leaves the
    balance changed.
  - Withdraw sets the withdrawn total to the *deposited* total plus the
    amount.
  - The insufficient-funds branch returns without committing.
  - Withdraw's balance update passes one bind value more than its condition
    has placeholders (see Transactions.Withdraw under "Left out").
  - A missing account is reported with the "does exist" error.
- **Loans.**
  - ApproveLoan's status writes carry no `id = ?` condition. They would mark
    every loan approved if the store accepted them. Whether each write
    succeeds is an input (see Loans.MarkAllApproved under "Left out").
  - The loan row has no status column, so a loaded loan always has the zero
    status.
- **Error labels.**
  - ValidateLoan reports a missing chama id as "loan id".
  - GetTransaction reports an empty id as "account id".
  - ValidateLoanProduct accepts a nil product.

## Model

| member | source | states |
|---|---|---|
| Common.Decimal | internal/models/transaction.go:52 | An id rendered for a message is non-empty decimal digits with no leading zero. |
| Common.ParseDecimalInvertsDecimal | internal/models/transaction.go:52 | Reading a rendered id back yields the same number, so message ids lose nothing. |
| Common.DecimalInjective | internal/transaction/transaction.go:318-347 | Two row ids render to the same string exactly when they are equal, so a string id names at most one number. |
| Common.WellKeyedAscending | internal/moneyaccount/account.go:144-147 | In an auto-increment table, ids are positive and strictly increase in insertion order, which is what `ORDER BY id DESC` with `id < cursor` relies on. |
| Common.NextId | internal/chama/chama.go:97 | The id the store gives a new row is above the auto-increment counter's high-water mark and above every existing id. So no id is issued twice, even one whose row was deleted or whose insert never committed. |
| Common.AppendKeepsWellKeyed | internal/chama/chama.go:97 | Inserting a row with the next id keeps the table auto-increment ordered. |
| Common.FirstIndex | internal/moneyaccount/account.go:228-236 | GORM's `First` picks the first matching row and no earlier row matches. A result equal to the length means no row matches. |
| Common.First | internal/loan/loan.go:264-271 | `First` returns nothing exactly when no row meets the condition; otherwise it returns a table row that meets it. |
| Common.GetById | internal/loan/loan.go:245-274 | Shared shape of the Get handlers: a nil request is reported as "request body" and an empty id as the handler's id field. A store error is `FailedToFind`. `DoesNotExist` is returned exactly when no row has the id; otherwise the returned row has the id. |
| Common.IdNamesOneRow | internal/loan/loan.go:264 | In an auto-increment table, one string id matches at most one row. |
| Common.AppendedRowIsFound | internal/chama/chama.go:97-100 | Looking up the id a newly inserted row was given finds exactly that row. |
| Common.DeletedRowIsGone | internal/loanplan/plan.go:274-281 | After a hard delete of an id, a lookup of that id reports `DoesNotExist`. |
| Common.UpdateWhere | internal/transaction/transaction.go:195-201 | `UPDATE … WHERE cond` keeps the row count and order. It rewrites every matching row and leaves every other row untouched. |
| Common.DeleteId | internal/loanplan/plan.go:274 | After a delete, every surviving row was in the table and lacks the id, and every row without the id survives. |
| Common.DeletedIdIsNotReissued | internal/loanplan/plan.go:274-281 | With the counter at or above a deleted row's id, a row inserted after the delete gets another id, and a lookup of the deleted id still reports `DoesNotExist`. |
| Enums.TransactionTypeValue | internal/models/transaction.go:56 | Reading a stored type name yields the type declared under that name, or the zero type for an unknown name. |
| Enums.TransactionTypeRoundTrip | internal/models/transaction.go:41-56 | A transaction type stored by name reads back as the same type. |
| Enums.AccountTypeValue | internal/models/chama_account.go:71 | Reading a stored account-type name yields the declared type, or the zero type for an unknown name. |
| Enums.AccountTypeRoundTrip | internal/models/chama_account.go:51-71 | An account type stored by name reads back as the same type. |
| Models.TransactionModel | internal/models/transaction.go:33-45 | A nil message is `NilObject`. Otherwise the row copies the business fields, stores the type by name, and leaves id and time for the store. |
| Models.TransactionProto | internal/models/transaction.go:47-61 | A nil row is `NilObject`. Otherwise the message carries the row's id in decimal, its fields and time, and the type whose name was stored (the zero type for an unknown name). |
| Models.TransactionRoundTrip | internal/models/transaction.go:33-61 | A transaction stored and read back is the same message, except for the id and time the store assigns. |
| Models.TransactionRowRoundTrip | internal/models/transaction.go:33-61 | A row with a known type name, read out and stored again, is the same row up to id and time. |
| Models.TransactionModelIgnoresId | internal/models/transaction.go:33-45 | Storing a transaction never reads the message's id. |
| Models.ChamaAccountModel | internal/models/chama_account.go:44-61 | A nil account is `NilObject`. Otherwise the row stores the type by name and leaves id and dates for the store. |
| Models.ChamaAccountProto | internal/models/chama_account.go:63-83 | A nil row is `NilObject`. Otherwise the id is rendered in decimal, and both message dates are the creation time. |
| Models.ChamaAccountRoundTrip | internal/models/chama_account.go:44-83 | A stored account reads back with the same owner, name, type, flags and amounts. |
| Models.ChamaAccountRowRoundTrip | internal/models/chama_account.go:44-83 | A row with a known type name survives being read out and stored again, up to id and dates. |
| Models.ChamaAccountModelIgnoresId | internal/models/chama_account.go:44-61 | Storing an account never reads the message's id. |
| Models.LoanModel | internal/models/loan.go:46-66 | A nil loan is `NilObject`. Otherwise the row leaves id and dates for the store. |
| Models.LoanProto | internal/models/loan.go:68-91 | A nil row is `NilObject`. Otherwise the id is rendered in decimal, and the status is always the zero status. |
| Models.LoanRoundTrip | internal/models/loan.go:27-91 | A stored loan reads back with every business field. Whatever status it was given reads back as the zero status, because the row has no status column. |
| Models.LoanRowRoundTrip | internal/models/loan.go:27-91 | A loan row read out and stored again is the same row up to id and dates. |
| Models.LoanModelIgnoresIdAndStatus | internal/models/loan.go:46-66 | Storing a loan reads neither its id nor its status. |
| Models.LoanProductModel | internal/models/loan_plan.go:46-66 | A nil product is `NilObject`. Otherwise the row leaves id and dates for the store. |
| Models.LoanProductProto | internal/models/loan_plan.go:68-91 | A nil row is `NilObject`. Otherwise the id is rendered in decimal and both dates are carried over. |
| Models.LoanProductRoundTrip | internal/models/loan_plan.go:46-91 | A stored product reads back with every field from ChamaId to TotalLoans. |
| Models.LoanProductRowRoundTrip | internal/models/loan_plan.go:46-91 | A product row read out and stored again is the same row up to id and dates. |
| Models.LoanProductModelIgnoresId | internal/models/loan_plan.go:46-66 | Storing a product never reads the message's id. |
| Models.ChamaModel | internal/models/chama.go:35-47 | A nil chama is `NilObject`. Otherwise the row leaves id and dates for the store. |
| Models.ChamaProto | internal/models/chama.go:49-64 | A nil row is `NilObject`. Otherwise the id is rendered in decimal and both dates are carried over. |
| Models.ChamaRoundTrip | internal/models/chama.go:35-64 | A stored chama reads back with the same name, creator, description, status, balance and active flag. |
| Models.ChamaRowRoundTrip | internal/models/chama.go:35-64 | A chama row read out and stored again is the same row up to id and dates. |
| Models.ChamaModelIgnoresId | internal/models/chama.go:35-47 | Storing a chama never reads the message's id. |
| Pager.EffectivePageSize | internal/moneyaccount/account.go:124-132 | The page size is at least 1 and at most 50 for non-admins. A positive request is honoured when it is within 50 or the caller is an admin; otherwise the size is 50. |
| Pager.DecodeCursor | internal/moneyaccount/account.go:134-142 | No token means no cursor. A malformed token is InvalidArgument "failed to parse page token". Otherwise the cursor is the first number the token carries. |
| Pager.DecodeCursorInvertsEncode | internal/moneyaccount/account.go:138-142 | A token the pager issued decodes back to the id it was issued for. |
| Pager.Window | internal/moneyaccount/account.go:144-167 | Every row the listing query sees meets the filter and lies below the cursor. |
| Pager.WindowMembers | internal/moneyaccount/account.go:144-167 | A row is in the query's result exactly when it is a table row that meets the filter and lies below the cursor. |
| Pager.WindowDescending | internal/moneyaccount/account.go:144 | On an auto-increment table the query's rows come newest first with strictly decreasing ids. |
| Pager.WindowOfBelowMember | internal/moneyaccount/account.go:144-147 | Resuming under the id of the k-th listed row yields exactly the rows listed after it: the cursor neither skips nor repeats a row. |
| Pager.Paginate | internal/moneyaccount/account.go:118-201 | Errors come in order. A bad token gives its decode error. An admin's largest `int32` page size gives `CapacityPanic`, because `pageSize + 1` wraps negative before the slice is made. A failed query gives `SQLQueryFailed("LIST")`. A page is a prefix of the query's rows, filled up to the page size or to the end. Its token is the encoding of the last returned id when rows were left over, and empty only if none were. |
| Pager.PageTokenIffOverflow | internal/moneyaccount/account.go:194-201 | With a codec that never issues the empty token, a page has a next token exactly when more rows matched than fit. The page is then full, and the token decodes to its last id. |
| Pager.PageOrderedBelowCursor | internal/moneyaccount/account.go:144-167 | Every page is newest first with strictly decreasing ids. Each item is a table row meeting the filter, below the cursor's id when a token was given. |
| Pager.ZeroTokenIsNoToken | internal/moneyaccount/account.go:136-147 | A token that decodes to id 0 lists exactly what the empty token lists, because `id < 0` is never applied. |
| Pager.CrawlWithCollects | internal/moneyaccount/list_test.go:64-75 | A client that follows tokens from any page source that walks a sequence in page-size steps collects the rest of that sequence, then stops. |
| Pager.StepFromSuffix | internal/moneyaccount/account.go:118-201 | For any page size the handler can allocate for: given a token that resumes at position j of the full listing, one call returns the rest or the next page-size rows. In the second case it also returns a token that resumes right after them. |
| Pager.PaginateWalksThrough | internal/moneyaccount/account.go:118-201 | On an auto-increment table, for any page size the handler can allocate for, the handler walks through the full listing one page size at a time. |
| Pager.CrawlVisitsEveryRowOnce | internal/moneyaccount/list_test.go:111-130 | On a static table, for any page size but the admin's `int32` maximum, following tokens from the empty token returns every matching row exactly once, newest first, and then stops. |
| Pager.LargestPageNeverServed | internal/moneyaccount/account.go:124-170 | An admin asking for the largest `int32` page never gets one: with no token or an issued token the call fails with `CapacityPanic`, and so does a crawl. |
| Pager.MapPage | internal/moneyaccount/account.go:178-192 | Converting a page keeps its length and token and converts each row in place. |
| Pager.List | internal/moneyaccount/account.go:109-207 | Shared List* body: a nil request is `NilObject("list request")`. After that come the pager's errors in the pager's order, including `CapacityPanic`. Otherwise the result is the converted rows of the pager's page, with the same token conditions. |
| Transactions.CheckMoneyRequest | internal/transaction/transaction.go:68-81 | A request passes exactly when it is present, names account, actor and description, and has a positive amount. Each failure is the first missing field in source order; a negative amount is `IncorrectVal`. |
| Transactions.Record | internal/transaction/transaction.go:104-110 | The logged record gets the next transaction id and carries the request's account, actor, description and amount. It stores the type name and reads back as the call's type. |
| Transactions.Prologue | internal/transaction/transaction.go:83-114 | The shared steps succeed exactly when validation passes, the lookup works and finds the account, and the transaction opens and the insert succeeds. A missing account is `DoesExist("chama account", id)`. |
| Transactions.Deposit | internal/transaction/transaction.go:60-136 | Failures before the insert leave the ledger unchanged. Once the insert ran, its id stays consumed. A failed balance update changes nothing else. A failed commit keeps the new balance but drops the record. Success appends the deposit record. |
| Transactions.DepositTouchesOnlyTarget | internal/transaction/transaction.go:116-122 | Once its update has run, a deposit raises the addressed account's deposited total and available amount by the amount and sets its last deposit. It changes no other field or account. |
| Transactions.DepositKeepsBalanced | internal/transaction/transaction.go:116-122 | If every account's available amount was deposited minus withdrawn, a deposit keeps it so. |
| Transactions.DepositKeepsNoOverdraft | internal/transaction/transaction.go:116-122 | A deposit never makes an available amount negative. |
| Transactions.Withdraw | internal/transaction/transaction.go:138-219 | Success happens exactly when the prologue and update succeed, the addressed account holds enough and is withdrawable, and the commit succeeds; then the withdrawal record is appended. Too little money is FailedPrecondition "insufficient amount". The tables are then unchanged, and only the inserted record's id stays consumed. |
| Transactions.WithdrawTouchesOnlyTarget | internal/transaction/transaction.go:194-201 | Only the addressed account, when it holds enough and is withdrawable, changes: its available amount falls by the amount and its last withdrawal is set. Its withdrawn total becomes deposited plus amount. |
| Transactions.WithdrawKeepsNoOverdraft | internal/transaction/transaction.go:195-201 | A withdrawal never makes an available amount negative. |
| Transactions.WithdrawBreaksBalance | internal/transaction/transaction.go:198 | The withdrawn-total update does not keep accounts balanced. With 500 deposited, withdrawing 300 leaves 200 available yet records 800 withdrawn. |
| Transactions.WithdrawUndoesDeposit | internal/transaction/transaction.go:60-219 | When every store call succeeds, a withdrawable account's available amount returns to its old value after the same amount is deposited and withdrawn. |
| Transactions.CallsKeepCounterAhead | internal/transaction/transaction.go:103-135 | Deposits and withdrawals keep the transactions counter at or above the id of every stored record. |
| Transactions.UncommittedIdIsNotReissued | internal/transaction/transaction.go:178-210 | When a withdrawal inserted its record but then failed, the tables keep no record, and the next record gets a higher id than the one the failed call used. |
| Transactions.GetTransaction | internal/transaction/transaction.go:318-347 | A nil request is "request body", an empty id is "account id", and a store error is `FailedToFind`. `DoesNotExist` is returned exactly when no record has the id; otherwise the result is a logged record with that id. |
| Transactions.CommittedRecordIsReadable | internal/transaction/transaction.go:129-135 | A committed record can be read back by the id the store gave it. |
| Transactions.ListTransactions | internal/transaction/transaction.go:223-316 | The exact nil-request and bad-token errors, and success exactly when the query works and the page size is not an admin's `int32` maximum, which is `CapacityPanic`. Every returned transaction meets the id, actor, account and type filters, and the page fits the size. |
| MoneyAccounts.ValidateChamaAccount | internal/moneyaccount/account.go:60-72 | An account passes exactly when it is present, named, owned and typed. Otherwise the first missing field is reported. |
| MoneyAccounts.CreateChamaAccount | internal/moneyaccount/account.go:74-105 | Failure leaves the table unchanged. Success happens exactly when the request is valid and the save works; it appends one row with the next id that reads back as the requested account. |
| MoneyAccounts.GetChamaAccount | internal/moneyaccount/account.go:209-242 | Lookup is by id when one is given, else by owner and name; a request with neither is "account id". Not-found happens exactly when no row matches. Otherwise the result is the oldest matching account. |
| MoneyAccounts.CreatedAccountIsReadable | internal/moneyaccount/account.go:74-105 | A created account can be read back by its new id, unchanged apart from id and dates. |
| MoneyAccounts.WithdrawableClause | internal/moneyaccount/account.go:158-166 | The two withdrawable flags constrain the column only when exactly one is set, and then to that flag's meaning. |
| MoneyAccounts.WithdrawableFlagsCancel | internal/moneyaccount/account.go:158-166 | Setting both flags, or neither, filters the same as setting neither. |
| MoneyAccounts.ListChamaAccounts | internal/moneyaccount/account.go:109-207 | The exact nil-request and bad-token errors, and success exactly when the query works and the page size is not an admin's `int32` maximum, which is `CapacityPanic`. Every returned account meets the id, owner, type and withdrawable filters, and the page fits the size. |
| Chamas.ValidateChama | internal/chama/chama.go:60-70 | A chama passes exactly when it is present with a creator and a name. Otherwise the first missing field is reported. |
| Chamas.CreateChama | internal/chama/chama.go:72-103 | Failure leaves the table unchanged. Success happens exactly when the request is valid and the save works; it appends one row with the next id that reads back as the requested chama. |
| Chamas.UpdateChama | internal/chama/chama.go:105-135 | The request, chama and id guards come in order. The update succeeds exactly when they pass and the write works; a failed write is `FailedToUpdate`. |
| Chamas.UpdateChamaSkipsValidation | internal/chama/chama.go:105-135 | An update's reply depends only on the chama's id and the write's outcome. A chama with no creator and no name, which ValidateChama rejects, is accepted. |
| Chamas.GetChama | internal/chama/chama.go:225-254 | Not-found is returned exactly when no chama has the id. Otherwise the result is the stored chama with that id. |
| Chamas.CreatedChamaIsReadable | internal/chama/chama.go:72-103 | A created chama can be read back by its new id. |
| Chamas.ListChamas | internal/chama/chama.go:139-223 | The exact nil-request and bad-token errors, and success exactly when the query works and the page size is not an admin's `int32` maximum, which is `CapacityPanic`. Every returned chama meets the creator filter, and the page fits the size. |
| ChamaMembers.ValidateChamaMember | internal/chamamember/member.go:60-76 | A member passes exactly when it is present with chama id, first and last name, phone and id number. Otherwise the first missing field is reported. |
| ChamaMembers.MemberIdIsNotValidated | internal/chamamember/member.go:60-76 | Validation never depends on the member id. |
| ChamaMembers.UpdateChamaMember | internal/chamamember/member.go:111-141 | The request, member and id guards come in order. The update succeeds exactly when they pass and the write works. |
| ChamaMembers.UpdateChamaMemberSkipsValidation | internal/chamamember/member.go:111-141 | An update's reply depends only on the member's id and the write's outcome. A member with no chama and no names, which ValidateChamaMember rejects, is accepted. |
| ChamaMembers.GetChamaMember | internal/chamamember/member.go:231-260 | Not-found is returned exactly when no member has the id. Otherwise the result is the stored member with that id. |
| ChamaMembers.DeleteChamaMember | internal/chamamember/member.go:262-285 | The guards come first, and a store error is `FailedToDelete`. A successful delete removes exactly the rows with the id. |
| ChamaMembers.GetAfterDeleteFails | internal/chamamember/member.go:231-285 | Getting an id after it was deleted reports that it does not exist. |
| ChamaMembers.ListChamaMembers | internal/chamamember/member.go:145-229 | The exact nil-request and bad-token errors, and success exactly when the query works and the page size is not an admin's `int32` maximum, which is `CapacityPanic`. Every returned member is a stored row meeting the chama filter. |
| LoanProducts.ValidateLoanProduct | internal/loanplan/plan.go:60-71 | A nil product passes. A present product passes exactly when it has a chama id, a name and a non-zero interest rate. |
| LoanProducts.CreateLoanProduct | internal/loanplan/plan.go:73-104 | A nil product passes validation and is then rejected by the converter as `NilObject("loan plan")`. Success happens exactly when the product is valid and the save works; it appends one row that reads back as the product. |
| LoanProducts.UpdateLoanProduct | internal/loanplan/plan.go:106-136 | The request, product and id guards come in order. The update succeeds exactly when they pass and the write works. |
| LoanProducts.UpdateLoanProductSkipsValidation | internal/loanplan/plan.go:106-136 | An update's reply depends only on the product's id and the write's outcome. A product with no chama, no name and a zero rate, which ValidateLoanProduct rejects, is accepted. |
| LoanProducts.GetLoanProduct | internal/loanplan/plan.go:226-255 | Not-found is returned exactly when no product has the id. Otherwise the result is the stored product with that id. |
| LoanProducts.DeleteLoanProduct | internal/loanplan/plan.go:257-284 | Record-not-found gives `DoesNotExist` and any other store error `FailedToFind`. Success removes exactly the rows with the id. |
| LoanProducts.CreatedProductIsReadableUntilDeleted | internal/loanplan/plan.go:73-284 | A created product reads back by its new id until it is deleted; after that it does not exist. |
| LoanProducts.DeletedProductIdIsNotReissued | internal/loanplan/plan.go:73-284 | After a product is deleted and another is created, the deleted id still does not exist: the new product gets a fresh id. |
| LoanProducts.ListLoanProducts | internal/loanplan/plan.go:140-224 | The exact nil-request and bad-token errors, and success exactly when the query works and the page size is not an admin's `int32` maximum, which is `CapacityPanic`. Every returned product meets the chama filter. |
| Loans.ValidateLoan | internal/loan/loan.go:69-87 | A loan passes exactly when it is present with chama, product, member, names, phone and national id. Otherwise the first missing field is reported, with a missing chama id reported as "loan id". |
| Loans.EmailIsOptional | internal/loan/loan.go:69-87 | Validation never depends on the loanee's email. |
| Loans.CreateLoan | internal/loan/loan.go:89-120 | Failure leaves the table unchanged. Success happens exactly when the loan is valid and the save works; it appends one row that reads back as the loan with the zero status. |
| Loans.UpdateLoan | internal/loan/loan.go:122-152 | The request, loan and id guards come in order. The update succeeds exactly when they pass and the write works. |
| Loans.UpdateLoanSkipsValidation | internal/loan/loan.go:122-152 | An update's reply depends only on the loan's id and the write's outcome. A loan with no chama, product or member, which ValidateLoan rejects, is accepted. |
| Loans.GetLoan | internal/loan/loan.go:245-274 | Not-found is returned exactly when no loan has the id. Otherwise the result is the stored loan with that id and the zero status. |
| Loans.CreatedLoanIsReadable | internal/loan/loan.go:89-274 | A created loan can be read back by its new id, unchanged apart from id and dates, and with the zero status. |
| Loans.ListLoans | internal/loan/loan.go:156-243 | The exact nil-request and bad-token errors, and success exactly when the query works and the page size is not an admin's `int32` maximum, which is `CapacityPanic`. Every returned loan meets the chama and product filters and has the zero status. |
| Loans.ListLoansTokenIffOverflow | internal/loan/loan.go:230-237 | A loan page has a next token exactly when more loans matched than fit. The token decodes to the id of the last loan on the page. |
| Loans.MarkAllApproved | internal/loan/loan.go:304-307 | The unscoped status write sets `approved` on every loan row and changes nothing else. |
| Loans.Disburse | internal/loan/loan.go:323-341 | The withdrawal is attempted first. The FUNDS_WITHDRAWN_ACCOUNT write follows exactly when the withdrawal passed, and a failure keeps loans and status log unchanged. Success logs that status and approves every loan. |
| Loans.Payout | internal/loan/loan.go:314-341 | The account lookup by the loan's chama and the requested name comes first. A failed lookup ends the run with its error; otherwise the run is the disbursement from the account found. |
| Loans.ApproveLoaded | internal/loan/loan.go:299-355 | A loan whose funds were transferred is AlreadyExists with nothing attempted. Otherwise the APPROVED write comes first, and only its success leads on to the payout. Steps stay in workflow order, and success means all four ran. |
| Loans.ApproveLoan | internal/loan/loan.go:276-355 | The request and loan-id guards come first, then loading through GetLoan, whose error is returned unchanged. Steps stay in workflow order. A run that attempted nothing changed nothing and failed. |
| Loans.LoadedLoanIsAlwaysApproved | internal/loan/loan.go:294-310 | The disbursed-funds guard never fires. A loaded loan always carries the zero status, so the APPROVED write is always attempted. |
| Loans.AtMostOneWithdraw | internal/loan/loan.go:323-332 | The withdrawal is attempted at most once, and only as the third step. |
| Loans.WritesOnlyApprovedThenWithdrawn | internal/loan/loan.go:303-341 | A run adds no status, APPROVED alone, or APPROVED then FUNDS_WITHDRAWN_ACCOUNT to the status log. It never writes FUNDS_TRANSFERED. |
| Loans.LoadedWritesOnlyApprovedThenWithdrawn | internal/loan/loan.go:299-341 | The same status-log property, from the point where the loan is loaded. |
| Loans.ApprovalIsNeverUndone | internal/loan/loan.go:303-341 | Nothing compensates. Once the APPROVED write succeeded, every loan stays approved and APPROVED stays logged, whatever fails later. |
| Loans.SuccessEndsWithdrawn | internal/loan/loan.go:335-354 | A successful run logs exactly two statuses, ending with FUNDS_WITHDRAWN_ACCOUNT, and leaves every loan approved. |
| Loans.DisbursePays | internal/loan/loan.go:323-341 | With every store call succeeding, a withdrawable account holding the amount is debited by exactly the loan amount. |
| Loans.PayoutPays | internal/loan/loan.go:314-341 | With every store call succeeding, the lookup finds the oldest account of that chama with the requested name, and that account is debited by the loan amount. |
| Loans.ApproveLoanPaysOut | internal/loan/loan.go:276-355 | With every store call succeeding and funds available, approval runs all four steps and debits the chama's named account by the loan amount. |
| Loans.LoadedPays | internal/loan/loan.go:299-355 | The same payout property, from the point where the loan is loaded. |
| Loans.PayoutOfApproval | internal/loan/loan.go:294-332 | Any withdrawal approval issues is the payout of the loaded loan from the account the lookup returned. |
| Loans.PayoutOfLoaded | internal/loan/loan.go:314-332 | The same, from the point where the loan is loaded. |
| Loans.PayoutTargets | internal/loan/loan.go:314-329 | The payout of a loan found by id targets the oldest account owned by that loan's chama with the requested name. It is for the loan amount and carries the loanee's names in its description. |
| Loans.WithdrawTargetsChamaAccount | internal/loan/loan.go:276-332 | Every withdrawal approval issues is a payout of some stored loan, and it is made in the caller's name. |

## Left out

- SQL and GORM execution: the store is a sequence of rows. Whether each store call succeeds is an input (`findOk`, `saveOk`, `LedgerFaults`, `SagaFaults`, `DbStatus`). Most failures come from the database. The statements the handler itself builds wrongly are named on their own lines below (Transactions.Withdraw, Loans.MarkAllApproved).
- Concurrency between handlers is not modelled; each call runs alone on the state it is given.
- Authorization (`AuthorizeGroup`, `IsAdmin`, `AuthorizeAdmin`) is taken to succeed; the admin flag is an input.
- The hashids page-token codec is an abstract `Codec`. The pager's properties assume only that issued tokens are non-empty and decode to their id.
- Amounts are exact reals, not `float64`; rounding is not modelled.
- Timestamps are an `int` parameter `now`; their rendering in messages is not modelled.
- gRPC metadata forwarding in ApproveLoan (`mdutil.AddFromCtx`) has no effect on the model and is left out.
- The conversion between a member message and its row, which goes through JSON (internal/models/chama_member.go), is left out. ChamaMembers' Get and List therefore return rows.
- CreateChamaMember is left out, since all it adds to ValidateChamaMember is that JSON conversion.
- The Update handlers model their guards, the conversion and the write's outcome, but not GORM's merge of non-zero fields into the stored row.
- MySQL's coercion of a string id to a number is left out: a string id matches a row only when it equals the row id's decimal text.
- The service constructors' option checks, `main.go` wiring and the test suites' scaffolding are left out.
- The protobuf enum tables are modelled on the names the handlers use; other declared values are left out.
- Pager.Crawl: the client loop takes a fuel bound. The lemmas use the table size, which is always enough, so a loop that never ends is not modelled.
- A page token whose decoding is empty makes the source index out of range and panic. This is modelled as the error `IndexPanic`.
- A negative slice capacity also panics in the source; this is modelled as the error `CapacityPanic`. The query the handler built before it is never run.
- Transactions.Withdraw: the balance update at internal/transaction/transaction.go:196 passes three values (`req.AccountId`, `req.Amount`, `true`) for two `?` placeholders. GORM v2 appends the surplus `true` as an extra bind value, so the driver should reject the statement, and every call past the prologue should end in `FailedToUpdate("account balance")`. This is a reading of GORM's code. The model keeps the update's success as the input `updateOk`. So the lemmas that assume every store call succeeds describe the query the author evidently intended: Transactions.WithdrawUndoesDeposit, Loans.DisbursePays, Loans.PayoutPays and Loans.ApproveLoanPaysOut.
- Loans.MarkAllApproved: the model applies the status writes to every loan row whenever their success input says they succeeded. On the schema `main.go` migrates (internal/models/loan.go:27-44), they would fail: GORM refuses an `Updates` with no WHERE clause, and the loans table has no `status` column. The model takes that outcome as the input `SagaFaults` and does not derive it.
- Common.NextId: the counter is an input to the Create handlers, which do not return it advanced. Only the ledger carries it from call to call. An insert that fails outright leaves the ledger's counter unchanged, though MySQL may consume an id there too.
- Failures of the token encoder when it issues a next-page token are left out: the codec's `encode` is total.
- The Withdraw balance invariant is not claimed. Transactions.WithdrawBreaksBalance shows that the source's update does not keep it.
