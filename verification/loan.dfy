/**
 * The loan service (internal/loan/loan.go): loan validation, creation, the
 * Update and Get guards, the listing, and the ApproveLoan workflow.
 *
 * ApproveLoan runs its steps one after another with no compensation: write
 * APPROVED, look the account up, withdraw the loan amount, write
 * FUNDS_WITHDRAWN_ACCOUNT. Its two status writes carry no `id = ?`
 * condition, so when they succeed they mark every loan row approved. The
 * loan table has no status column; the statuses written are kept in a
 * separate log so that their order can be stated.
 */
module Loans {
  import opened Common
  import opened Enums
  import opened Models
  import opened Pager
  import opened Transactions
  import opened MoneyAccounts

  /**
   * ValidateLoan: nil, then chama id (reported as "loan id", as written),
   * product id, member id, loanee names, loanee phone and national id. The
   * email is optional.
   */
  function ValidateLoan(pb: Option<Loan>): (e: Option<Err>)
    ensures e.None? <==>
      && pb.Some? && pb.value.chamaId != "" && pb.value.productId != "" && pb.value.memberId != ""
      && pb.value.loaneeNames != "" && pb.value.loaneePhone != "" && pb.value.nationalId != ""
    ensures pb.None? ==> e == Some(MissingField("loan"))
    ensures pb.Some? ==>
      var m := pb.value;
      var identified := m.chamaId != "" && m.productId != "" && m.memberId != "" && m.loaneeNames != "";
      && (m.chamaId == "" ==> e == Some(MissingField("loan id")))
      && (m.chamaId != "" && m.productId == "" ==> e == Some(MissingField("plan id")))
      && (m.chamaId != "" && m.productId != "" && m.memberId == "" ==> e == Some(MissingField("member id")))
      && (m.chamaId != "" && m.productId != "" && m.memberId != "" && m.loaneeNames == "" ==>
            e == Some(MissingField("loanee names")))
      && (m.chamaId != "" && m.productId != "" && m.memberId != "" && m.loaneeNames != "" && m.loaneePhone == "" ==>
            e == Some(MissingField("loanee phone")))
      && (identified && m.loaneePhone != "" && m.nationalId == "" ==> e == Some(MissingField("loanee national id")))
  {
    match pb
    case None => Some(MissingField("loan"))
    case Some(m) =>
      if m.chamaId == "" then Some(MissingField("loan id"))
      else if m.productId == "" then Some(MissingField("plan id"))
      else if m.memberId == "" then Some(MissingField("member id"))
      else if m.loaneeNames == "" then Some(MissingField("loanee names"))
      else if m.loaneePhone == "" then Some(MissingField("loanee phone"))
      else if m.nationalId == "" then Some(MissingField("loanee national id"))
      else None
  }

  /** The loan email is the one identity field validation leaves optional. */
  lemma EmailIsOptional(pb: Loan, email: string)
    ensures ValidateLoan(Some(pb.(loaneeEmail := email))) == ValidateLoan(Some(pb))
  {
  }

  function CreateLoan(rows: seq<LoanRow>, req: Option<WriteRequest<Loan>>, saveOk: bool, issued: nat, now: int)
    : (s: Stored<LoanRow>)
    ensures req.None? ==> s == Stored(rows, Fail(NilObject("request body")))
    ensures req.Some? && ValidateLoan(req.value.item).Some? ==>
      s == Stored(rows, Fail(ValidateLoan(req.value.item).value))
    ensures s.reply.Pass? <==> req.Some? && ValidateLoan(req.value.item).None? && saveOk
    ensures s.reply.Fail? ==> s.rows == rows
    ensures s.reply.Pass? ==>
      && |s.rows| == |rows| + 1 && s.rows[..|rows|] == rows
      && var row := s.rows[|rows|];
         && row.id == NextId(rows, LoanKey, issued)
         && LoanMessage(row)
              == req.value.item.value.(loanId := Decimal(row.id), status := LoanStatusUnspecified,
                                       updatedDate := now, borrowedDate := now)
  {
    match req
    case None => Stored(rows, Fail(NilObject("request body")))
    case Some(q) =>
      match ValidateLoan(q.item)
      case Some(e) => Stored(rows, Fail(e))
      case None =>
        if !saveOk then Stored(rows, Fail(FailedToSave("loan")))
        else
          LoanRoundTrip(q.item.value);
          Stored(rows + [LoanModel(q.item).value.(id := NextId(rows, LoanKey, issued), createdAt := now, updatedAt := now)], Pass)
  }

  /**
   * UpdateLoan's reply: the guards on the request, the loan and its id, then
   * the outcome of the write.
   */
  function UpdateLoan(req: Option<WriteRequest<Loan>>, writeOk: bool): (o: Outcome<Err>)
    ensures req.None? ==> o == Fail(MissingField("update request"))
    ensures req.Some? && req.value.item.None? ==> o == Fail(MissingField("loan"))
    ensures req.Some? && req.value.item.Some? && req.value.item.value.loanId == "" ==> o == Fail(MissingField("loan id"))
    ensures o.Pass? <==> req.Some? && req.value.item.Some? && req.value.item.value.loanId != "" && writeOk
    ensures o.Fail? && req.Some? && req.value.item.Some? && req.value.item.value.loanId != "" ==>
      o.error == FailedToUpdate("loan")
  {
    match req
    case None => Fail(MissingField("update request"))
    case Some(q) =>
      match q.item
      case None => Fail(MissingField("loan"))
      case Some(m) =>
        if m.loanId == "" then Fail(MissingField("loan id"))
        else
          match LoanModel(q.item)
          case Failure(e) => Fail(e)
          case Success(_) => if writeOk then Pass else Fail(FailedToUpdate("loan"))
  }

  /**
   * An update sees only the loan's id and the write's outcome: loans with
   * the same id get the same reply, and one that creation rejects, with no
   * chama, product or member, is accepted.
   */
  lemma UpdateLoanSkipsValidation(m: Loan, other: Loan, writeOk: bool)
    requires other.loanId == m.loanId
    ensures UpdateLoan(Some(WriteRequest(Some(m))), writeOk) == UpdateLoan(Some(WriteRequest(Some(other))), writeOk)
    ensures m.loanId != "" ==>
      var bare := m.(chamaId := "", productId := "", memberId := "");
      && ValidateLoan(Some(bare)) == Some(MissingField("loan id"))
      && UpdateLoan(Some(WriteRequest(Some(bare))), true) == Pass
  {
  }

  function GetLoan(rows: seq<LoanRow>, req: Option<ByIdRequest>, findOk: bool): (r: Result<Loan, Err>)
    ensures req.None? ==> r == Failure(MissingField("request body"))
    ensures req.Some? && req.value.id == "" ==> r == Failure(MissingField("loan id"))
    ensures req.Some? && req.value.id != "" && !findOk ==> r == Failure(FailedToFind("loan"))
    ensures req.Some? && req.value.id != "" && findOk ==>
      ((forall i :: 0 <= i < |rows| ==> Decimal(rows[i].id) != req.value.id)
        <==> r == Failure(DoesNotExist("loan", req.value.id)))
    ensures r.Success? ==>
      && req.Some? && r.value.loanId == req.value.id
      && r.value.status == LoanStatusUnspecified
      && (exists i :: 0 <= i < |rows| && r.value == LoanMessage(rows[i]))
  {
    match GetById(rows, LoanKey, req, "loan id", "loan", findOk)
    case Failure(e) => Failure(e)
    case Success(row) => Success(LoanMessage(row))
  }

  /** A created loan can be read back by its new id, with its status unset. */
  lemma CreatedLoanIsReadable(rows: seq<LoanRow>, req: WriteRequest<Loan>, issued: nat, now: int)
    requires WellKeyed(rows, LoanKey)
    requires CreateLoan(rows, Some(req), true, issued, now).reply.Pass?
    ensures
      var after := CreateLoan(rows, Some(req), true, issued, now).rows;
      var id := Decimal(NextId(rows, LoanKey, issued));
      GetLoan(after, Some(ByIdRequest(id)), true)
        == Success(req.item.value.(loanId := id, status := LoanStatusUnspecified, updatedDate := now, borrowedDate := now))
  {
    var after := CreateLoan(rows, Some(req), true, issued, now).rows;
    assert after == rows + [after[|rows|]];
    AppendedRowIsFound(rows, LoanKey, after[|rows|], issued, "loan id", "loan");
  }

  datatype LoanFilter = LoanFilter(chamaIds: seq<string>, productIds: seq<string>)

  function LoanQuery(filter: Option<LoanFilter>): LoanRow -> bool {
    (row: LoanRow) =>
      match filter
      case None => true
      case Some(f) =>
        && (|f.chamaIds| == 0 || row.chamaId in f.chamaIds)
        && (|f.productIds| == 0 || row.productId in f.productIds)
  }

  function ListLoans(c: Codec, rows: seq<LoanRow>, req: Option<ListRequest<LoanFilter>>,
                     isAdmin: bool, findOk: bool): (r: Result<Page<Loan>, Err>)
    ensures req.None? ==> r == Failure(NilObject("list request"))
    ensures req.Some? && DecodeCursor(c, req.value.pageToken).Failure? ==>
      r == Failure(DecodeCursor(c, req.value.pageToken).error)
    ensures req.Some? && DecodeCursor(c, req.value.pageToken).Success? ==>
      (r.Success? <==> findOk && Fetchable(req.value.pageSize, isAdmin))
    ensures req.Some? && DecodeCursor(c, req.value.pageToken).Success? && !Fetchable(req.value.pageSize, isAdmin) ==>
      r == Failure(CapacityPanic)
    ensures r.Success? ==>
      && req.Some?
      && |r.value.items| <= EffectivePageSize(req.value.pageSize, isAdmin)
      && (forall i :: 0 <= i < |r.value.items| ==>
            && r.value.items[i].status == LoanStatusUnspecified
            && (req.value.filter.None? || |req.value.filter.value.chamaIds| == 0
                || r.value.items[i].chamaId in req.value.filter.value.chamaIds)
            && (req.value.filter.None? || |req.value.filter.value.productIds| == 0
                || r.value.items[i].productId in req.value.filter.value.productIds))
  {
    List(c, rows, LoanKey, LoanQuery, LoanMessage, req, isAdmin, findOk)
  }

  /**
   * With a codec that decodes its own tokens, a ListLoans page carries a next
   * token exactly when more loans matched than fit on the page.
   */
  lemma ListLoansTokenIffOverflow(c: Codec, rows: seq<LoanRow>, req: ListRequest<LoanFilter>, isAdmin: bool)
    requires ValidCodec(c)
    requires ListLoans(c, rows, Some(req), isAdmin, true).Success?
    ensures
      var page := ListLoans(c, rows, Some(req), isAdmin, true).value;
      var w := Window(rows, LoanKey, LoanQuery(req.filter), DecodeCursor(c, req.pageToken).value);
      var size := EffectivePageSize(req.pageSize, isAdmin);
      && (page.nextPageToken != "" <==> |w| > size)
      && (page.nextPageToken != "" ==>
            |page.items| == size && DecodeCursor(c, page.nextPageToken) == Success(w[size - 1].id)
            && page.items[size - 1].loanId == Decimal(w[size - 1].id))
  {
    var w := Window(rows, LoanKey, LoanQuery(req.filter), DecodeCursor(c, req.pageToken).value);
    var size := EffectivePageSize(req.pageSize, isAdmin);
    if |w| > size {
      DecodeCursorInvertsEncode(c, w[size - 1].id);
    }
  }

  // ---------------------------------------------------------------------
  // ApproveLoan
  // ---------------------------------------------------------------------

  datatype ApproveLoanRequest = ApproveLoanRequest(loanId: string, accountName: string)

  /** The tables ApproveLoan touches, with the log of loan statuses written. */
  datatype Bank = Bank(ledger: Ledger, loans: seq<LoanRow>, statusWrites: seq<LoanStatus>)

  /** A store effect ApproveLoan attempted, in the order it attempted them. */
  datatype SagaStep =
    | StatusWrite(status: LoanStatus)
    | AccountLookup(ownerId: string, accountName: string)
    | WithdrawCall(request: MoneyRequest)

  /**
   * Whether each store call succeeds: loading the loan, the APPROVED write,
   * the account lookup, the calls inside Withdraw, and the final status write.
   */
  datatype SagaFaults = SagaFaults(
    loanFindOk: bool,
    approvedWriteOk: bool,
    accountFindOk: bool,
    withdraw: LedgerFaults,
    withdrawnWriteOk: bool)

  datatype Approval = Approval(bank: Bank, reply: Outcome<Err>, steps: seq<SagaStep>)

  /** An unscoped status write: every loan row becomes approved. */
  function MarkAllApproved(loans: seq<LoanRow>, now: int): (loans': seq<LoanRow>)
    ensures |loans'| == |loans|
    ensures forall i :: 0 <= i < |loans| ==> loans'[i] == loans[i].(approved := true, updatedAt := now)
  {
    seq(|loans|, i requires 0 <= i < |loans| => loans[i].(approved := true, updatedAt := now))
  }

  function WriteStatus(bank: Bank, status: LoanStatus, now: int): Bank {
    bank.(loans := MarkAllApproved(bank.loans, now), statusWrites := bank.statusWrites + [status])
  }

  /** The steps attempted are a prefix of write APPROVED, lookup, withdraw, write FUNDS_WITHDRAWN_ACCOUNT. */
  predicate InWorkflowOrder(steps: seq<SagaStep>) {
    && |steps| <= 4
    && (|steps| > 0 ==> steps[0] == StatusWrite(Approved))
    && (|steps| > 1 ==> steps[1].AccountLookup?)
    && (|steps| > 2 ==> steps[2].WithdrawCall?)
    && (|steps| > 3 ==> steps[3] == StatusWrite(FundsWithdrawnAccount))
  }

  /** The withdrawal request ApproveLoan issues for a loan from an account. */
  function PayoutRequest(account: ChamaAccount, actorId: string, loan: Loan): MoneyRequest {
    MoneyRequest(account.accountId, actorId, "Loan approval for " + loan.loaneeNames, loan.loanAmount)
  }

  /** The request of the account lookup: by owner (the loan's chama) and account name. */
  function PayoutAccount(loan: Loan, q: ApproveLoanRequest): GetAccountRequest {
    GetAccountRequest("", loan.chamaId, q.accountName)
  }

  /**
   * The second half of the workflow, once the account is known: withdraw the
   * loan amount from it, then write FUNDS_WITHDRAWN_ACCOUNT.
   */
  function Disburse(bank: Bank, actorId: string, loan: Loan, account: ChamaAccount,
                    faults: SagaFaults, now: int): (a: Approval)
    ensures
      var w := Withdraw(bank.ledger, Some(PayoutRequest(account, actorId, loan)), faults.withdraw, now);
      && a.bank.ledger == w.ledger
      && 1 <= |a.steps| <= 2
      && a.steps[0] == WithdrawCall(PayoutRequest(account, actorId, loan))
      && (|a.steps| == 1 <==> w.reply.Fail?)
      && (|a.steps| == 1 ==> a.reply == w.reply && a.bank == bank.(ledger := w.ledger))
    ensures |a.steps| == 2 ==>
      && a.steps[1] == StatusWrite(FundsWithdrawnAccount)
      && (a.reply.Pass? <==> faults.withdrawnWriteOk)
      && (a.reply.Fail? ==> a.reply.error == FailedToUpdate("loan") && a.bank.statusWrites == bank.statusWrites)
    ensures a.reply.Pass? ==>
      && |a.steps| == 2
      && a.bank.statusWrites == bank.statusWrites + [FundsWithdrawnAccount]
      && |a.bank.loans| == |bank.loans|
      && (forall i :: 0 <= i < |bank.loans| ==> a.bank.loans[i].approved)
    ensures a.reply.Fail? ==> a.bank.loans == bank.loans && a.bank.statusWrites == bank.statusWrites
  {
    var payout := PayoutRequest(account, actorId, loan);
    var w := Withdraw(bank.ledger, Some(payout), faults.withdraw, now);
    var paid := bank.(ledger := w.ledger);
    if w.reply.Fail? then Approval(paid, w.reply, [WithdrawCall(payout)])
    else if !faults.withdrawnWriteOk then
      Approval(paid, Fail(FailedToUpdate("loan")), [WithdrawCall(payout), StatusWrite(FundsWithdrawnAccount)])
    else
      Approval(WriteStatus(paid, FundsWithdrawnAccount, now), Pass,
               [WithdrawCall(payout), StatusWrite(FundsWithdrawnAccount)])
  }

  /**
   * The middle of the workflow, after the APPROVED write: look the account
   * up by the loan's chama and the requested name, then disburse from it.
   */
  function Payout(bank: Bank, actorId: string, q: ApproveLoanRequest, loan: Loan,
                  faults: SagaFaults, now: int): (a: Approval)
    ensures 1 <= |a.steps| <= 3 && a.steps[0] == AccountLookup(loan.chamaId, q.accountName)
    ensures |a.steps| >= 2 ==> a.steps[1].WithdrawCall?
    ensures |a.steps| == 3 ==> a.steps[2] == StatusWrite(FundsWithdrawnAccount)
    ensures
      var lookup := GetChamaAccount(bank.ledger.accounts, Some(PayoutAccount(loan, q)), faults.accountFindOk);
      && (lookup.Failure? <==> |a.steps| == 1)
      && (lookup.Failure? ==> a == Approval(bank, Fail(lookup.error), [AccountLookup(loan.chamaId, q.accountName)]))
      && (lookup.Success? ==>
            var d := Disburse(bank, actorId, loan, lookup.value, faults, now);
            a == d.(steps := [AccountLookup(loan.chamaId, q.accountName)] + d.steps))
    ensures a.reply.Pass? ==>
      && |a.steps| == 3
      && a.bank.statusWrites == bank.statusWrites + [FundsWithdrawnAccount]
      && |a.bank.loans| == |bank.loans|
      && (forall i :: 0 <= i < |bank.loans| ==> a.bank.loans[i].approved)
    ensures a.reply.Fail? ==> a.bank.loans == bank.loans && a.bank.statusWrites == bank.statusWrites
  {
    var lookupStep := AccountLookup(loan.chamaId, q.accountName);
    match GetChamaAccount(bank.ledger.accounts, Some(PayoutAccount(loan, q)), faults.accountFindOk)
    case Failure(e) => Approval(bank, Fail(e), [lookupStep])
    case Success(account) =>
      var d := Disburse(bank, actorId, loan, account, faults, now);
      d.(steps := [lookupStep] + d.steps)
  }

  /**
   * ApproveLoan from the point where the loan has been loaded: the status
   * guard, the APPROVED write, then the rest of the workflow. Each step that
   * fails ends it.
   */
  function ApproveLoaded(bank: Bank, actorId: string, q: ApproveLoanRequest, loan: Loan,
                         faults: SagaFaults, now: int): (a: Approval)
    ensures InWorkflowOrder(a.steps)
    ensures loan.status == FundsTransfered ==>
      a == Approval(bank, Fail(Status(AlreadyExists, "loan funds have been disbursed")), [])
    ensures loan.status != FundsTransfered ==> |a.steps| >= 1
    ensures loan.status != FundsTransfered && !faults.approvedWriteOk ==>
      a == Approval(bank, Fail(FailedToUpdate("loan")), [StatusWrite(Approved)])
    ensures |a.steps| >= 2 <==> loan.status != FundsTransfered && faults.approvedWriteOk
    ensures |a.steps| >= 2 ==>
      var p := Payout(WriteStatus(bank, Approved, now), actorId, q, loan, faults, now);
      a == p.(steps := [StatusWrite(Approved)] + p.steps)
    ensures a.reply.Pass? ==> |a.steps| == 4
  {
    if loan.status == FundsTransfered then
      Approval(bank, Fail(Status(AlreadyExists, "loan funds have been disbursed")), [])
    else if !faults.approvedWriteOk then
      Approval(bank, Fail(FailedToUpdate("loan")), [StatusWrite(Approved)])
    else
      var p := Payout(WriteStatus(bank, Approved, now), actorId, q, loan, faults, now);
      ApprovedThenPayoutInOrder(p.steps);
      p.(steps := [StatusWrite(Approved)] + p.steps)
  }

  /** The APPROVED write followed by the payout steps is in workflow order. */
  lemma ApprovedThenPayoutInOrder(steps: seq<SagaStep>)
    requires 1 <= |steps| <= 3 && steps[0].AccountLookup?
    requires |steps| >= 2 ==> steps[1].WithdrawCall?
    requires |steps| == 3 ==> steps[2] == StatusWrite(FundsWithdrawnAccount)
    ensures InWorkflowOrder([StatusWrite(Approved)] + steps)
  {
  }

  /**
   * ApproveLoan: the request guards, loading the loan through GetLoan, then
   * the workflow. The caller's id is `actorId`; authorization is taken to
   * succeed.
   */
  function ApproveLoan(bank: Bank, actorId: string, req: Option<ApproveLoanRequest>,
                       faults: SagaFaults, now: int): (a: Approval)
    ensures req.None? ==> a == Approval(bank, Fail(MissingField("request body")), [])
    ensures req.Some? && req.value.loanId == "" ==> a == Approval(bank, Fail(MissingField("loan id")), [])
    ensures req.Some? && req.value.loanId != "" ==>
      var loaded := GetLoan(bank.loans, Some(ByIdRequest(req.value.loanId)), faults.loanFindOk);
      && (loaded.Failure? ==> a == Approval(bank, Fail(loaded.error), []))
      && (loaded.Success? ==> a == ApproveLoaded(bank, actorId, req.value, loaded.value, faults, now))
    ensures InWorkflowOrder(a.steps)
    ensures a.steps == [] ==> a.bank == bank && a.reply.Fail?
  {
    match req
    case None => Approval(bank, Fail(MissingField("request body")), [])
    case Some(q) =>
      if q.loanId == "" then Approval(bank, Fail(MissingField("loan id")), [])
      else
        match GetLoan(bank.loans, Some(ByIdRequest(q.loanId)), faults.loanFindOk)
        case Failure(e) => Approval(bank, Fail(e), [])
        case Success(loan) => ApproveLoaded(bank, actorId, q, loan, faults, now)
  }

  // ---------------------------------------------------------------------
  // Properties of ApproveLoan
  // ---------------------------------------------------------------------

  /**
   * The disbursed-funds guard never fires: a loaded loan always carries the
   * zero status, since the loan row keeps no status, so once the loan is
   * loaded the APPROVED write is always attempted.
   */
  lemma LoadedLoanIsAlwaysApproved(bank: Bank, actorId: string, q: ApproveLoanRequest,
                                   faults: SagaFaults, now: int)
    requires GetLoan(bank.loans, Some(ByIdRequest(q.loanId)), faults.loanFindOk).Success?
    ensures
      var a := ApproveLoan(bank, actorId, Some(q), faults, now);
      |a.steps| >= 1 && a.steps[0] == StatusWrite(Approved)
  {
  }

  /** Withdraw is called at most once, and only as the third step. */
  lemma {:induction false} AtMostOneWithdraw(bank: Bank, actorId: string, req: Option<ApproveLoanRequest>,
                                             faults: SagaFaults, now: int)
    ensures
      var steps := ApproveLoan(bank, actorId, req, faults, now).steps;
      forall i :: 0 <= i < |steps| && steps[i].WithdrawCall? ==> i == 2
  {
    WithdrawIsThirdStep(ApproveLoan(bank, actorId, req, faults, now).steps);
  }

  lemma WithdrawIsThirdStep(steps: seq<SagaStep>)
    requires InWorkflowOrder(steps)
    ensures forall i :: 0 <= i < |steps| && steps[i].WithdrawCall? ==> i == 2
  {
  }

  /**
   * The statuses ApproveLoan writes are APPROVED and then
   * FUNDS_WITHDRAWN_ACCOUNT, appended to what was written before; it never
   * writes FUNDS_TRANSFERED.
   */
  lemma WritesOnlyApprovedThenWithdrawn(bank: Bank, actorId: string, req: Option<ApproveLoanRequest>,
                                        faults: SagaFaults, now: int)
    ensures StatusLog(bank.statusWrites, ApproveLoan(bank, actorId, req, faults, now).bank.statusWrites)
  {
    if req.Some? && req.value.loanId != "" {
      var loaded := GetLoan(bank.loans, Some(ByIdRequest(req.value.loanId)), faults.loanFindOk);
      if loaded.Success? {
        LoadedWritesOnlyApprovedThenWithdrawn(bank, actorId, req.value, loaded.value, faults, now);
      }
    }
  }

  /** The status writes a run may leave: none, APPROVED, or APPROVED then FUNDS_WITHDRAWN_ACCOUNT. */
  predicate StatusLog(before: seq<LoanStatus>, after: seq<LoanStatus>) {
    || after == before
    || after == before + [Approved]
    || after == before + [Approved, FundsWithdrawnAccount]
  }

  /** The same, from the point where the loan has been loaded. */
  lemma LoadedWritesOnlyApprovedThenWithdrawn(bank: Bank, actorId: string, q: ApproveLoanRequest, loan: Loan,
                                              faults: SagaFaults, now: int)
    ensures StatusLog(bank.statusWrites, ApproveLoaded(bank, actorId, q, loan, faults, now).bank.statusWrites)
  {
    var a := ApproveLoaded(bank, actorId, q, loan, faults, now);
    if |a.steps| >= 2 {
      var approved := WriteStatus(bank, Approved, now);
      var p := Payout(approved, actorId, q, loan, faults, now);
      assert a.bank == p.bank;
      assert approved.statusWrites + [FundsWithdrawnAccount] == bank.statusWrites + [Approved, FundsWithdrawnAccount];
    }
  }

  /**
   * Nothing compensates: once the APPROVED write has succeeded, every loan
   * stays approved and APPROVED stays logged, whatever fails afterwards.
   */
  lemma ApprovalIsNeverUndone(bank: Bank, actorId: string, req: Option<ApproveLoanRequest>,
                              faults: SagaFaults, now: int)
    requires |ApproveLoan(bank, actorId, req, faults, now).steps| >= 2
    ensures
      var after := ApproveLoan(bank, actorId, req, faults, now).bank;
      && |after.loans| == |bank.loans|
      && (forall i :: 0 <= i < |after.loans| ==> after.loans[i].approved)
      && |after.statusWrites| > |bank.statusWrites|
      && after.statusWrites[|bank.statusWrites|] == Approved
  {
    var q := req.value;
    var loan := GetLoan(bank.loans, Some(ByIdRequest(q.loanId)), faults.loanFindOk).value;
    var approved := WriteStatus(bank, Approved, now);
    var p := Payout(approved, actorId, q, loan, faults, now);
    assert ApproveLoan(bank, actorId, req, faults, now).bank == p.bank;
    assert approved.statusWrites[|bank.statusWrites|] == Approved;
  }

  /** On success every loan is approved and the last status written is FUNDS_WITHDRAWN_ACCOUNT. */
  lemma SuccessEndsWithdrawn(bank: Bank, actorId: string, req: Option<ApproveLoanRequest>, faults: SagaFaults, now: int)
    requires ApproveLoan(bank, actorId, req, faults, now).reply.Pass?
    ensures
      var after := ApproveLoan(bank, actorId, req, faults, now).bank;
      && |after.statusWrites| == |bank.statusWrites| + 2
      && after.statusWrites[|after.statusWrites| - 1] == FundsWithdrawnAccount
      && (forall i :: 0 <= i < |after.loans| ==> after.loans[i].approved)
      && |after.loans| == |bank.loans|
  {
  }

  /**
   * `w` pays out loan row `k` from the oldest account owned by that loan's
   * chama with the requested account name.
   */
  ghost predicate WithdrawsLoanFrom(bank: Bank, q: ApproveLoanRequest, w: MoneyRequest, k: int)
    requires 0 <= k < |bank.loans|
  {
    var loan := bank.loans[k];
    var accounts := bank.ledger.accounts;
    && Decimal(loan.id) == q.loanId
    && w.amount == loan.loanAmount
    && w.description == "Loan approval for " + loan.loaneeNames
    && exists j :: 0 <= j < |accounts| && accounts[j].ownerId == loan.chamaId && accounts[j].accountName == q.accountName
         && w.accountId == Decimal(accounts[j].id)
         && (forall i :: 0 <= i < j ==> !(accounts[i].ownerId == loan.chamaId && accounts[i].accountName == q.accountName))
  }

  /** Every store call ApproveLoan makes succeeds. */
  const SagaSucceeds := SagaFaults(true, true, true, AllSucceed, true)

  /** With every store call succeeding, the payout debits the account it names. */
  lemma DisbursePays(bank: Bank, actorId: string, loan: Loan, account: ChamaAccount, j: int, now: int)
    requires actorId != "" && loan.loanAmount > 0.0
    requires 0 <= j < |bank.ledger.accounts| && account.accountId == Decimal(bank.ledger.accounts[j].id)
    requires bank.ledger.accounts[j].withdrawable && bank.ledger.accounts[j].availableAmount >= loan.loanAmount
    ensures
      var a := Disburse(bank, actorId, loan, account, SagaSucceeds, now);
      && a.reply == Pass
      && |a.bank.ledger.accounts| == |bank.ledger.accounts|
      && a.bank.ledger.accounts[j].availableAmount == bank.ledger.accounts[j].availableAmount - loan.loanAmount
  {
    var payout := PayoutRequest(account, actorId, loan);
    var accounts := bank.ledger.accounts;
    assert IsAccount(payout.accountId)(accounts[j]);
    assert CanWithdraw(payout.accountId, payout.amount)(accounts[j]);
    assert Prologue(bank.ledger, Some(payout), AllSucceed).None?;
    WithdrawTouchesOnlyTarget(bank.ledger, payout, AllSucceed, now);
  }

  /** The oldest account of `owner` named `name` is row `j`. */
  predicate OldestNamedAccount(accounts: seq<ChamaAccountRow>, owner: string, name: string, j: int) {
    && 0 <= j < |accounts|
    && accounts[j].ownerId == owner && accounts[j].accountName == name
    && forall i :: 0 <= i < j ==> !(accounts[i].ownerId == owner && accounts[i].accountName == name)
  }

  /** With every store call succeeding, the lookup finds the oldest named account and the payout debits it. */
  lemma PayoutPays(bank: Bank, actorId: string, q: ApproveLoanRequest, loan: Loan, j: int, now: int)
    requires actorId != "" && q.accountName != "" && loan.chamaId != "" && loan.loanAmount > 0.0
    requires OldestNamedAccount(bank.ledger.accounts, loan.chamaId, q.accountName, j)
    requires bank.ledger.accounts[j].withdrawable && bank.ledger.accounts[j].availableAmount >= loan.loanAmount
    ensures
      var a := Payout(bank, actorId, q, loan, SagaSucceeds, now);
      && a.reply == Pass
      && |a.steps| == 3
      && |a.bank.ledger.accounts| == |bank.ledger.accounts|
      && a.bank.ledger.accounts[j].availableAmount == bank.ledger.accounts[j].availableAmount - loan.loanAmount
  {
    var lookup := GetChamaAccount(bank.ledger.accounts, Some(PayoutAccount(loan, q)), true);
    var k :| 0 <= k < |bank.ledger.accounts| && lookup.value == ChamaAccountMessage(bank.ledger.accounts[k])
      && Lookup(PayoutAccount(loan, q))(bank.ledger.accounts[k])
      && forall i :: 0 <= i < k ==> !Lookup(PayoutAccount(loan, q))(bank.ledger.accounts[i]);
    assert Lookup(PayoutAccount(loan, q))(bank.ledger.accounts[j]);
    assert k == j;
    DisbursePays(bank, actorId, loan, lookup.value, j, now);
  }

  /**
   * ApproveLoan pays a loan out: with every store call succeeding, a loan
   * with a positive amount, and a withdrawable account of the loan's chama
   * holding the amount, the workflow runs all four steps and debits that
   * account by the loan amount.
   */
  lemma ApproveLoanPaysOut(bank: Bank, actorId: string, q: ApproveLoanRequest, j: int, now: int)
    requires actorId != "" && q.accountName != ""
    requires GetLoan(bank.loans, Some(ByIdRequest(q.loanId)), true).Success?
    requires
      var loan := GetLoan(bank.loans, Some(ByIdRequest(q.loanId)), true).value;
      && loan.loanAmount > 0.0 && loan.chamaId != ""
      && OldestNamedAccount(bank.ledger.accounts, loan.chamaId, q.accountName, j)
      && bank.ledger.accounts[j].withdrawable && bank.ledger.accounts[j].availableAmount >= loan.loanAmount
    ensures
      var loan := GetLoan(bank.loans, Some(ByIdRequest(q.loanId)), true).value;
      var a := ApproveLoan(bank, actorId, Some(q), SagaSucceeds, now);
      && a.reply == Pass
      && |a.steps| == 4
      && |a.bank.ledger.accounts| == |bank.ledger.accounts|
      && a.bank.ledger.accounts[j].availableAmount == bank.ledger.accounts[j].availableAmount - loan.loanAmount
  {
    var loan := GetLoan(bank.loans, Some(ByIdRequest(q.loanId)), true).value;
    LoadedPays(bank, actorId, q, loan, j, now);
  }

  lemma LoadedPays(bank: Bank, actorId: string, q: ApproveLoanRequest, loan: Loan, j: int, now: int)
    requires actorId != "" && q.accountName != "" && loan.chamaId != "" && loan.loanAmount > 0.0
    requires loan.status == LoanStatusUnspecified
    requires OldestNamedAccount(bank.ledger.accounts, loan.chamaId, q.accountName, j)
    requires bank.ledger.accounts[j].withdrawable && bank.ledger.accounts[j].availableAmount >= loan.loanAmount
    ensures
      var a := ApproveLoaded(bank, actorId, q, loan, SagaSucceeds, now);
      && a.reply == Pass
      && |a.steps| == 4
      && |a.bank.ledger.accounts| == |bank.ledger.accounts|
      && a.bank.ledger.accounts[j].availableAmount == bank.ledger.accounts[j].availableAmount - loan.loanAmount
  {
    PayoutPays(WriteStatus(bank, Approved, now), actorId, q, loan, j, now);
  }

  /** A withdrawal ApproveLoan issues is the payout of the loaded loan from the account looked up. */
  lemma PayoutOfApproval(bank: Bank, actorId: string, req: Option<ApproveLoanRequest>,
                         faults: SagaFaults, now: int, w: MoneyRequest)
    requires WithdrawCall(w) in ApproveLoan(bank, actorId, req, faults, now).steps
    ensures req.Some? && req.value.loanId != ""
    ensures
      var loaded := GetLoan(bank.loans, Some(ByIdRequest(req.value.loanId)), faults.loanFindOk);
      && loaded.Success?
      && var lookup := GetChamaAccount(bank.ledger.accounts, Some(PayoutAccount(loaded.value, req.value)), faults.accountFindOk);
         && lookup.Success?
         && w == PayoutRequest(lookup.value, actorId, loaded.value)
  {
    var q := req.value;
    var loan := GetLoan(bank.loans, Some(ByIdRequest(q.loanId)), faults.loanFindOk).value;
    PayoutOfLoaded(bank, actorId, q, loan, faults, now, w);
  }

  lemma PayoutOfLoaded(bank: Bank, actorId: string, q: ApproveLoanRequest, loan: Loan,
                       faults: SagaFaults, now: int, w: MoneyRequest)
    requires WithdrawCall(w) in ApproveLoaded(bank, actorId, q, loan, faults, now).steps
    ensures
      var lookup := GetChamaAccount(bank.ledger.accounts, Some(PayoutAccount(loan, q)), faults.accountFindOk);
      lookup.Success? && w == PayoutRequest(lookup.value, actorId, loan)
  {
    var a := ApproveLoaded(bank, actorId, q, loan, faults, now);
    WithdrawIsThirdStep(a.steps);
    var p := Payout(WriteStatus(bank, Approved, now), actorId, q, loan, faults, now);
    var lookup := GetChamaAccount(bank.ledger.accounts, Some(PayoutAccount(loan, q)), faults.accountFindOk);
    var d := Disburse(WriteStatus(bank, Approved, now), actorId, loan, lookup.value, faults, now);
    assert a.steps[2] == p.steps[1] == d.steps[0];
  }

  /** The payout of a loan row found by id, from the account found by chama and name. */
  lemma PayoutTargets(bank: Bank, actorId: string, q: ApproveLoanRequest, faults: SagaFaults, w: MoneyRequest)
    requires q.loanId != ""
    requires GetLoan(bank.loans, Some(ByIdRequest(q.loanId)), faults.loanFindOk).Success?
    requires
      var loan := GetLoan(bank.loans, Some(ByIdRequest(q.loanId)), faults.loanFindOk).value;
      var lookup := GetChamaAccount(bank.ledger.accounts, Some(PayoutAccount(loan, q)), faults.accountFindOk);
      lookup.Success? && w == PayoutRequest(lookup.value, actorId, loan)
    ensures exists k :: 0 <= k < |bank.loans| && WithdrawsLoanFrom(bank, q, w, k)
  {
    var loan := GetLoan(bank.loans, Some(ByIdRequest(q.loanId)), faults.loanFindOk).value;
    var k :| 0 <= k < |bank.loans| && loan == LoanMessage(bank.loans[k]);
    var lookup := GetChamaAccount(bank.ledger.accounts, Some(PayoutAccount(loan, q)), faults.accountFindOk);
    var j :| 0 <= j < |bank.ledger.accounts| && lookup.value == ChamaAccountMessage(bank.ledger.accounts[j])
      && Lookup(PayoutAccount(loan, q))(bank.ledger.accounts[j])
      && forall i :: 0 <= i < j ==> !Lookup(PayoutAccount(loan, q))(bank.ledger.accounts[i]);
    assert WithdrawsLoanFrom(bank, q, w, k);
  }

  /**
   * The withdrawal targets the oldest account owned by the loan's chama with
   * the requested name, for the loan amount, in the caller's name, with the
   * loanee's names in the description.
   */
  lemma WithdrawTargetsChamaAccount(bank: Bank, actorId: string, req: Option<ApproveLoanRequest>,
                                    faults: SagaFaults, now: int, w: MoneyRequest)
    requires WithdrawCall(w) in ApproveLoan(bank, actorId, req, faults, now).steps
    ensures req.Some?
    ensures exists k :: 0 <= k < |bank.loans| && WithdrawsLoanFrom(bank, req.value, w, k)
    ensures w.actorId == actorId
  {
    PayoutOfApproval(bank, actorId, req, faults, now, w);
    PayoutTargets(bank, actorId, req.value, faults, w);
  }
}
