/**
 * The transaction service (internal/transaction/transaction.go): Deposit and
 * Withdraw move money into and out of a chama account and log a transaction
 * record; ListTransactions and GetTransaction read the log.
 *
 * Deposit and Withdraw insert the record inside a database transaction but
 * issue the balance update on the plain connection, outside that transaction.
 * The model keeps that split: the balance change lands when the update
 * succeeds, while the record lands only when the commit succeeds. Every store
 * call that can fail for reasons other than the table's contents is an input
 * (`LedgerFaults`).
 */
module Transactions {
  import opened Common
  import opened Enums
  import opened Models
  import opened Pager

  /** The fields of a DepositRequest and of a WithdrawRequest. */
  datatype MoneyRequest = MoneyRequest(accountId: string, actorId: string, description: string, amount: real)

  /**
   * The accounts table, the transactions table and the transactions table's
   * auto-increment counter: the highest id handed out so far, which an
   * insert consumes even when its transaction never commits.
   */
  datatype Ledger = Ledger(accounts: seq<ChamaAccountRow>, transactions: seq<TransactionRow>, issued: nat)

  /** The state after a call together with the handler's reply. */
  datatype LedgerEffect = LedgerEffect(ledger: Ledger, reply: Outcome<Err>)

  /**
   * Whether each store call succeeds: the account lookup, opening the
   * transaction, inserting the record, the balance update and the commit.
   */
  datatype LedgerFaults = LedgerFaults(findOk: bool, beginOk: bool, insertOk: bool, updateOk: bool, commitOk: bool)

  /**
   * The validation both handlers run before touching the store, in order:
   * nil request, empty account id, empty actor id, empty description, zero
   * amount, negative amount.
   */
  function CheckMoneyRequest(req: Option<MoneyRequest>): (e: Option<Err>)
    ensures e.None? <==>
      req.Some? && req.value.accountId != "" && req.value.actorId != "" && req.value.description != ""
      && req.value.amount > 0.0
    ensures req.None? ==> e == Some(MissingField("request"))
    ensures req.Some? && req.value.accountId == "" ==> e == Some(MissingField("account id"))
    ensures req.Some? && req.value.accountId != "" && req.value.actorId == "" ==> e == Some(MissingField("actor id"))
    ensures req.Some? && req.value.accountId != "" && req.value.actorId != "" && req.value.description == "" ==>
      e == Some(MissingField("description"))
    ensures req.Some? && req.value.accountId != "" && req.value.actorId != "" && req.value.description != "" ==>
      (req.value.amount == 0.0 ==> e == Some(MissingField("amount")))
      && (req.value.amount < 0.0 ==> e == Some(IncorrectVal("amount")))
  {
    match req
    case None => Some(MissingField("request"))
    case Some(q) =>
      if q.accountId == "" then Some(MissingField("account id"))
      else if q.actorId == "" then Some(MissingField("actor id"))
      else if q.description == "" then Some(MissingField("description"))
      else if q.amount == 0.0 then Some(MissingField("amount"))
      else if q.amount < 0.0 then Some(IncorrectVal("amount"))
      else None
  }

  /** The account condition `id = ?`. */
  function IsAccount(id: string): ChamaAccountRow -> bool {
    (a: ChamaAccountRow) => Decimal(a.id) == id
  }

  predicate AccountExists(accounts: seq<ChamaAccountRow>, id: string) {
    First(accounts, IsAccount(id)).Some?
  }

  /** The record a call inserts; the store assigns the next id. */
  function Record(ledger: Ledger, req: MoneyRequest, t: TransactionType, now: int): (rec: TransactionRow)
    ensures rec.id == NextId(ledger.transactions, TransactionKey, ledger.issued)
    ensures rec.accountId == req.accountId && rec.actorId == req.actorId
    ensures rec.description == req.description && rec.transactionAmount == req.amount
    ensures rec.transactionType == TransactionTypeName(t) && rec.createdAt == now
    ensures TransactionMessage(rec).transactionType == t
  {
    TransactionTypeRoundTrip(t);
    TransactionRow(NextId(ledger.transactions, TransactionKey, ledger.issued), req.actorId, req.accountId,
                   req.description, TransactionTypeName(t), req.amount, now)
  }

  /**
   * The ledger once the record was inserted: the counter has moved to the
   * record's id, though the record itself lands only with the commit.
   */
  function Inserted(ledger: Ledger, req: MoneyRequest, t: TransactionType, now: int): Ledger {
    ledger.(issued := Record(ledger, req, t, now).id)
  }

  /**
   * The steps Deposit and Withdraw share before their balance update:
   * validation, the account lookup (a missing account is reported with
   * `DoesExist`), opening the transaction and inserting the record.
   */
  function Prologue(ledger: Ledger, req: Option<MoneyRequest>, faults: LedgerFaults): (e: Option<Err>)
    ensures CheckMoneyRequest(req).Some? ==> e == CheckMoneyRequest(req)
    ensures e.None? <==>
      && CheckMoneyRequest(req).None?
      && faults.findOk && AccountExists(ledger.accounts, req.value.accountId)
      && faults.beginOk && faults.insertOk
    ensures CheckMoneyRequest(req).None? && faults.findOk && !AccountExists(ledger.accounts, req.value.accountId) ==>
      e == Some(DoesExist("chama account", req.value.accountId))
  {
    match CheckMoneyRequest(req)
    case Some(err) => Some(err)
    case None =>
      if !faults.findOk then Some(FailedToFind("chama account"))
      else if !AccountExists(ledger.accounts, req.value.accountId) then Some(DoesExist("chama account", req.value.accountId))
      else if !faults.beginOk then Some(FailedToBeginTx)
      else if !faults.insertOk then Some(FailedToSave("transaction"))
      else None
  }

  // ---------------------------------------------------------------------
  // Deposit
  // ---------------------------------------------------------------------

  /** The balance update of a deposit. */
  function Credit(a: ChamaAccountRow, amount: real, now: int): ChamaAccountRow {
    a.(totalDepositedAmount := a.totalDepositedAmount + amount,
       availableAmount := a.availableAmount + amount,
       lastDepositedAmount := amount,
       updatedAt := now)
  }

  function Deposit(ledger: Ledger, req: Option<MoneyRequest>, faults: LedgerFaults, now: int): (e: LedgerEffect)
    // Nothing changes unless the balance update ran.
    ensures Prologue(ledger, req, faults).Some? ==> e == LedgerEffect(ledger, Fail(Prologue(ledger, req, faults).value))
    // Once the insert ran, its id stays consumed whatever follows.
    ensures Prologue(ledger, req, faults).None? ==>
      e.ledger.issued == Record(ledger, req.value, TransactionType.Deposit, now).id
    ensures Prologue(ledger, req, faults).None? && !faults.updateOk ==>
      e == LedgerEffect(Inserted(ledger, req.value, TransactionType.Deposit, now), Fail(FailedToUpdate("account balance")))
    ensures e.reply.Pass? <==> Prologue(ledger, req, faults).None? && faults.updateOk && faults.commitOk
    // The record lands with the commit only; a failed commit keeps the balance change.
    ensures e.reply.Pass? ==>
      var rec := Record(ledger, req.value, TransactionType.Deposit, now);
      && e.ledger.transactions == ledger.transactions + [rec]
      && rec.actorId == req.value.actorId && rec.accountId == req.value.accountId
      && rec.description == req.value.description && rec.transactionAmount == req.value.amount
    ensures Prologue(ledger, req, faults).None? && faults.updateOk && !faults.commitOk ==>
      e.reply == Fail(FailedToCommitTx) && e.ledger.transactions == ledger.transactions
  {
    match Prologue(ledger, req, faults)
    case Some(err) => LedgerEffect(ledger, Fail(err))
    case None =>
      var q := req.value;
      var rec := Record(ledger, q, TransactionType.Deposit, now);
      if !faults.updateOk then LedgerEffect(ledger.(issued := rec.id), Fail(FailedToUpdate("account balance")))
      else
        var accounts := UpdateWhere(ledger.accounts, IsAccount(q.accountId), a => Credit(a, q.amount, now));
        if !faults.commitOk then LedgerEffect(Ledger(accounts, ledger.transactions, rec.id), Fail(FailedToCommitTx))
        else LedgerEffect(Ledger(accounts, ledger.transactions + [rec], rec.id), Pass)
  }

  // ---------------------------------------------------------------------
  // Withdraw
  // ---------------------------------------------------------------------

  /** The condition of the withdrawal update: the account, enough money, withdrawable. */
  function CanWithdraw(id: string, amount: real): ChamaAccountRow -> bool {
    (a: ChamaAccountRow) => Decimal(a.id) == id && a.availableAmount >= amount && a.withdrawable
  }

  /**
   * The balance update of a withdrawal, as written: the withdrawn total
   * becomes the deposited total plus the amount.
   */
  function Debit(a: ChamaAccountRow, amount: real, now: int): ChamaAccountRow {
    a.(totalWithdrawnAmount := a.totalDepositedAmount + amount,
       availableAmount := a.availableAmount - amount,
       lastWithdrawnAmount := amount,
       updatedAt := now)
  }

  function Withdraw(ledger: Ledger, req: Option<MoneyRequest>, faults: LedgerFaults, now: int): (e: LedgerEffect)
    ensures Prologue(ledger, req, faults).Some? ==> e == LedgerEffect(ledger, Fail(Prologue(ledger, req, faults).value))
    ensures Prologue(ledger, req, faults).None? ==>
      e.ledger.issued == Record(ledger, req.value, Withdrawal, now).id
    ensures Prologue(ledger, req, faults).None? && !faults.updateOk ==>
      e == LedgerEffect(Inserted(ledger, req.value, Withdrawal, now), Fail(FailedToUpdate("account balance")))
    // No account meets the update's condition: nothing changes and nothing is committed.
    ensures Prologue(ledger, req, faults).None? && faults.updateOk ==>
      ((forall i :: 0 <= i < |ledger.accounts| ==> !CanWithdraw(req.value.accountId, req.value.amount)(ledger.accounts[i]))
        <==> e.reply == Fail(Status(FailedPrecondition, "insufficient amount")))
    ensures e.reply == Fail(Status(FailedPrecondition, "insufficient amount")) ==>
      e.ledger == Inserted(ledger, req.value, Withdrawal, now)
    ensures e.reply.Pass? <==>
      && Prologue(ledger, req, faults).None? && faults.updateOk && faults.commitOk
      && (exists i :: 0 <= i < |ledger.accounts| && CanWithdraw(req.value.accountId, req.value.amount)(ledger.accounts[i]))
    ensures e.reply.Pass? ==>
      e.ledger.transactions == ledger.transactions + [Record(ledger, req.value, Withdrawal, now)]
    ensures e.reply == Fail(FailedToCommitTx) ==> e.ledger.transactions == ledger.transactions
  {
    match Prologue(ledger, req, faults)
    case Some(err) => LedgerEffect(ledger, Fail(err))
    case None =>
      var q := req.value;
      var cond := CanWithdraw(q.accountId, q.amount);
      var rec := Record(ledger, q, Withdrawal, now);
      if !faults.updateOk then LedgerEffect(ledger.(issued := rec.id), Fail(FailedToUpdate("account balance")))
      else if First(ledger.accounts, cond).None? then
        LedgerEffect(ledger.(issued := rec.id), Fail(Status(FailedPrecondition, "insufficient amount")))
      else
        var accounts := UpdateWhere(ledger.accounts, cond, a => Debit(a, q.amount, now));
        if !faults.commitOk then LedgerEffect(Ledger(accounts, ledger.transactions, rec.id), Fail(FailedToCommitTx))
        else LedgerEffect(Ledger(accounts, ledger.transactions + [rec], rec.id), Pass)
  }

  // ---------------------------------------------------------------------
  // What a call does to the accounts
  // ---------------------------------------------------------------------

  /** Every account's available amount is what was deposited less what was withdrawn. */
  ghost predicate Balanced(accounts: seq<ChamaAccountRow>) {
    forall i :: 0 <= i < |accounts| ==>
      accounts[i].availableAmount == accounts[i].totalDepositedAmount - accounts[i].totalWithdrawnAmount
  }

  ghost predicate NoOverdraft(accounts: seq<ChamaAccountRow>) {
    forall i :: 0 <= i < |accounts| ==> accounts[i].availableAmount >= 0.0
  }

  /**
   * Once its balance update ran (whether or not the commit then succeeds), a
   * deposit has moved only the deposit figures of the addressed account.
   */
  lemma DepositTouchesOnlyTarget(ledger: Ledger, req: MoneyRequest, faults: LedgerFaults, now: int)
    requires Prologue(ledger, Some(req), faults).None? && faults.updateOk
    ensures
      var before, after := ledger.accounts, Deposit(ledger, Some(req), faults, now).ledger.accounts;
      && |after| == |before|
      && (forall i :: 0 <= i < |before| && Decimal(before[i].id) != req.accountId ==> after[i] == before[i])
      && (forall i :: 0 <= i < |before| && Decimal(before[i].id) == req.accountId ==>
            && after[i].totalDepositedAmount == before[i].totalDepositedAmount + req.amount
            && after[i].availableAmount == before[i].availableAmount + req.amount
            && after[i].lastDepositedAmount == req.amount
            && after[i].totalWithdrawnAmount == before[i].totalWithdrawnAmount
            && after[i].lastWithdrawnAmount == before[i].lastWithdrawnAmount
            && after[i].(totalDepositedAmount := before[i].totalDepositedAmount,
                         availableAmount := before[i].availableAmount,
                         lastDepositedAmount := before[i].lastDepositedAmount,
                         updatedAt := before[i].updatedAt) == before[i])
  {
  }

  /** A deposit keeps every account balanced: both totals rise by the amount. */
  lemma DepositKeepsBalanced(ledger: Ledger, req: Option<MoneyRequest>, faults: LedgerFaults, now: int)
    requires Balanced(ledger.accounts)
    ensures Balanced(Deposit(ledger, req, faults, now).ledger.accounts)
  {
    if Prologue(ledger, req, faults).None? && faults.updateOk {
      DepositTouchesOnlyTarget(ledger, req.value, faults, now);
    }
  }

  lemma DepositKeepsNoOverdraft(ledger: Ledger, req: Option<MoneyRequest>, faults: LedgerFaults, now: int)
    requires NoOverdraft(ledger.accounts)
    ensures NoOverdraft(Deposit(ledger, req, faults, now).ledger.accounts)
  {
    if Prologue(ledger, req, faults).None? && faults.updateOk {
      DepositTouchesOnlyTarget(ledger, req.value, faults, now);
    }
  }

  /**
   * Once its balance update ran, a withdrawal has moved only the accounts
   * that are the addressed one, hold at least the amount and are
   * withdrawable; the withdrawn total becomes the deposited total plus the
   * amount.
   */
  lemma WithdrawTouchesOnlyTarget(ledger: Ledger, req: MoneyRequest, faults: LedgerFaults, now: int)
    requires Prologue(ledger, Some(req), faults).None? && faults.updateOk
    ensures
      var before, after := ledger.accounts, Withdraw(ledger, Some(req), faults, now).ledger.accounts;
      && |after| == |before|
      && (forall i :: 0 <= i < |before| && !CanWithdraw(req.accountId, req.amount)(before[i]) ==> after[i] == before[i])
      && (forall i :: 0 <= i < |before| && CanWithdraw(req.accountId, req.amount)(before[i]) ==>
            && Decimal(before[i].id) == req.accountId
            && before[i].availableAmount >= req.amount && before[i].withdrawable
            && after[i].availableAmount == before[i].availableAmount - req.amount
            && after[i].totalWithdrawnAmount == before[i].totalDepositedAmount + req.amount
            && after[i].lastWithdrawnAmount == req.amount
            && after[i].totalDepositedAmount == before[i].totalDepositedAmount
            && after[i].(totalWithdrawnAmount := before[i].totalWithdrawnAmount,
                         availableAmount := before[i].availableAmount,
                         lastWithdrawnAmount := before[i].lastWithdrawnAmount,
                         updatedAt := before[i].updatedAt) == before[i])
  {
  }

  /** A withdrawal never takes an account below zero. */
  lemma WithdrawKeepsNoOverdraft(ledger: Ledger, req: Option<MoneyRequest>, faults: LedgerFaults, now: int)
    requires NoOverdraft(ledger.accounts)
    ensures NoOverdraft(Withdraw(ledger, req, faults, now).ledger.accounts)
  {
    if Prologue(ledger, req, faults).None? && faults.updateOk {
      WithdrawTouchesOnlyTarget(ledger, req.value, faults, now);
    }
  }

  const AllSucceed := LedgerFaults(true, true, true, true, true)

  /**
   * The withdrawal update does not keep accounts balanced: an account that
   * took 500 in deposits and withdraws 300 reports 800 withdrawn with 200
   * available.
   */
  lemma WithdrawBreaksBalance()
    ensures
      var before := ChamaAccountRow(1, "owner", "savings", "SAVINGS_ACCOUNT", true, 500.0, 500.0, 0.0, 500.0, 0.0, true, 0, 0);
      var e := Withdraw(Ledger([before], [], 0), Some(MoneyRequest("1", "actor", "loan", 300.0)), AllSucceed, 1);
      && Balanced([before])
      && e.reply == Pass
      && e.ledger.accounts[0].availableAmount == 200.0
      && e.ledger.accounts[0].totalWithdrawnAmount == 800.0
      && !Balanced(e.ledger.accounts)
  {
    var before := ChamaAccountRow(1, "owner", "savings", "SAVINGS_ACCOUNT", true, 500.0, 500.0, 0.0, 500.0, 0.0, true, 0, 0);
    var req := MoneyRequest("1", "actor", "loan", 300.0);
    assert Decimal(1) == "1";
    assert IsAccount("1")(before);
    assert CanWithdraw("1", 300.0)(before);
    WithdrawTouchesOnlyTarget(Ledger([before], [], 0), req, AllSucceed, 1);
  }

  /**
   * Withdrawing what was just deposited restores the available amount of a
   * withdrawable account when every store call succeeds.
   */
  lemma WithdrawUndoesDeposit(ledger: Ledger, req: MoneyRequest, now: int, later: int, i: nat)
    requires CheckMoneyRequest(Some(req)).None?
    requires NoOverdraft(ledger.accounts)
    requires i < |ledger.accounts| && Decimal(ledger.accounts[i].id) == req.accountId && ledger.accounts[i].withdrawable
    ensures
      var mid := Deposit(ledger, Some(req), AllSucceed, now);
      var end := Withdraw(mid.ledger, Some(req), AllSucceed, later);
      && mid.reply == Pass && end.reply == Pass
      && end.ledger.accounts[i].availableAmount == ledger.accounts[i].availableAmount
  {
    assert IsAccount(req.accountId)(ledger.accounts[i]);
    DepositTouchesOnlyTarget(ledger, req, AllSucceed, now);
    var mid := Deposit(ledger, Some(req), AllSucceed, now);
    assert IsAccount(req.accountId)(mid.ledger.accounts[i]);
    assert CanWithdraw(req.accountId, req.amount)(mid.ledger.accounts[i]);
    WithdrawTouchesOnlyTarget(mid.ledger, req, AllSucceed, later);
  }

  /** The counter is at or above the id of every stored record. */
  ghost predicate CounterAhead(ledger: Ledger) {
    forall i :: 0 <= i < |ledger.transactions| ==> ledger.transactions[i].id <= ledger.issued
  }

  /** Deposits and withdrawals keep the counter ahead of the stored records. */
  lemma CallsKeepCounterAhead(ledger: Ledger, req: Option<MoneyRequest>, faults: LedgerFaults, now: int)
    requires CounterAhead(ledger)
    ensures CounterAhead(Deposit(ledger, req, faults, now).ledger)
    ensures CounterAhead(Withdraw(ledger, req, faults, now).ledger)
  {
    if Prologue(ledger, req, faults).None? {
      var d := Deposit(ledger, req, faults, now).ledger;
      var w := Withdraw(ledger, req, faults, now).ledger;
      forall i | 0 <= i < |d.transactions|
        ensures d.transactions[i].id <= d.issued
      {
        if i < |ledger.transactions| {
          assert d.transactions[i] == ledger.transactions[i];
        }
      }
      forall i | 0 <= i < |w.transactions|
        ensures w.transactions[i].id <= w.issued
      {
        if i < |ledger.transactions| {
          assert w.transactions[i] == ledger.transactions[i];
        }
      }
    }
  }

  /**
   * The id of a withdrawal that inserted its record but did not commit is
   * not handed to the next record: the counter has moved past it.
   */
  lemma UncommittedIdIsNotReissued(ledger: Ledger, req: MoneyRequest, next: MoneyRequest, t: TransactionType,
                                   faults: LedgerFaults, now: int, later: int)
    requires Prologue(ledger, Some(req), faults).None?
    ensures
      var e := Withdraw(ledger, Some(req), faults, now);
      e.reply.Fail? ==>
        && Record(e.ledger, next, t, later).id > Record(ledger, req, Withdrawal, now).id
        && e.ledger.transactions == ledger.transactions
  {
  }

  // ---------------------------------------------------------------------
  // Reading the log
  // ---------------------------------------------------------------------

  /** GetTransaction; an empty id is reported as a missing "account id", as written. */
  function GetTransaction(rows: seq<TransactionRow>, req: Option<ByIdRequest>, findOk: bool): (r: Result<Transaction, Err>)
    ensures req.None? ==> r == Failure(MissingField("request body"))
    ensures req.Some? && req.value.id == "" ==> r == Failure(MissingField("account id"))
    ensures req.Some? && req.value.id != "" && !findOk ==> r == Failure(FailedToFind("transaction"))
    ensures req.Some? && req.value.id != "" && findOk ==>
      ((forall i :: 0 <= i < |rows| ==> Decimal(rows[i].id) != req.value.id)
        <==> r == Failure(DoesNotExist("transaction", req.value.id)))
    ensures r.Success? ==>
      && req.Some? && r.value.transactionId == req.value.id
      && (exists i :: 0 <= i < |rows| && r.value == TransactionMessage(rows[i]))
  {
    match GetById(rows, TransactionKey, req, "account id", "transaction", findOk)
    case Failure(e) => Failure(e)
    case Success(row) => Success(TransactionMessage(row))
  }

  /** A committed record can be read back by the id the store gave it. */
  lemma CommittedRecordIsReadable(rows: seq<TransactionRow>, rec: TransactionRow, issued: nat)
    requires WellKeyed(rows, TransactionKey) && rec.id == NextId(rows, TransactionKey, issued)
    ensures WellKeyed(rows + [rec], TransactionKey)
    ensures GetTransaction(rows + [rec], Some(ByIdRequest(Decimal(rec.id))), true) == Success(TransactionMessage(rec))
  {
    AppendedRowIsFound(rows, TransactionKey, rec, issued, "account id", "transaction");
  }

  /** The transaction filter of ListTransactions, as the query applies it to rows. */
  datatype TransactionFilter = TransactionFilter(
    transactionIds: seq<string>,
    actorIds: seq<string>,
    accountIds: seq<string>,
    transactionType: TransactionType)

  /** The `WHERE` clauses the filter adds; an empty list or the zero type adds none. */
  function TransactionQuery(filter: Option<TransactionFilter>): TransactionRow -> bool {
    (row: TransactionRow) =>
      match filter
      case None => true
      case Some(f) =>
        && (|f.transactionIds| == 0 || Decimal(row.id) in f.transactionIds)
        && (|f.actorIds| == 0 || row.actorId in f.actorIds)
        && (|f.accountIds| == 0 || row.accountId in f.accountIds)
        && (f.transactionType == TransactionTypeUnspecified || row.transactionType == TransactionTypeName(f.transactionType))
  }

  /** Whether a returned message satisfies the filter. */
  predicate TransactionMatches(filter: Option<TransactionFilter>, m: Transaction) {
    match filter
    case None => true
    case Some(f) =>
      && (|f.transactionIds| == 0 || m.transactionId in f.transactionIds)
      && (|f.actorIds| == 0 || m.actorId in f.actorIds)
      && (|f.accountIds| == 0 || m.accountId in f.accountIds)
      && (f.transactionType == TransactionTypeUnspecified || m.transactionType == f.transactionType)
  }

  function ListTransactions(c: Codec, rows: seq<TransactionRow>, req: Option<ListRequest<TransactionFilter>>,
                            isAdmin: bool, findOk: bool): (r: Result<Page<Transaction>, Err>)
    ensures req.None? ==> r == Failure(NilObject("list request"))
    ensures req.Some? && DecodeCursor(c, req.value.pageToken).Failure? ==>
      r == Failure(DecodeCursor(c, req.value.pageToken).error)
    ensures req.Some? && DecodeCursor(c, req.value.pageToken).Success? ==>
      (r.Success? <==> findOk && Fetchable(req.value.pageSize, isAdmin))
    ensures req.Some? && DecodeCursor(c, req.value.pageToken).Success? && !Fetchable(req.value.pageSize, isAdmin) ==>
      r == Failure(CapacityPanic)
    ensures r.Success? ==>
      && req.Some?
      && |r.value.items| <= EffectivePageSize(req.value.pageSize, isAdmin)
      && (forall i :: 0 <= i < |r.value.items| ==> TransactionMatches(req.value.filter, r.value.items[i]))
  {
    List(c, rows, TransactionKey, TransactionQuery, TransactionMessage, req, isAdmin, findOk)
  }
}
