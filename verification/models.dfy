/**
 * The `models` package: the table rows the store keeps and the converters
 * between rows and the API messages.
 *
 * A `*Model` converter turns a message into a row ready for insertion: it
 * copies the business fields, stores enums by their declared name, and leaves
 * the id and the timestamps at their zero value for the store to assign. A
 * `*Proto` converter turns a stored row into a message: the id is rendered in
 * decimal and enums are read back through the name-to-value table. Either
 * converter rejects a nil argument with `NilObject`.
 *
 * Amounts are exact reals; a timestamp is an instant `int` whose textual or
 * Unix-seconds rendering is not modelled, so the message fields that carry a
 * date carry the instant itself.
 */
module Models {
  import opened Common
  import opened Enums

  // ---------------------------------------------------------------------
  // Transactions (models/transaction.go)
  // ---------------------------------------------------------------------

  datatype Transaction = Transaction(
    transactionId: string,
    actorId: string,
    accountId: string,
    description: string,
    transactionType: TransactionType,
    transactionAmount: real,
    transactionTime: int)

  datatype TransactionRow = TransactionRow(
    id: nat,
    actorId: string,
    accountId: string,
    description: string,
    transactionType: string,
    transactionAmount: real,
    createdAt: int)

  function TransactionKey(row: TransactionRow): nat { row.id }

  function TransactionModel(pb: Option<Transaction>): (r: Result<TransactionRow, Err>)
    ensures pb.None? <==> r == Failure(NilObject("transaction"))
    ensures pb.Some? ==>
      && r.Success?
      && r.value.id == 0 && r.value.createdAt == 0
      && r.value.actorId == pb.value.actorId
      && r.value.accountId == pb.value.accountId
      && r.value.description == pb.value.description
      && r.value.transactionType == TransactionTypeName(pb.value.transactionType)
      && r.value.transactionAmount == pb.value.transactionAmount
  {
    match pb
    case None => Failure(NilObject("transaction"))
    case Some(m) =>
      Success(TransactionRow(0, m.actorId, m.accountId, m.description,
                             TransactionTypeName(m.transactionType), m.transactionAmount, 0))
  }

  function TransactionProto(db: Option<TransactionRow>): (r: Result<Transaction, Err>)
    ensures db.None? <==> r == Failure(NilObject("transaction"))
    ensures db.Some? ==>
      && r.Success?
      && r.value.transactionId == Decimal(db.value.id)
      && r.value.actorId == db.value.actorId
      && r.value.accountId == db.value.accountId
      && r.value.description == db.value.description
      && ((exists t :: TransactionTypeName(t) == db.value.transactionType)
            <==> TransactionTypeName(r.value.transactionType) == db.value.transactionType)
      && ((forall t :: TransactionTypeName(t) != db.value.transactionType)
            ==> r.value.transactionType == TransactionTypeUnspecified)
      && r.value.transactionAmount == db.value.transactionAmount
      && r.value.transactionTime == db.value.createdAt
  {
    match db
    case None => Failure(NilObject("transaction"))
    case Some(row) =>
      Success(Transaction(Decimal(row.id), row.actorId, row.accountId, row.description,
                          TransactionTypeValue(row.transactionType), row.transactionAmount, row.createdAt))
  }

  /** The message a stored transaction row always converts to. */
  function TransactionMessage(row: TransactionRow): Transaction {
    TransactionProto(Some(row)).value
  }

  /**
   * A message stored and read back keeps everything but its id and time:
   * the id becomes the store's and the type survives through its name.
   */
  lemma TransactionRoundTrip(pb: Transaction)
    ensures TransactionProto(Some(TransactionModel(Some(pb)).value))
         == Success(pb.(transactionId := Decimal(0), transactionTime := 0))
  {
    TransactionTypeRoundTrip(pb.transactionType);
  }

  /** A row read out and stored again is the same row, once the store re-assigns id and time. */
  lemma TransactionRowRoundTrip(row: TransactionRow)
    requires exists t :: TransactionTypeName(t) == row.transactionType
    ensures TransactionModel(Some(TransactionMessage(row))) == Success(row.(id := 0, createdAt := 0))
  {
  }

  /** The model never reads the message's id. */
  lemma TransactionModelIgnoresId(pb: Transaction, id: string)
    ensures TransactionModel(Some(pb.(transactionId := id))) == TransactionModel(Some(pb))
  {
  }

  // ---------------------------------------------------------------------
  // Chama accounts (models/chama_account.go)
  // ---------------------------------------------------------------------

  datatype ChamaAccount = ChamaAccount(
    accountId: string,
    ownerId: string,
    accountName: string,
    accountType: AccountType,
    withdrawable: bool,
    availableAmount: real,
    totalDepositedAmount: real,
    totalWithdrawnAmount: real,
    lastDepositedAmount: real,
    lastWithdrawnAmount: real,
    active: bool,
    createdDate: int,
    updatedDate: int)

  datatype ChamaAccountRow = ChamaAccountRow(
    id: nat,
    ownerId: string,
    accountName: string,
    accountType: string,
    withdrawable: bool,
    totalDepositedAmount: real,
    availableAmount: real,
    totalWithdrawnAmount: real,
    lastDepositedAmount: real,
    lastWithdrawnAmount: real,
    active: bool,
    updatedAt: int,
    createdAt: int)

  function AccountKey(row: ChamaAccountRow): nat { row.id }

  function ChamaAccountModel(pb: Option<ChamaAccount>): (r: Result<ChamaAccountRow, Err>)
    ensures pb.None? <==> r == Failure(NilObject("chama account"))
    ensures pb.Some? ==>
      && r.Success?
      && r.value.id == 0 && r.value.createdAt == 0 && r.value.updatedAt == 0
      && r.value.accountType == AccountTypeName(pb.value.accountType)
  {
    match pb
    case None => Failure(NilObject("chama account"))
    case Some(m) =>
      Success(ChamaAccountRow(
        0, m.ownerId, m.accountName, AccountTypeName(m.accountType), m.withdrawable,
        m.totalDepositedAmount, m.availableAmount, m.totalWithdrawnAmount,
        m.lastDepositedAmount, m.lastWithdrawnAmount, m.active, 0, 0))
  }

  function ChamaAccountProto(db: Option<ChamaAccountRow>): (r: Result<ChamaAccount, Err>)
    ensures db.None? <==> r == Failure(NilObject("chama account"))
    ensures db.Some? ==>
      && r.Success?
      && r.value.accountId == Decimal(db.value.id)
      && r.value.createdDate == db.value.createdAt
      && r.value.updatedDate == db.value.createdAt
  {
    match db
    case None => Failure(NilObject("chama account"))
    case Some(row) =>
      Success(ChamaAccount(
        Decimal(row.id), row.ownerId, row.accountName, AccountTypeValue(row.accountType),
        row.withdrawable, row.availableAmount, row.totalDepositedAmount, row.totalWithdrawnAmount,
        row.lastDepositedAmount, row.lastWithdrawnAmount, row.active, row.createdAt, row.createdAt))
  }

  function ChamaAccountMessage(row: ChamaAccountRow): ChamaAccount {
    ChamaAccountProto(Some(row)).value
  }

  /**
   * A stored account reads back with the same owner, name, type, flags and
   * amounts; its id becomes the store's and both dates become the creation time.
   */
  lemma ChamaAccountRoundTrip(pb: ChamaAccount)
    ensures ChamaAccountProto(Some(ChamaAccountModel(Some(pb)).value))
         == Success(pb.(accountId := Decimal(0), createdDate := 0, updatedDate := 0))
  {
    AccountTypeRoundTrip(pb.accountType);
  }

  lemma ChamaAccountRowRoundTrip(row: ChamaAccountRow)
    requires exists t :: AccountTypeName(t) == row.accountType
    ensures ChamaAccountModel(Some(ChamaAccountMessage(row)))
         == Success(row.(id := 0, createdAt := 0, updatedAt := 0))
  {
  }

  lemma ChamaAccountModelIgnoresId(pb: ChamaAccount, id: string)
    ensures ChamaAccountModel(Some(pb.(accountId := id))) == ChamaAccountModel(Some(pb))
  {
  }

  // ---------------------------------------------------------------------
  // Loans (models/loan.go)
  // ---------------------------------------------------------------------

  datatype Loan = Loan(
    loanId: string,
    chamaId: string,
    productId: string,
    memberId: string,
    loaneeNames: string,
    loaneePhone: string,
    loaneeEmail: string,
    nationalId: string,
    approved: bool,
    durationDays: int,
    loanAmount: real,
    interestRate: real,
    settledAmount: real,
    penaltyAmount: real,
    status: LoanStatus,
    updatedDate: int,
    borrowedDate: int)

  /** The loan row: note that it has no status column. */
  datatype LoanRow = LoanRow(
    id: nat,
    chamaId: string,
    productId: string,
    memberId: string,
    loaneeNames: string,
    loaneePhone: string,
    nationalId: string,
    loaneeEmail: string,
    approved: bool,
    durationDays: int,
    interestRate: real,
    loanAmount: real,
    settledAmount: real,
    penaltyAmount: real,
    updatedAt: int,
    createdAt: int)

  function LoanKey(row: LoanRow): nat { row.id }

  function LoanModel(pb: Option<Loan>): (r: Result<LoanRow, Err>)
    ensures pb.None? <==> r == Failure(NilObject("loan"))
    ensures pb.Some? ==> r.Success? && r.value.id == 0 && r.value.createdAt == 0 && r.value.updatedAt == 0
  {
    match pb
    case None => Failure(NilObject("loan"))
    case Some(m) =>
      Success(LoanRow(
        0, m.chamaId, m.productId, m.memberId, m.loaneeNames, m.loaneePhone, m.nationalId,
        m.loaneeEmail, m.approved, m.durationDays, m.interestRate, m.loanAmount,
        m.settledAmount, m.penaltyAmount, 0, 0))
  }

  function LoanProto(db: Option<LoanRow>): (r: Result<Loan, Err>)
    ensures db.None? <==> r == Failure(NilObject("loan"))
    ensures db.Some? ==>
      && r.Success?
      && r.value.loanId == Decimal(db.value.id)
      && r.value.status == LoanStatusUnspecified
      && r.value.updatedDate == db.value.updatedAt
      && r.value.borrowedDate == db.value.createdAt
  {
    match db
    case None => Failure(NilObject("loan"))
    case Some(row) =>
      Success(Loan(
        Decimal(row.id), row.chamaId, row.productId, row.memberId, row.loaneeNames,
        row.loaneePhone, row.loaneeEmail, row.nationalId, row.approved, row.durationDays,
        row.loanAmount, row.interestRate, row.settledAmount, row.penaltyAmount,
        LoanStatusUnspecified, row.updatedAt, row.createdAt))
  }

  function LoanMessage(row: LoanRow): Loan {
    LoanProto(Some(row)).value
  }

  /**
   * A stored loan reads back with every business field from ChamaId to
   * PenaltyAmount; its id becomes the store's, and whatever status it was
   * given reads back as the zero status, since no column keeps it.
   */
  lemma LoanRoundTrip(pb: Loan)
    ensures LoanProto(Some(LoanModel(Some(pb)).value))
         == Success(pb.(loanId := Decimal(0), status := LoanStatusUnspecified, updatedDate := 0, borrowedDate := 0))
  {
  }

  lemma LoanRowRoundTrip(row: LoanRow)
    ensures LoanModel(Some(LoanMessage(row))) == Success(row.(id := 0, createdAt := 0, updatedAt := 0))
  {
  }

  /** The model never reads the message's id or status. */
  lemma LoanModelIgnoresIdAndStatus(pb: Loan, id: string, status: LoanStatus)
    ensures LoanModel(Some(pb.(loanId := id, status := status))) == LoanModel(Some(pb))
  {
  }

  // ---------------------------------------------------------------------
  // Loan products (models/loan_plan.go)
  // ---------------------------------------------------------------------

  datatype LoanProduct = LoanProduct(
    productId: string,
    chamaId: string,
    name: string,
    description: string,
    interestRate: real,
    loanDurationDays: int,
    loanMinimumAmount: real,
    loanMaximumAmount: real,
    loanAccountBalance: real,
    loanInterestBalance: real,
    loanSettledBalance: real,
    settledLoans: int,
    activeLoans: int,
    totalLoans: int,
    updatedDate: int,
    createdDate: int)

  datatype LoanProductRow = LoanProductRow(
    id: nat,
    chamaId: string,
    name: string,
    description: string,
    interestRate: real,
    loanDurationDays: int,
    loanMinimumAmount: real,
    loanMaximumAmount: real,
    loanAccountBalance: real,
    loanInterestBalance: real,
    loanSettledBalance: real,
    settledLoans: int,
    activeLoans: int,
    totalLoans: int,
    updatedAt: int,
    createdAt: int)

  function LoanProductKey(row: LoanProductRow): nat { row.id }

  function LoanProductModel(pb: Option<LoanProduct>): (r: Result<LoanProductRow, Err>)
    ensures pb.None? <==> r == Failure(NilObject("loan plan"))
    ensures pb.Some? ==> r.Success? && r.value.id == 0 && r.value.createdAt == 0 && r.value.updatedAt == 0
  {
    match pb
    case None => Failure(NilObject("loan plan"))
    case Some(m) =>
      Success(LoanProductRow(
        0, m.chamaId, m.name, m.description, m.interestRate, m.loanDurationDays,
        m.loanMinimumAmount, m.loanMaximumAmount, m.loanAccountBalance, m.loanInterestBalance,
        m.loanSettledBalance, m.settledLoans, m.activeLoans, m.totalLoans, 0, 0))
  }

  function LoanProductProto(db: Option<LoanProductRow>): (r: Result<LoanProduct, Err>)
    ensures db.None? <==> r == Failure(NilObject("loan plan"))
    ensures db.Some? ==>
      && r.Success?
      && r.value.productId == Decimal(db.value.id)
      && r.value.updatedDate == db.value.updatedAt
      && r.value.createdDate == db.value.createdAt
  {
    match db
    case None => Failure(NilObject("loan plan"))
    case Some(row) =>
      Success(LoanProduct(
        Decimal(row.id), row.chamaId, row.name, row.description, row.interestRate,
        row.loanDurationDays, row.loanMinimumAmount, row.loanMaximumAmount,
        row.loanAccountBalance, row.loanInterestBalance, row.loanSettledBalance,
        row.settledLoans, row.activeLoans, row.totalLoans, row.updatedAt, row.createdAt))
  }

  function LoanProductMessage(row: LoanProductRow): LoanProduct {
    LoanProductProto(Some(row)).value
  }

  /** A stored product reads back with every field from ChamaId to TotalLoans. */
  lemma LoanProductRoundTrip(pb: LoanProduct)
    ensures LoanProductProto(Some(LoanProductModel(Some(pb)).value))
         == Success(pb.(productId := Decimal(0), updatedDate := 0, createdDate := 0))
  {
  }

  lemma LoanProductRowRoundTrip(row: LoanProductRow)
    ensures LoanProductModel(Some(LoanProductMessage(row))) == Success(row.(id := 0, createdAt := 0, updatedAt := 0))
  {
  }

  lemma LoanProductModelIgnoresId(pb: LoanProduct, id: string)
    ensures LoanProductModel(Some(pb.(productId := id))) == LoanProductModel(Some(pb))
  {
  }

  // ---------------------------------------------------------------------
  // Chamas (models/chama.go)
  // ---------------------------------------------------------------------

  datatype Chama = Chama(
    chamaId: string,
    creatorId: string,
    name: string,
    description: string,
    status: string,
    accountBalance: real,
    active: bool,
    updatedDate: int,
    createdDate: int)

  datatype ChamaRow = ChamaRow(
    id: nat,
    creatorId: string,
    name: string,
    description: string,
    status: string,
    accountBalance: real,
    active: bool,
    updatedAt: int,
    createdAt: int)

  function ChamaKey(row: ChamaRow): nat { row.id }

  function ChamaModel(pb: Option<Chama>): (r: Result<ChamaRow, Err>)
    ensures pb.None? <==> r == Failure(NilObject("chama"))
    ensures pb.Some? ==> r.Success? && r.value.id == 0 && r.value.createdAt == 0 && r.value.updatedAt == 0
  {
    match pb
    case None => Failure(NilObject("chama"))
    case Some(m) =>
      Success(ChamaRow(0, m.creatorId, m.name, m.description, m.status, m.accountBalance, m.active, 0, 0))
  }

  function ChamaProto(db: Option<ChamaRow>): (r: Result<Chama, Err>)
    ensures db.None? <==> r == Failure(NilObject("chama"))
    ensures db.Some? ==>
      && r.Success?
      && r.value.chamaId == Decimal(db.value.id)
      && r.value.updatedDate == db.value.updatedAt
      && r.value.createdDate == db.value.createdAt
  {
    match db
    case None => Failure(NilObject("chama"))
    case Some(row) =>
      Success(Chama(Decimal(row.id), row.creatorId, row.name, row.description, row.status,
                    row.accountBalance, row.active, row.updatedAt, row.createdAt))
  }

  function ChamaMessage(row: ChamaRow): Chama {
    ChamaProto(Some(row)).value
  }

  /** A stored chama reads back with the same Name, CreatorId, Description, Status, AccountBalance and Active. */
  lemma ChamaRoundTrip(pb: Chama)
    ensures ChamaProto(Some(ChamaModel(Some(pb)).value))
         == Success(pb.(chamaId := Decimal(0), updatedDate := 0, createdDate := 0))
  {
  }

  lemma ChamaRowRoundTrip(row: ChamaRow)
    ensures ChamaModel(Some(ChamaMessage(row))) == Success(row.(id := 0, createdAt := 0, updatedAt := 0))
  {
  }

  lemma ChamaModelIgnoresId(pb: Chama, id: string)
    ensures ChamaModel(Some(pb.(chamaId := id))) == ChamaModel(Some(pb))
  {
  }
}
