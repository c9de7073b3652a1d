/**
 * The protobuf enums the handlers store or compare. A row stores an enum as
 * its declared name (`.String()`); reading it back goes through the
 * generated name-to-value table, where an unknown name yields the zero value.
 * Only the values the handlers name are modelled.
 */
module Enums {

  datatype TransactionType = TransactionTypeUnspecified | Deposit | Withdrawal

  function TransactionTypeName(t: TransactionType): string {
    match t
    case TransactionTypeUnspecified => "TRANSACTION_TYPE_UNSPECIFIED"
    case Deposit => "DEPOSIT"
    case Withdrawal => "WITHDRAWAL"
  }

  /** `TransactionType_value[name]`: the value declared under `name`, else zero. */
  function TransactionTypeValue(name: string): (t: TransactionType)
    ensures forall u :: TransactionTypeName(u) == name ==> t == u
    ensures (forall u :: TransactionTypeName(u) != name) ==> t == TransactionTypeUnspecified
  {
    if name == "DEPOSIT" then assert TransactionTypeName(Deposit) == name; Deposit
    else if name == "WITHDRAWAL" then assert TransactionTypeName(Withdrawal) == name; Withdrawal
    else TransactionTypeUnspecified
  }

  /** Storing a type by its name and reading the name back yields the same type. */
  lemma TransactionTypeRoundTrip(t: TransactionType)
    ensures TransactionTypeValue(TransactionTypeName(t)) == t
  {
  }

  datatype AccountType = AccountTypeUnspecified | SavingsAccount

  function AccountTypeName(t: AccountType): string {
    match t
    case AccountTypeUnspecified => "ACCOUNT_TYPE_UNSPECIFIED"
    case SavingsAccount => "SAVINGS_ACCOUNT"
  }

  /** `AccountType_value[name]`: the value declared under `name`, else zero. */
  function AccountTypeValue(name: string): (t: AccountType)
    ensures forall u :: AccountTypeName(u) == name ==> t == u
    ensures (forall u :: AccountTypeName(u) != name) ==> t == AccountTypeUnspecified
  {
    if name == "SAVINGS_ACCOUNT" then assert AccountTypeName(SavingsAccount) == name; SavingsAccount
    else AccountTypeUnspecified
  }

  lemma AccountTypeRoundTrip(t: AccountType)
    ensures AccountTypeValue(AccountTypeName(t)) == t
  {
  }

  /**
   * Loan statuses. `LoanStatusUnspecified` is the enum's zero value (its
   * declared name is not visible); the others are the values the approval
   * workflow names.
   */
  datatype LoanStatus =
    | LoanStatusUnspecified
    | Approved
    | WaitingFundsTransfer
    | FundsWithdrawnAccount
    | FundsTransfered
}
