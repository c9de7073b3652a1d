/**
 * The chama account service (internal/moneyaccount/account.go): account
 * validation, creation, the two-way lookup GetChamaAccount, and the listing
 * with its filters, including the tri-state withdrawable filter.
 */
module MoneyAccounts {
  import opened Common
  import opened Enums
  import opened Models
  import opened Pager

  /** ValidateChamaAccount: nil, then account name, owner id, and an unset account type. */
  function ValidateChamaAccount(pb: Option<ChamaAccount>): (e: Option<Err>)
    ensures e.None? <==>
      pb.Some? && pb.value.accountName != "" && pb.value.ownerId != "" && pb.value.accountType != AccountTypeUnspecified
    ensures pb.None? ==> e == Some(MissingField("moneyAccount"))
    ensures pb.Some? && pb.value.accountName == "" ==> e == Some(MissingField("account name"))
    ensures pb.Some? && pb.value.accountName != "" && pb.value.ownerId == "" ==> e == Some(MissingField("owner id"))
    ensures pb.Some? && pb.value.accountName != "" && pb.value.ownerId != "" && pb.value.accountType == AccountTypeUnspecified ==>
      e == Some(MissingField("account type"))
  {
    match pb
    case None => Some(MissingField("moneyAccount"))
    case Some(m) =>
      if m.accountName == "" then Some(MissingField("account name"))
      else if m.ownerId == "" then Some(MissingField("owner id"))
      else if m.accountType == AccountTypeUnspecified then Some(MissingField("account type"))
      else None
  }

  function CreateChamaAccount(rows: seq<ChamaAccountRow>, req: Option<WriteRequest<ChamaAccount>>, saveOk: bool, issued: nat, now: int)
    : (s: Stored<ChamaAccountRow>)
    ensures req.None? ==> s == Stored(rows, Fail(NilObject("request body")))
    ensures req.Some? && ValidateChamaAccount(req.value.item).Some? ==>
      s == Stored(rows, Fail(ValidateChamaAccount(req.value.item).value))
    ensures s.reply.Pass? <==> req.Some? && ValidateChamaAccount(req.value.item).None? && saveOk
    ensures s.reply.Fail? ==> s.rows == rows
    ensures s.reply.Pass? ==>
      && |s.rows| == |rows| + 1 && s.rows[..|rows|] == rows
      && var row := s.rows[|rows|];
         && row.id == NextId(rows, AccountKey, issued) && row.createdAt == now && row.updatedAt == now
         && ChamaAccountMessage(row)
              == req.value.item.value.(accountId := Decimal(row.id), createdDate := now, updatedDate := now)
  {
    match req
    case None => Stored(rows, Fail(NilObject("request body")))
    case Some(q) =>
      match ValidateChamaAccount(q.item)
      case Some(e) => Stored(rows, Fail(e))
      case None =>
        if !saveOk then Stored(rows, Fail(FailedToSave("moneyAccount")))
        else
          ChamaAccountRoundTrip(q.item.value);
          var row := ChamaAccountModel(q.item).value.(id := NextId(rows, AccountKey, issued), createdAt := now, updatedAt := now);
          Stored(rows + [row], Pass)
  }

  // ---------------------------------------------------------------------
  // Lookup
  // ---------------------------------------------------------------------

  datatype GetAccountRequest = GetAccountRequest(accountId: string, ownerId: string, accountName: string)

  /** An account id, or else both an owner id and an account name, is required. */
  predicate Addressable(q: GetAccountRequest) {
    q.accountId != "" || (q.ownerId != "" && q.accountName != "")
  }

  /** The lookup condition: the id when one is given, otherwise owner and name. */
  function Lookup(q: GetAccountRequest): ChamaAccountRow -> bool {
    (a: ChamaAccountRow) =>
      if q.accountId != "" then Decimal(a.id) == q.accountId
      else a.ownerId == q.ownerId && a.accountName == q.accountName
  }

  function GetChamaAccount(rows: seq<ChamaAccountRow>, req: Option<GetAccountRequest>, findOk: bool)
    : (r: Result<ChamaAccount, Err>)
    ensures req.None? ==> r == Failure(MissingField("request body"))
    ensures req.Some? ==> (!Addressable(req.value) <==> r == Failure(MissingField("account id")))
    ensures req.Some? && Addressable(req.value) && !findOk ==> r == Failure(FailedToFind("moneyAccount"))
    ensures req.Some? && Addressable(req.value) && findOk ==>
      && (req.value.accountId != "" ==>
            ((forall i :: 0 <= i < |rows| ==> Decimal(rows[i].id) != req.value.accountId) <==> r.Failure?))
      && (req.value.accountId == "" ==>
            ((forall i :: 0 <= i < |rows| ==> rows[i].ownerId != req.value.ownerId || rows[i].accountName != req.value.accountName)
              <==> r.Failure?))
      && (r.Failure? ==> r.error == DoesNotExist("moneyAccount", req.value.accountId))
    ensures r.Success? ==>
      && req.Some? && findOk
      && (req.value.accountId != "" ==> r.value.accountId == req.value.accountId)
      && (req.value.accountId == "" ==> r.value.ownerId == req.value.ownerId && r.value.accountName == req.value.accountName)
      // the oldest account that matches
      && (exists k :: 0 <= k < |rows| && r.value == ChamaAccountMessage(rows[k]) && Lookup(req.value)(rows[k])
                      && forall j :: 0 <= j < k ==> !Lookup(req.value)(rows[j]))
  {
    match req
    case None => Failure(MissingField("request body"))
    case Some(q) =>
      if !Addressable(q) then Failure(MissingField("account id"))
      else if !findOk then Failure(FailedToFind("moneyAccount"))
      else
        var k := FirstIndex(rows, Lookup(q));
        if k == |rows| then Failure(DoesNotExist("moneyAccount", q.accountId))
        else Success(ChamaAccountMessage(rows[k]))
  }

  /** A created account can be read back by the id the store gave it. */
  lemma CreatedAccountIsReadable(rows: seq<ChamaAccountRow>, req: WriteRequest<ChamaAccount>, issued: nat, now: int)
    requires WellKeyed(rows, AccountKey)
    requires CreateChamaAccount(rows, Some(req), true, issued, now).reply.Pass?
    ensures
      var after := CreateChamaAccount(rows, Some(req), true, issued, now).rows;
      var id := Decimal(NextId(rows, AccountKey, issued));
      && WellKeyed(after, AccountKey)
      && GetChamaAccount(after, Some(GetAccountRequest(id, "", "")), true)
           == Success(req.item.value.(accountId := id, createdDate := now, updatedDate := now))
  {
    var after := CreateChamaAccount(rows, Some(req), true, issued, now).rows;
    var id := Decimal(NextId(rows, AccountKey, issued));
    assert after == rows + [after[|rows|]];
    AppendKeepsWellKeyed(rows, AccountKey, after[|rows|], issued);
    var q := GetAccountRequest(id, "", "");
    assert Lookup(q)(after[|rows|]);
    var k := FirstIndex(after, Lookup(q));
    IdNamesOneRow(after, AccountKey, id, k, |rows|);
  }

  // ---------------------------------------------------------------------
  // Listing
  // ---------------------------------------------------------------------

  datatype AccountFilter = AccountFilter(
    accountIds: seq<string>,
    ownerIds: seq<string>,
    accountType: AccountType,
    withdrawable: bool,
    notWithdrawable: bool)

  /**
   * The constraint the two withdrawable flags put on the `withdrawable`
   * column: none when both or neither are set, otherwise the set flag's value.
   */
  function WithdrawableClause(f: AccountFilter): (c: Option<bool>)
    ensures c.None? <==> f.withdrawable == f.notWithdrawable
    ensures c == Some(true) <==> f.withdrawable && !f.notWithdrawable
    ensures c == Some(false) <==> !f.withdrawable && f.notWithdrawable
  {
    if f.notWithdrawable && f.withdrawable then None
    else if !f.notWithdrawable && !f.withdrawable then None
    else if f.withdrawable then Some(true)
    else Some(false)
  }

  function AccountQuery(filter: Option<AccountFilter>): ChamaAccountRow -> bool {
    (a: ChamaAccountRow) =>
      match filter
      case None => true
      case Some(f) =>
        && (|f.accountIds| == 0 || Decimal(a.id) in f.accountIds)
        && (|f.ownerIds| == 0 || a.ownerId in f.ownerIds)
        && (f.accountType == AccountTypeUnspecified || a.accountType == AccountTypeName(f.accountType))
        && (WithdrawableClause(f).None? || a.withdrawable == WithdrawableClause(f).value)
  }

  /** Whether a returned account satisfies the filter, read off the message. */
  predicate AccountMatches(filter: Option<AccountFilter>, m: ChamaAccount) {
    match filter
    case None => true
    case Some(f) =>
      && (|f.accountIds| == 0 || m.accountId in f.accountIds)
      && (|f.ownerIds| == 0 || m.ownerId in f.ownerIds)
      && (f.accountType == AccountTypeUnspecified || m.accountType == f.accountType)
      && (f.withdrawable && !f.notWithdrawable ==> m.withdrawable)
      && (f.notWithdrawable && !f.withdrawable ==> !m.withdrawable)
  }

  function ListChamaAccounts(c: Codec, rows: seq<ChamaAccountRow>, req: Option<ListRequest<AccountFilter>>,
                             isAdmin: bool, findOk: bool): (r: Result<Page<ChamaAccount>, Err>)
    ensures req.None? ==> r == Failure(NilObject("list request"))
    ensures req.Some? && DecodeCursor(c, req.value.pageToken).Failure? ==>
      r == Failure(DecodeCursor(c, req.value.pageToken).error)
    ensures req.Some? && DecodeCursor(c, req.value.pageToken).Success? ==>
      (r.Success? <==> findOk && Fetchable(req.value.pageSize, isAdmin))
    ensures req.Some? && DecodeCursor(c, req.value.pageToken).Success? && !Fetchable(req.value.pageSize, isAdmin) ==>
      r == Failure(CapacityPanic)
    ensures r.Success? ==>
      && req.Some?
      && |r.value.items| <= EffectivePageSize(req.value.pageSize, isAdmin)
      && (forall i :: 0 <= i < |r.value.items| ==> AccountMatches(req.value.filter, r.value.items[i]))
  {
    List(c, rows, AccountKey, AccountQuery, ChamaAccountMessage, req, isAdmin, findOk)
  }

  /**
   * With neither or both withdrawable flags set the listing sees exactly the
   * accounts it sees with the flags cleared.
   */
  lemma WithdrawableFlagsCancel(f: AccountFilter, a: ChamaAccountRow)
    requires f.withdrawable == f.notWithdrawable
    ensures AccountQuery(Some(f))(a) == AccountQuery(Some(f.(withdrawable := false, notWithdrawable := false)))(a)
  {
  }
}
