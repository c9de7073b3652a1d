/**
 * The loan product service (internal/loanplan/plan.go): product validation,
 * creation, the Update, Get and Delete guards, deletion, and the listing by
 * chama.
 */
module LoanProducts {
  import opened Common
  import opened Models
  import opened Pager

  /**
   * ValidateLoanProduct, as written: a nil product passes; otherwise chama
   * id, name and a zero interest rate are rejected in that order.
   */
  function ValidateLoanProduct(pb: Option<LoanProduct>): (e: Option<Err>)
    ensures pb.None? ==> e.None?
    ensures pb.Some? ==>
      && (e.None? <==> pb.value.chamaId != "" && pb.value.name != "" && pb.value.interestRate != 0.0)
      && (pb.value.chamaId == "" ==> e == Some(MissingField("chama id")))
      && (pb.value.chamaId != "" && pb.value.name == "" ==> e == Some(MissingField("plan name")))
      && (pb.value.chamaId != "" && pb.value.name != "" && pb.value.interestRate == 0.0 ==>
            e == Some(MissingField("interest rate")))
  {
    match pb
    case None => None
    case Some(m) =>
      if m.chamaId == "" then Some(MissingField("chama id"))
      else if m.name == "" then Some(MissingField("plan name"))
      else if m.interestRate == 0.0 then Some(MissingField("interest rate"))
      else None
  }

  /**
   * CreateLoanProduct. A nil product passes validation and is rejected by
   * the model converter instead.
   */
  function CreateLoanProduct(rows: seq<LoanProductRow>, req: Option<WriteRequest<LoanProduct>>, saveOk: bool, issued: nat, now: int)
    : (s: Stored<LoanProductRow>)
    ensures req.None? ==> s == Stored(rows, Fail(NilObject("request body")))
    ensures req.Some? && req.value.item.None? ==> s == Stored(rows, Fail(NilObject("loan plan")))
    ensures req.Some? && ValidateLoanProduct(req.value.item).Some? ==>
      s == Stored(rows, Fail(ValidateLoanProduct(req.value.item).value))
    ensures s.reply.Pass? <==>
      req.Some? && req.value.item.Some? && ValidateLoanProduct(req.value.item).None? && saveOk
    ensures s.reply.Fail? ==> s.rows == rows
    ensures s.reply.Pass? ==>
      && |s.rows| == |rows| + 1 && s.rows[..|rows|] == rows
      && var row := s.rows[|rows|];
         && row.id == NextId(rows, LoanProductKey, issued)
         && LoanProductMessage(row)
              == req.value.item.value.(productId := Decimal(row.id), updatedDate := now, createdDate := now)
  {
    match req
    case None => Stored(rows, Fail(NilObject("request body")))
    case Some(q) =>
      match ValidateLoanProduct(q.item)
      case Some(e) => Stored(rows, Fail(e))
      case None =>
        match LoanProductModel(q.item)
        case Failure(e) => Stored(rows, Fail(e))
        case Success(row) =>
          if !saveOk then Stored(rows, Fail(FailedToSave("LoanProduct")))
          else
            LoanProductRoundTrip(q.item.value);
            Stored(rows + [row.(id := NextId(rows, LoanProductKey, issued), createdAt := now, updatedAt := now)], Pass)
  }

  /**
   * UpdateLoanProduct's reply: the guards on the request, the product and its
   * id, then the outcome of the write.
   */
  function UpdateLoanProduct(req: Option<WriteRequest<LoanProduct>>, writeOk: bool): (o: Outcome<Err>)
    ensures req.None? ==> o == Fail(MissingField("update request"))
    ensures req.Some? && req.value.item.None? ==> o == Fail(MissingField("loan product"))
    ensures req.Some? && req.value.item.Some? && req.value.item.value.productId == "" ==> o == Fail(MissingField("product id"))
    ensures o.Pass? <==> req.Some? && req.value.item.Some? && req.value.item.value.productId != "" && writeOk
    ensures o.Fail? && req.Some? && req.value.item.Some? && req.value.item.value.productId != "" ==>
      o.error == FailedToUpdate("LoanProduct")
  {
    match req
    case None => Fail(MissingField("update request"))
    case Some(q) =>
      match q.item
      case None => Fail(MissingField("loan product"))
      case Some(m) =>
        if m.productId == "" then Fail(MissingField("product id"))
        else
          match LoanProductModel(q.item)
          case Failure(e) => Fail(e)
          case Success(_) => if writeOk then Pass else Fail(FailedToUpdate("LoanProduct"))
  }

  /**
   * An update sees only the product's id and the write's outcome: products
   * with the same id get the same reply, and one that creation rejects, with
   * no chama, no name and a zero rate, is accepted.
   */
  lemma UpdateLoanProductSkipsValidation(m: LoanProduct, other: LoanProduct, writeOk: bool)
    requires other.productId == m.productId
    ensures UpdateLoanProduct(Some(WriteRequest(Some(m))), writeOk)
         == UpdateLoanProduct(Some(WriteRequest(Some(other))), writeOk)
    ensures m.productId != "" ==>
      var bare := m.(chamaId := "", name := "", interestRate := 0.0);
      && ValidateLoanProduct(Some(bare)) == Some(MissingField("chama id"))
      && UpdateLoanProduct(Some(WriteRequest(Some(bare))), true) == Pass
  {
  }

  function GetLoanProduct(rows: seq<LoanProductRow>, req: Option<ByIdRequest>, findOk: bool)
    : (r: Result<LoanProduct, Err>)
    ensures req.None? ==> r == Failure(MissingField("request body"))
    ensures req.Some? && req.value.id == "" ==> r == Failure(MissingField("plan id"))
    ensures req.Some? && req.value.id != "" && !findOk ==> r == Failure(FailedToFind("LoanProduct"))
    ensures req.Some? && req.value.id != "" && findOk ==>
      ((forall i :: 0 <= i < |rows| ==> Decimal(rows[i].id) != req.value.id)
        <==> r == Failure(DoesNotExist("LoanProduct", req.value.id)))
    ensures r.Success? ==>
      && req.Some? && r.value.productId == req.value.id
      && (exists i :: 0 <= i < |rows| && r.value == LoanProductMessage(rows[i]))
  {
    match GetById(rows, LoanProductKey, req, "plan id", "LoanProduct", findOk)
    case Failure(e) => Failure(e)
    case Success(row) => Success(LoanProductMessage(row))
  }

  /**
   * DeleteLoanProduct: the request and id guards, then a hard delete whose
   * store status maps record-not-found to `DoesNotExist` and any other error
   * to `FailedToFind`.
   */
  function DeleteLoanProduct(rows: seq<LoanProductRow>, req: Option<ByIdRequest>, status: DbStatus)
    : (s: Stored<LoanProductRow>)
    ensures req.None? ==> s == Stored(rows, Fail(MissingField("request body")))
    ensures req.Some? && req.value.id == "" ==> s == Stored(rows, Fail(MissingField("plan id")))
    ensures req.Some? && req.value.id != "" && status == DbRecordNotFound ==>
      s == Stored(rows, Fail(DoesNotExist("LoanProduct", req.value.id)))
    ensures req.Some? && req.value.id != "" && status == DbFailed ==>
      s == Stored(rows, Fail(FailedToFind("LoanProduct")))
    ensures s.reply.Pass? <==> req.Some? && req.value.id != "" && status == DbOk
    ensures s.reply.Pass? ==>
      && (forall i :: 0 <= i < |s.rows| ==> s.rows[i] in rows && Decimal(s.rows[i].id) != req.value.id)
      && (forall i :: 0 <= i < |rows| && Decimal(rows[i].id) != req.value.id ==> rows[i] in s.rows)
  {
    match req
    case None => Stored(rows, Fail(MissingField("request body")))
    case Some(q) =>
      if q.id == "" then Stored(rows, Fail(MissingField("plan id")))
      else
        match status
        case DbOk => Stored(DeleteId(rows, LoanProductKey, q.id), Pass)
        case DbRecordNotFound => Stored(rows, Fail(DoesNotExist("LoanProduct", q.id)))
        case DbFailed => Stored(rows, Fail(FailedToFind("LoanProduct")))
  }

  /** A created product can be read back by its new id, and is gone once deleted. */
  lemma CreatedProductIsReadableUntilDeleted(rows: seq<LoanProductRow>, req: WriteRequest<LoanProduct>, issued: nat, now: int)
    requires WellKeyed(rows, LoanProductKey)
    requires CreateLoanProduct(rows, Some(req), true, issued, now).reply.Pass?
    ensures
      var after := CreateLoanProduct(rows, Some(req), true, issued, now).rows;
      var id := Decimal(NextId(rows, LoanProductKey, issued));
      && GetLoanProduct(after, Some(ByIdRequest(id)), true)
           == Success(req.item.value.(productId := id, updatedDate := now, createdDate := now))
      && GetLoanProduct(DeleteLoanProduct(after, Some(ByIdRequest(id)), DbOk).rows, Some(ByIdRequest(id)), true)
           == Failure(DoesNotExist("LoanProduct", id))
  {
    var after := CreateLoanProduct(rows, Some(req), true, issued, now).rows;
    var id := Decimal(NextId(rows, LoanProductKey, issued));
    assert after == rows + [after[|rows|]];
    AppendedRowIsFound(rows, LoanProductKey, after[|rows|], issued, "plan id", "LoanProduct");
    DeletedRowIsGone(after, LoanProductKey, id, "plan id", "LoanProduct");
  }

  /**
   * Deleting a product and then creating another does not hand the deleted
   * id out again: with the store's counter at or above that id, a lookup of
   * it still finds nothing.
   */
  lemma DeletedProductIdIsNotReissued(rows: seq<LoanProductRow>, k: nat, req: WriteRequest<LoanProduct>,
                                      issued: nat, now: int)
    requires k < |rows| && rows[k].id <= issued
    ensures
      var gone := Decimal(rows[k].id);
      var kept := DeleteLoanProduct(rows, Some(ByIdRequest(gone)), DbOk).rows;
      GetLoanProduct(CreateLoanProduct(kept, Some(req), true, issued, now).rows, Some(ByIdRequest(gone)), true)
        == Failure(DoesNotExist("LoanProduct", gone))
  {
    var gone := Decimal(rows[k].id);
    var kept := DeleteLoanProduct(rows, Some(ByIdRequest(gone)), DbOk).rows;
    assert kept == DeleteId(rows, LoanProductKey, gone);
    var created := CreateLoanProduct(kept, Some(req), true, issued, now);
    if created.reply.Pass? {
      assert created.rows == kept + [created.rows[|kept|]];
      DeletedIdIsNotReissued(rows, LoanProductKey, k, issued, created.rows[|kept|], "plan id", "LoanProduct");
    } else {
      DeletedRowIsGone(rows, LoanProductKey, gone, "plan id", "LoanProduct");
    }
  }

  datatype ProductFilter = ProductFilter(chamaIds: seq<string>)

  function ProductQuery(filter: Option<ProductFilter>): LoanProductRow -> bool {
    (row: LoanProductRow) => filter.None? || |filter.value.chamaIds| == 0 || row.chamaId in filter.value.chamaIds
  }

  function ListLoanProducts(c: Codec, rows: seq<LoanProductRow>, req: Option<ListRequest<ProductFilter>>,
                            isAdmin: bool, findOk: bool): (r: Result<Page<LoanProduct>, Err>)
    ensures req.None? ==> r == Failure(NilObject("list request"))
    ensures req.Some? && DecodeCursor(c, req.value.pageToken).Failure? ==>
      r == Failure(DecodeCursor(c, req.value.pageToken).error)
    ensures req.Some? && DecodeCursor(c, req.value.pageToken).Success? ==>
      (r.Success? <==> findOk && Fetchable(req.value.pageSize, isAdmin))
    ensures req.Some? && DecodeCursor(c, req.value.pageToken).Success? && !Fetchable(req.value.pageSize, isAdmin) ==>
      r == Failure(CapacityPanic)
    ensures r.Success? ==>
      && req.Some?
      && |r.value.items| <= EffectivePageSize(req.value.pageSize, isAdmin)
      && (forall i :: 0 <= i < |r.value.items| ==>
            req.value.filter.None? || |req.value.filter.value.chamaIds| == 0
            || r.value.items[i].chamaId in req.value.filter.value.chamaIds)
  {
    List(c, rows, LoanProductKey, ProductQuery, LoanProductMessage, req, isAdmin, findOk)
  }
}
