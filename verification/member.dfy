/**
 * The chama member service (internal/chamamember/member.go): member
 * validation, the Update, Get and Delete argument guards, deletion, and the
 * listing by chama.
 *
 * The member message carries nested maps and lists that the row stores as
 * JSON; that conversion is not part of this model, so the lookups and the
 * listing return the stored rows themselves.
 */
module ChamaMembers {
  import opened Common
  import opened Pager

  /** The member message fields the handlers inspect. */
  datatype ChamaMember = ChamaMember(
    memberId: string,
    chamaId: string,
    firstName: string,
    lastName: string,
    phone: string,
    idNumber: string)

  datatype ChamaMemberRow = ChamaMemberRow(
    id: nat,
    chamaId: string,
    firstName: string,
    lastName: string,
    phone: string,
    idNumber: string,
    email: string,
    residence: string,
    status: string,
    active: bool,
    updatedAt: int,
    createdAt: int)

  function MemberKey(row: ChamaMemberRow): nat { row.id }

  /** ValidateChamaMember: nil, then chama id, first name, last name, phone and id number. */
  function ValidateChamaMember(pb: Option<ChamaMember>): (e: Option<Err>)
    ensures e.None? <==>
      && pb.Some? && pb.value.chamaId != "" && pb.value.firstName != "" && pb.value.lastName != ""
      && pb.value.phone != "" && pb.value.idNumber != ""
    ensures pb.None? ==> e == Some(MissingField("chama member"))
    ensures pb.Some? ==>
      var m := pb.value;
      && (m.chamaId == "" ==> e == Some(MissingField("chama id")))
      && (m.chamaId != "" && m.firstName == "" ==> e == Some(MissingField("first name")))
      && (m.chamaId != "" && m.firstName != "" && m.lastName == "" ==> e == Some(MissingField("last name")))
      && (m.chamaId != "" && m.firstName != "" && m.lastName != "" && m.phone == "" ==>
            e == Some(MissingField("phone")))
      && (m.chamaId != "" && m.firstName != "" && m.lastName != "" && m.phone != "" && m.idNumber == "" ==>
            e == Some(MissingField("id number")))
  {
    match pb
    case None => Some(MissingField("chama member"))
    case Some(m) =>
      if m.chamaId == "" then Some(MissingField("chama id"))
      else if m.firstName == "" then Some(MissingField("first name"))
      else if m.lastName == "" then Some(MissingField("last name"))
      else if m.phone == "" then Some(MissingField("phone"))
      else if m.idNumber == "" then Some(MissingField("id number"))
      else None
  }

  /**
   * UpdateChamaMember's reply: the guards on the request, the member and its
   * id, then the outcome of the write.
   */
  function UpdateChamaMember(req: Option<WriteRequest<ChamaMember>>, writeOk: bool): (o: Outcome<Err>)
    ensures req.None? ==> o == Fail(MissingField("update request"))
    ensures req.Some? && req.value.item.None? ==> o == Fail(MissingField("chamaMember"))
    ensures req.Some? && req.value.item.Some? && req.value.item.value.memberId == "" ==> o == Fail(MissingField("member id"))
    ensures o.Pass? <==> req.Some? && req.value.item.Some? && req.value.item.value.memberId != "" && writeOk
    ensures o.Fail? && req.Some? && req.value.item.Some? && req.value.item.value.memberId != "" ==>
      o.error == FailedToUpdate("chamaMember")
  {
    match req
    case None => Fail(MissingField("update request"))
    case Some(q) =>
      match q.item
      case None => Fail(MissingField("chamaMember"))
      case Some(m) =>
        if m.memberId == "" then Fail(MissingField("member id"))
        else if writeOk then Pass
        else Fail(FailedToUpdate("chamaMember"))
  }

  /** Validation never looks at the member id. */
  lemma MemberIdIsNotValidated(pb: ChamaMember, id: string)
    ensures ValidateChamaMember(Some(pb.(memberId := id))) == ValidateChamaMember(Some(pb))
  {
  }

  /**
   * An update sees only the member's id and the write's outcome: members
   * with the same id get the same reply, and one that validation rejects,
   * with no chama and no names, is accepted.
   */
  lemma UpdateChamaMemberSkipsValidation(m: ChamaMember, other: ChamaMember, writeOk: bool)
    requires other.memberId == m.memberId
    ensures UpdateChamaMember(Some(WriteRequest(Some(m))), writeOk)
         == UpdateChamaMember(Some(WriteRequest(Some(other))), writeOk)
    ensures m.memberId != "" ==>
      var bare := m.(chamaId := "", firstName := "", lastName := "");
      && ValidateChamaMember(Some(bare)) == Some(MissingField("chama id"))
      && UpdateChamaMember(Some(WriteRequest(Some(bare))), true) == Pass
  {
  }

  function GetChamaMember(rows: seq<ChamaMemberRow>, req: Option<ByIdRequest>, findOk: bool)
    : (r: Result<ChamaMemberRow, Err>)
    ensures req.None? ==> r == Failure(MissingField("request body"))
    ensures req.Some? && req.value.id == "" ==> r == Failure(MissingField("member id"))
    ensures req.Some? && req.value.id != "" && !findOk ==> r == Failure(FailedToFind("chamaMember"))
    ensures req.Some? && req.value.id != "" && findOk ==>
      ((forall i :: 0 <= i < |rows| ==> Decimal(rows[i].id) != req.value.id)
        <==> r == Failure(DoesNotExist("chamaMember", req.value.id)))
    ensures r.Success? ==> req.Some? && r.value in rows && Decimal(r.value.id) == req.value.id
  {
    GetById(rows, MemberKey, req, "member id", "chamaMember", findOk)
  }

  /**
   * DeleteChamaMember: the request and id guards, then a hard delete; any
   * store error is `FailedToDelete`, with no not-found case.
   */
  function DeleteChamaMember(rows: seq<ChamaMemberRow>, req: Option<ByIdRequest>, deleteOk: bool)
    : (s: Stored<ChamaMemberRow>)
    ensures req.None? ==> s == Stored(rows, Fail(MissingField("request body")))
    ensures req.Some? && req.value.id == "" ==> s == Stored(rows, Fail(MissingField("member id")))
    ensures req.Some? && req.value.id != "" && !deleteOk ==> s == Stored(rows, Fail(FailedToDelete("chama member")))
    ensures s.reply.Pass? <==> req.Some? && req.value.id != "" && deleteOk
    ensures s.reply.Pass? ==>
      && (forall i :: 0 <= i < |s.rows| ==> s.rows[i] in rows && Decimal(s.rows[i].id) != req.value.id)
      && (forall i :: 0 <= i < |rows| && Decimal(rows[i].id) != req.value.id ==> rows[i] in s.rows)
  {
    match req
    case None => Stored(rows, Fail(MissingField("request body")))
    case Some(q) =>
      if q.id == "" then Stored(rows, Fail(MissingField("member id")))
      else if !deleteOk then Stored(rows, Fail(FailedToDelete("chama member")))
      else Stored(DeleteId(rows, MemberKey, q.id), Pass)
  }

  /** After a successful delete, getting the same id reports that it does not exist. */
  lemma GetAfterDeleteFails(rows: seq<ChamaMemberRow>, id: string)
    requires DeleteChamaMember(rows, Some(ByIdRequest(id)), true).reply.Pass?
    ensures GetChamaMember(DeleteChamaMember(rows, Some(ByIdRequest(id)), true).rows, Some(ByIdRequest(id)), true)
         == Failure(DoesNotExist("chamaMember", id))
  {
    DeletedRowIsGone(rows, MemberKey, id, "member id", "chamaMember");
  }

  datatype MemberFilter = MemberFilter(chamaIds: seq<string>)

  function MemberQuery(filter: Option<MemberFilter>): ChamaMemberRow -> bool {
    (row: ChamaMemberRow) => filter.None? || |filter.value.chamaIds| == 0 || row.chamaId in filter.value.chamaIds
  }

  function ListChamaMembers(c: Codec, rows: seq<ChamaMemberRow>, req: Option<ListRequest<MemberFilter>>,
                            isAdmin: bool, findOk: bool): (r: Result<Page<ChamaMemberRow>, Err>)
    ensures req.None? ==> r == Failure(NilObject("list request"))
    ensures req.Some? && DecodeCursor(c, req.value.pageToken).Failure? ==>
      r == Failure(DecodeCursor(c, req.value.pageToken).error)
    ensures req.Some? && DecodeCursor(c, req.value.pageToken).Success? ==>
      (r.Success? <==> findOk && Fetchable(req.value.pageSize, isAdmin))
    ensures req.Some? && DecodeCursor(c, req.value.pageToken).Success? && !Fetchable(req.value.pageSize, isAdmin) ==>
      r == Failure(CapacityPanic)
    ensures r.Success? ==>
      && req.Some?
      && |r.value.items| <= EffectivePageSize(req.value.pageSize, isAdmin)
      && (forall i :: 0 <= i < |r.value.items| ==>
            && r.value.items[i] in rows
            && (req.value.filter.None? || |req.value.filter.value.chamaIds| == 0
                || r.value.items[i].chamaId in req.value.filter.value.chamaIds))
  {
    var r := List(c, rows, MemberKey, MemberQuery, (row: ChamaMemberRow) => row, req, isAdmin, findOk);
    if r.Success? then
      WindowMembers(rows, MemberKey, MemberQuery(req.value.filter), DecodeCursor(c, req.value.pageToken).value);
      r
    else r
  }
}
