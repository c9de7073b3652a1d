/**
 * The chama service (internal/chama/chama.go): validation, creation, the
 * Update and Get argument guards, and the listing by creator.
 * CreateChama is reserved to administrators; authorization is taken to
 * succeed.
 */
module Chamas {
  import opened Common
  import opened Models
  import opened Pager

  /** ValidateChama: nil, then creator id, then name. */
  function ValidateChama(pb: Option<Chama>): (e: Option<Err>)
    ensures e.None? <==> pb.Some? && pb.value.creatorId != "" && pb.value.name != ""
    ensures pb.None? ==> e == Some(MissingField("chama"))
    ensures pb.Some? && pb.value.creatorId == "" ==> e == Some(MissingField("creator id"))
    ensures pb.Some? && pb.value.creatorId != "" && pb.value.name == "" ==> e == Some(MissingField("chama name"))
  {
    match pb
    case None => Some(MissingField("chama"))
    case Some(m) =>
      if m.creatorId == "" then Some(MissingField("creator id"))
      else if m.name == "" then Some(MissingField("chama name"))
      else None
  }

  function CreateChama(rows: seq<ChamaRow>, req: Option<WriteRequest<Chama>>, saveOk: bool, issued: nat, now: int)
    : (s: Stored<ChamaRow>)
    ensures req.None? ==> s == Stored(rows, Fail(MissingField("create request")))
    ensures req.Some? && ValidateChama(req.value.item).Some? ==>
      s == Stored(rows, Fail(ValidateChama(req.value.item).value))
    ensures s.reply.Pass? <==> req.Some? && ValidateChama(req.value.item).None? && saveOk
    ensures s.reply.Fail? ==> s.rows == rows
    ensures s.reply.Pass? ==>
      && |s.rows| == |rows| + 1 && s.rows[..|rows|] == rows
      && var row := s.rows[|rows|];
         && row.id == NextId(rows, ChamaKey, issued)
         && ChamaMessage(row) == req.value.item.value.(chamaId := Decimal(row.id), updatedDate := now, createdDate := now)
  {
    match req
    case None => Stored(rows, Fail(MissingField("create request")))
    case Some(q) =>
      match ValidateChama(q.item)
      case Some(e) => Stored(rows, Fail(e))
      case None =>
        if !saveOk then Stored(rows, Fail(FailedToSave("chama")))
        else
          ChamaRoundTrip(q.item.value);
          Stored(rows + [ChamaModel(q.item).value.(id := NextId(rows, ChamaKey, issued), createdAt := now, updatedAt := now)], Pass)
  }

  /**
   * UpdateChama's reply: the guards on the request, the chama and its id,
   * then the outcome of the write. It does not run ValidateChama.
   */
  function UpdateChama(req: Option<WriteRequest<Chama>>, writeOk: bool): (o: Outcome<Err>)
    ensures req.None? ==> o == Fail(MissingField("update request"))
    ensures req.Some? && req.value.item.None? ==> o == Fail(MissingField("chama"))
    ensures req.Some? && req.value.item.Some? && req.value.item.value.chamaId == "" ==> o == Fail(MissingField("chama id"))
    ensures o.Pass? <==> req.Some? && req.value.item.Some? && req.value.item.value.chamaId != "" && writeOk
    ensures o.Fail? && req.Some? && req.value.item.Some? && req.value.item.value.chamaId != "" ==>
      o.error == FailedToUpdate("chama")
  {
    match req
    case None => Fail(MissingField("update request"))
    case Some(q) =>
      match q.item
      case None => Fail(MissingField("chama"))
      case Some(m) =>
        if m.chamaId == "" then Fail(MissingField("chama id"))
        else
          match ChamaModel(q.item)
          case Failure(e) => Fail(e)
          case Success(_) => if writeOk then Pass else Fail(FailedToUpdate("chama"))
  }

  /**
   * An update sees only the chama's id and the write's outcome: chamas with
   * the same id get the same reply, and one that creation rejects, with no
   * creator and no name, is accepted.
   */
  lemma UpdateChamaSkipsValidation(m: Chama, other: Chama, writeOk: bool)
    requires other.chamaId == m.chamaId
    ensures UpdateChama(Some(WriteRequest(Some(m))), writeOk) == UpdateChama(Some(WriteRequest(Some(other))), writeOk)
    ensures m.chamaId != "" ==>
      var bare := m.(creatorId := "", name := "");
      && ValidateChama(Some(bare)) == Some(MissingField("creator id"))
      && UpdateChama(Some(WriteRequest(Some(bare))), true) == Pass
  {
  }

  function GetChama(rows: seq<ChamaRow>, req: Option<ByIdRequest>, findOk: bool): (r: Result<Chama, Err>)
    ensures req.None? ==> r == Failure(MissingField("request body"))
    ensures req.Some? && req.value.id == "" ==> r == Failure(MissingField("chama id"))
    ensures req.Some? && req.value.id != "" && !findOk ==> r == Failure(FailedToFind("chama"))
    ensures req.Some? && req.value.id != "" && findOk ==>
      ((forall i :: 0 <= i < |rows| ==> Decimal(rows[i].id) != req.value.id)
        <==> r == Failure(DoesNotExist("chama", req.value.id)))
    ensures r.Success? ==>
      && req.Some? && r.value.chamaId == req.value.id
      && (exists i :: 0 <= i < |rows| && r.value == ChamaMessage(rows[i]))
  {
    match GetById(rows, ChamaKey, req, "chama id", "chama", findOk)
    case Failure(e) => Failure(e)
    case Success(row) => Success(ChamaMessage(row))
  }

  /** A created chama can be read back by the id the store gave it. */
  lemma CreatedChamaIsReadable(rows: seq<ChamaRow>, req: WriteRequest<Chama>, issued: nat, now: int)
    requires WellKeyed(rows, ChamaKey)
    requires CreateChama(rows, Some(req), true, issued, now).reply.Pass?
    ensures
      var after := CreateChama(rows, Some(req), true, issued, now).rows;
      var id := Decimal(NextId(rows, ChamaKey, issued));
      GetChama(after, Some(ByIdRequest(id)), true)
        == Success(req.item.value.(chamaId := id, updatedDate := now, createdDate := now))
  {
    var after := CreateChama(rows, Some(req), true, issued, now).rows;
    assert after == rows + [after[|rows|]];
    AppendedRowIsFound(rows, ChamaKey, after[|rows|], issued, "chama id", "chama");
  }

  datatype ChamaFilter = ChamaFilter(creatorIds: seq<string>)

  function ChamaQuery(filter: Option<ChamaFilter>): ChamaRow -> bool {
    (row: ChamaRow) => filter.None? || |filter.value.creatorIds| == 0 || row.creatorId in filter.value.creatorIds
  }

  function ListChamas(c: Codec, rows: seq<ChamaRow>, req: Option<ListRequest<ChamaFilter>>,
                      isAdmin: bool, findOk: bool): (r: Result<Page<Chama>, Err>)
    ensures req.None? ==> r == Failure(NilObject("list request"))
    ensures req.Some? && DecodeCursor(c, req.value.pageToken).Failure? ==>
      r == Failure(DecodeCursor(c, req.value.pageToken).error)
    ensures req.Some? && DecodeCursor(c, req.value.pageToken).Success? ==>
      (r.Success? <==> findOk && Fetchable(req.value.pageSize, isAdmin))
    ensures req.Some? && DecodeCursor(c, req.value.pageToken).Success? && !Fetchable(req.value.pageSize, isAdmin) ==>
      r == Failure(CapacityPanic)
    ensures r.Success? ==>
      && req.Some?
      && |r.value.items| <= EffectivePageSize(req.value.pageSize, isAdmin)
      && (forall i :: 0 <= i < |r.value.items| ==>
            req.value.filter.None? || |req.value.filter.value.creatorIds| == 0
            || r.value.items[i].creatorId in req.value.filter.value.creatorIds)
  {
    List(c, rows, ChamaKey, ChamaQuery, ChamaMessage, req, isAdmin, findOk)
  }
}
