/**
 * Shared vocabulary of the chama backend model: optional values and results,
 * the error constructors the handlers call, the decimal rendering of row ids,
 * and the two store primitives every handler uses — GORM's `First` (the
 * lowest-id row meeting a condition) and lookup by a string id.
 *
 * A table is a sequence of rows in insertion order. Ids come from an
 * auto-increment column, so they start at 1 and strictly increase along the
 * sequence (`WellKeyed`).
 */
module Common {

  datatype Option<+T> = None | Some(value: T)

  datatype Result<+T, +E> = Success(value: T) | Failure(error: E)

  /** The reply of a handler that returns `emptypb.Empty` on success. */
  datatype Outcome<+E> = Pass | Fail(error: E)

  /** The gRPC codes the handlers name explicitly (through `WrapMessage` and friends). */
  datatype Code = InvalidArgument | FailedPrecondition | AlreadyExists

  /**
   * The constructors of the shared `errs` package the handlers call, kept as
   * distinct tags with the field or entity name each call passes.
   */
  datatype Err =
    | MissingField(field: string)
    | IncorrectVal(field: string)
    | NilObject(name: string)
    | DoesExist(entity: string, id: string)
    | DoesNotExist(entity: string, id: string)
    | FailedToFind(entity: string)
    | FailedToSave(entity: string)
    | FailedToUpdate(entity: string)
    | FailedToDelete(entity: string)
    | FailedToBeginTx
    | FailedToCommitTx
    | SQLQueryFailed(operation: string)
    | Status(code: Code, message: string)
    // Go runtime panics: indexing the empty slice a token decodes to, and
    // `make` with a negative capacity.
    | IndexPanic
    | CapacityPanic

  /** How a store call that can report "record not found" ended. */
  datatype DbStatus = DbOk | DbRecordNotFound | DbFailed

  /** A table after a write, with the handler's reply. */
  datatype Stored<T> = Stored(rows: seq<T>, reply: Outcome<Err>)

  /** Requests whose only field is the id of the row they address. */
  datatype ByIdRequest = ByIdRequest(id: string)

  /** Create and Update requests: a wrapper around the (possibly nil) message. */
  datatype WriteRequest<M> = WriteRequest(item: Option<M>)

  // ---------------------------------------------------------------------
  // Decimal rendering of row ids (`fmt.Sprint` of an unsigned integer)
  // ---------------------------------------------------------------------

  predicate IsDigit(c: char) {
    '0' <= c <= '9'
  }

  function DigitChar(d: nat): (c: char)
    requires d < 10
    ensures IsDigit(c)
  {
    ('0' as int + d) as char
  }

  function DigitValue(c: char): (r: Option<nat>)
    ensures r.Some? <==> IsDigit(c)
    ensures r.Some? ==> r.value < 10 && DigitChar(r.value) == c
  {
    if IsDigit(c) then Some(c as int - '0' as int) else None
  }

  /** The decimal text of `n`: digits only, no leading zero. */
  function Decimal(n: nat): (s: string)
    ensures |s| >= 1
    ensures forall i :: 0 <= i < |s| ==> IsDigit(s[i])
    ensures s[0] == '0' ==> n == 0
  {
    if n < 10 then [DigitChar(n)] else Decimal(n / 10) + [DigitChar(n % 10)]
  }

  /** Reads a non-empty string of decimal digits back as a number. */
  function ParseDecimal(s: string): (r: Option<nat>)
    ensures r.Some? ==> |s| >= 1
  {
    if |s| == 0 then None
    else
      match DigitValue(s[|s| - 1])
      case None => None
      case Some(d) =>
        if |s| == 1 then Some(d)
        else
          match ParseDecimal(s[..|s| - 1])
          case None => None
          case Some(p) => Some(10 * p + d)
  }

  /** Parsing inverts rendering, so a rendered id names exactly one number. */
  lemma {:induction false} ParseDecimalInvertsDecimal(n: nat)
    ensures ParseDecimal(Decimal(n)) == Some(n)
  {
    if n >= 10 {
      var s := Decimal(n);
      assert s[..|s| - 1] == Decimal(n / 10);
      ParseDecimalInvertsDecimal(n / 10);
      assert DigitValue(s[|s| - 1]) == Some(n % 10);
    } else {
      assert DigitValue(DigitChar(n)) == Some(n);
    }
  }

  lemma DecimalInjective(a: nat, b: nat)
    ensures Decimal(a) == Decimal(b) <==> a == b
  {
    ParseDecimalInvertsDecimal(a);
    ParseDecimalInvertsDecimal(b);
  }

  // ---------------------------------------------------------------------
  // Tables
  // ---------------------------------------------------------------------

  /**
   * Auto-increment ids: every id is positive and above the ids of all rows
   * inserted before it. Stated row by row from the newest, the way the
   * listing query walks the table.
   */
  ghost predicate WellKeyed<T>(rows: seq<T>, key: T -> nat)
    decreases |rows|
  {
    |rows| == 0 ||
      var pre := rows[..|rows| - 1];
      && WellKeyed(pre, key)
      && key(rows[|rows| - 1]) >= 1
      && (forall i :: 0 <= i < |pre| ==> key(pre[i]) < key(rows[|rows| - 1]))
  }

  /** Ids positive and strictly increasing along the whole sequence. */
  ghost predicate IdsAscending<T>(rows: seq<T>, key: T -> nat) {
    && (forall i :: 0 <= i < |rows| ==> key(rows[i]) >= 1)
    && (forall i, j :: 0 <= i < j < |rows| ==> key(rows[i]) < key(rows[j]))
  }

  lemma {:induction false} WellKeyedAscending<T>(rows: seq<T>, key: T -> nat)
    requires WellKeyed(rows, key)
    ensures IdsAscending(rows, key)
  {
    if |rows| > 0 {
      var pre := rows[..|rows| - 1];
      WellKeyedAscending(pre, key);
      assert forall i :: 0 <= i < |pre| ==> pre[i] == rows[i];
    }
  }

  lemma {:induction false} WellKeyedPositive<T>(rows: seq<T>, key: T -> nat)
    requires WellKeyed(rows, key)
    ensures forall i :: 0 <= i < |rows| ==> key(rows[i]) >= 1
  {
    if |rows| > 0 {
      var pre := rows[..|rows| - 1];
      WellKeyedPositive(pre, key);
      assert forall i :: 0 <= i < |pre| ==> pre[i] == rows[i];
    }
  }

  /**
   * The id the store gives the next inserted row. The auto-increment counter
   * never moves back: `issued` is the highest id it has handed out so far,
   * counting rows deleted since and inserts rolled back since, and none of
   * those ids is handed out again.
   */
  function NextId<T>(rows: seq<T>, key: T -> nat, issued: nat): (id: nat)
    ensures id >= 1 && issued < id
    ensures WellKeyed(rows, key) ==> forall i :: 0 <= i < |rows| ==> key(rows[i]) < id
  {
    if |rows| == 0 then issued + 1
    else
      var pre := rows[..|rows| - 1];
      assert forall i :: 0 <= i < |pre| ==> pre[i] == rows[i];
      var last := key(rows[|rows| - 1]);
      (if last < issued then issued else last) + 1
  }

  lemma AppendKeepsWellKeyed<T>(rows: seq<T>, key: T -> nat, row: T, issued: nat)
    requires WellKeyed(rows, key)
    requires key(row) == NextId(rows, key, issued)
    ensures WellKeyed(rows + [row], key)
  {
    assert (rows + [row])[..|rows|] == rows;
  }

  /** The position of the first row meeting `cond`, or `|rows|` when none does. */
  function FirstIndex<T>(rows: seq<T>, cond: T -> bool): (k: nat)
    ensures k <= |rows|
    ensures k < |rows| ==> cond(rows[k])
    ensures forall j :: 0 <= j < k ==> !cond(rows[j])
  {
    if |rows| == 0 then 0
    else if cond(rows[0]) then 0
    else 1 + FirstIndex(rows[1..], cond)
  }

  /** GORM's `First`: the lowest-id row meeting `cond`. */
  function First<T>(rows: seq<T>, cond: T -> bool): (r: Option<T>)
    ensures r.None? <==> forall i :: 0 <= i < |rows| ==> !cond(rows[i])
    ensures r.Some? ==> r.value in rows && cond(r.value)
  {
    var k := FirstIndex(rows, cond);
    if k < |rows| then Some(rows[k]) else None
  }

  /** The condition `id = ?` for a string id. */
  function HasId<T>(key: T -> nat, id: string): T -> bool {
    row => Decimal(key(row)) == id
  }

  /** In a well-keyed table a string id names at most one row. */
  lemma IdNamesOneRow<T>(rows: seq<T>, key: T -> nat, id: string, i: nat, j: nat)
    requires WellKeyed(rows, key)
    requires i < |rows| && j < |rows|
    requires Decimal(key(rows[i])) == id && Decimal(key(rows[j])) == id
    ensures i == j
  {
    WellKeyedAscending(rows, key);
    DecimalInjective(key(rows[i]), key(rows[j]));
  }

  /**
   * The shape every Get handler shares: a nil request or an empty id is a
   * missing field, a store error is `FailedToFind`, no row is `DoesNotExist`.
   */
  function GetById<T>(rows: seq<T>, key: T -> nat, req: Option<ByIdRequest>,
                      idField: string, entity: string, findOk: bool): (r: Result<T, Err>)
    ensures req.None? ==> r == Failure(MissingField("request body"))
    ensures req.Some? && req.value.id == "" ==> r == Failure(MissingField(idField))
    ensures req.Some? && req.value.id != "" && !findOk ==> r == Failure(FailedToFind(entity))
    ensures req.Some? && req.value.id != "" && findOk ==>
      (r.Failure? <==> forall i :: 0 <= i < |rows| ==> Decimal(key(rows[i])) != req.value.id)
    ensures r.Failure? && req.Some? && req.value.id != "" && findOk ==>
      r.error == DoesNotExist(entity, req.value.id)
    ensures r.Success? ==> req.Some? && r.value in rows && Decimal(key(r.value)) == req.value.id
  {
    if req.None? then Failure(MissingField("request body"))
    else if req.value.id == "" then Failure(MissingField(idField))
    else if !findOk then Failure(FailedToFind(entity))
    else
      match First(rows, HasId(key, req.value.id))
      case None => Failure(DoesNotExist(entity, req.value.id))
      case Some(row) => Success(row)
  }

  /** A row appended with the next id is what a lookup by that id finds. */
  lemma AppendedRowIsFound<T>(rows: seq<T>, key: T -> nat, row: T, issued: nat, idField: string, entity: string)
    requires WellKeyed(rows, key) && key(row) == NextId(rows, key, issued)
    ensures WellKeyed(rows + [row], key)
    ensures GetById(rows + [row], key, Some(ByIdRequest(Decimal(key(row)))), idField, entity, true) == Success(row)
  {
    var after := rows + [row];
    AppendKeepsWellKeyed(rows, key, row, issued);
    var cond := HasId(key, Decimal(key(row)));
    assert cond(after[|rows|]);
    var k := FirstIndex(after, cond);
    IdNamesOneRow(after, key, Decimal(key(row)), k, |rows|);
  }

  /** After a delete of an id, a lookup of that id finds nothing. */
  lemma DeletedRowIsGone<T>(rows: seq<T>, key: T -> nat, id: string, idField: string, entity: string)
    requires id != ""
    ensures GetById(DeleteId(rows, key, id), key, Some(ByIdRequest(id)), idField, entity, true)
         == Failure(DoesNotExist(entity, id))
  {
  }

  /**
   * The id of a deleted row is not handed out again: with the counter at or
   * above it, a row inserted after the delete gets another id, and a lookup
   * of the deleted id still finds nothing.
   */
  lemma DeletedIdIsNotReissued<T>(rows: seq<T>, key: T -> nat, k: nat, issued: nat, row: T,
                                  idField: string, entity: string)
    requires k < |rows| && key(rows[k]) <= issued
    requires key(row) == NextId(DeleteId(rows, key, Decimal(key(rows[k]))), key, issued)
    ensures Decimal(key(row)) != Decimal(key(rows[k]))
    ensures
      var gone := Decimal(key(rows[k]));
      GetById(DeleteId(rows, key, gone) + [row], key, Some(ByIdRequest(gone)), idField, entity, true)
        == Failure(DoesNotExist(entity, gone))
  {
    var gone := Decimal(key(rows[k]));
    var kept := DeleteId(rows, key, gone);
    var after := kept + [row];
    DecimalInjective(key(row), key(rows[k]));
    forall i | 0 <= i < |after|
      ensures Decimal(key(after[i])) != gone
    {
      if i < |kept| {
        assert after[i] == kept[i];
      }
    }
  }

  /**
   * A store `UPDATE ... WHERE cond`: every row meeting `cond` is rewritten by
   * `f`, every other row is kept, and the order is unchanged.
   */
  function UpdateWhere<T>(rows: seq<T>, cond: T -> bool, f: T -> T): (rows': seq<T>)
    ensures |rows'| == |rows|
    ensures forall i :: 0 <= i < |rows| && !cond(rows[i]) ==> rows'[i] == rows[i]
    ensures forall i :: 0 <= i < |rows| && cond(rows[i]) ==> rows'[i] == f(rows[i])
  {
    seq(|rows|, i requires 0 <= i < |rows| => if cond(rows[i]) then f(rows[i]) else rows[i])
  }

  /** A hard delete of every row with the given id. */
  function DeleteId<T>(rows: seq<T>, key: T -> nat, id: string): (rows': seq<T>)
    ensures forall i :: 0 <= i < |rows'| ==> rows'[i] in rows && Decimal(key(rows'[i])) != id
    ensures forall i :: 0 <= i < |rows| && Decimal(key(rows[i])) != id ==> rows[i] in rows'
    ensures |rows'| <= |rows|
  {
    if |rows| == 0 then []
    else (if Decimal(key(rows[0])) == id then [] else [rows[0]]) + DeleteId(rows[1..], key, id)
  }
}
