/**
 * The keyset pager every `List*` handler repeats: clamp the page size, decode
 * the optional page token to the last-seen id, fetch at most `pageSize + 1`
 * rows below that id newest first, return the first `pageSize` of them, and
 * hand out a token for the last returned row only when the fetch overflowed.
 *
 * The page-token codec (a hashids instance) is a parameter. The page size is
 * a Go `int32`, and so is the `pageSize + 1` the handlers allocate for.
 */
module Pager {
  import opened Common

  const DefaultPageSize: int := 50

  const MinInt32: int := -0x8000_0000
  const MaxInt32: int := 0x7fff_ffff

  /** A Go `int32`, the type of every request's page size. */
  type Int32 = x: int | MinInt32 <= x <= MaxInt32

  /** Go's `int32` addition: the sum wraps around modulo 2^32. */
  function AddInt32(x: Int32, y: Int32): (r: Int32)
    ensures MinInt32 <= x + y <= MaxInt32 ==> r == x + y
    ensures x + y > MaxInt32 ==> r == x + y - 0x1_0000_0000
    ensures x + y < MinInt32 ==> r == x + y + 0x1_0000_0000
  {
    var s := x + y;
    if s > MaxInt32 then s - 0x1_0000_0000
    else if s < MinInt32 then s + 0x1_0000_0000
    else s
  }

  /** Page size after clamping: only admins may exceed the default. */
  function EffectivePageSize(requested: Int32, isAdmin: bool): (size: Int32)
    ensures 1 <= size
    ensures !isAdmin ==> size <= DefaultPageSize
    ensures 0 < requested && (requested <= DefaultPageSize || isAdmin) ==> size == requested
    ensures requested <= 0 || (requested > DefaultPageSize && !isAdmin) ==> size == DefaultPageSize
  {
    if requested <= 0 then DefaultPageSize
    else if requested > DefaultPageSize && !isAdmin then DefaultPageSize
    else requested
  }

  /**
   * A page-token codec: `encode` turns an id into a token; `decode` yields
   * the numbers a token carries, or `None` for a malformed token.
   */
  datatype Codec = Codec(encode: nat -> string, decode: string -> Option<seq<nat>>)

  /** What the pager relies on from the codec: tokens are non-empty and decode back to their id. */
  ghost predicate ValidCodec(c: Codec) {
    && (forall x: nat :: c.decode(c.encode(x)) == Some([x]))
    && (forall x: nat :: c.encode(x) != "")
  }

  /**
   * The last-seen id a token carries; 0 stands for "no token". A token whose
   * decoding is empty makes the source index out of range (`ids[0]`).
   */
  function DecodeCursor(c: Codec, token: string): (r: Result<nat, Err>)
    ensures token == "" ==> r == Success(0)
    ensures token != "" && c.decode(token).None? ==>
      r == Failure(Status(InvalidArgument, "failed to parse page token"))
    ensures r.Success? && token != "" ==>
      c.decode(token).Some? && |c.decode(token).value| > 0 && r.value == c.decode(token).value[0]
  {
    if token == "" then Success(0)
    else
      match c.decode(token)
      case None => Failure(Status(InvalidArgument, "failed to parse page token"))
      case Some(ids) => if |ids| == 0 then Failure(IndexPanic) else Success(ids[0])
  }

  /** A token the codec issued decodes to the id it was issued for. */
  lemma DecodeCursorInvertsEncode(c: Codec, id: nat)
    requires ValidCodec(c)
    ensures DecodeCursor(c, c.encode(id)) == Success(id)
  {
    assert c.decode(c.encode(id)) == Some([id]);
  }

  /** Whether the listing query admits a row: it meets the filter and lies below the cursor (0: no cursor). */
  predicate Admits<T>(key: T -> nat, keep: T -> bool, cursor: nat, row: T) {
    keep(row) && (cursor == 0 || key(row) < cursor)
  }

  /** The rows among the first `n` of the table that the query admits, newest first. */
  function WindowOf<T>(rows: seq<T>, key: T -> nat, keep: T -> bool, cursor: nat, n: nat): (w: seq<T>)
    requires n <= |rows|
    ensures |w| <= n
    ensures forall i :: 0 <= i < |w| ==> Admits(key, keep, cursor, w[i])
    decreases n
  {
    if n == 0 then []
    else
      (if Admits(key, keep, cursor, rows[n - 1]) then [rows[n - 1]] else [])
        + WindowOf(rows, key, keep, cursor, n - 1)
  }

  /** The rows the listing query can see, newest first. */
  function Window<T>(rows: seq<T>, key: T -> nat, keep: T -> bool, cursor: nat): (w: seq<T>)
    ensures |w| <= |rows|
    ensures forall i :: 0 <= i < |w| ==> Admits(key, keep, cursor, w[i])
  {
    WindowOf(rows, key, keep, cursor, |rows|)
  }

  ghost predicate StrictlyDescending<T>(s: seq<T>, key: T -> nat) {
    forall i, j :: 0 <= i < j < |s| ==> key(s[i]) > key(s[j])
  }

  datatype Page<T> = Page(items: seq<T>, nextPageToken: string)

  datatype ListRequest<F> = ListRequest(pageToken: string, pageSize: Int32, filter: Option<F>)

  /**
   * Whether the handlers can allocate the result slice of capacity
   * `pageSize + 1`: the `int32` sum wraps to a negative capacity, on which Go
   * panics, exactly when an admin asks for the largest `int32` page.
   */
  predicate Fetchable(pageSize: Int32, isAdmin: bool) {
    !(isAdmin && pageSize == MaxInt32)
  }

  /**
   * One page of a listing. `findOk` is false when the store query fails. The
   * capacity panic comes after the token is decoded and before the query runs.
   */
  function Paginate<T>(c: Codec, rows: seq<T>, key: T -> nat, keep: T -> bool,
                       pageSize: Int32, pageToken: string, isAdmin: bool, findOk: bool): (r: Result<Page<T>, Err>)
    ensures DecodeCursor(c, pageToken).Failure? ==> r == Failure(DecodeCursor(c, pageToken).error)
    ensures DecodeCursor(c, pageToken).Success? && !Fetchable(pageSize, isAdmin) ==> r == Failure(CapacityPanic)
    ensures DecodeCursor(c, pageToken).Success? && Fetchable(pageSize, isAdmin) && !findOk ==>
      r == Failure(SQLQueryFailed("LIST"))
    ensures DecodeCursor(c, pageToken).Success? ==> (r.Success? <==> findOk && Fetchable(pageSize, isAdmin))
    ensures r.Success? ==>
      var cursor := DecodeCursor(c, pageToken).value;
      var size := EffectivePageSize(pageSize, isAdmin);
      var w := Window(rows, key, keep, cursor);
      && findOk
      && |r.value.items| <= size
      && |r.value.items| <= |w|
      && r.value.items == w[..|r.value.items|]
      && (|r.value.items| == size || |r.value.items| == |w|)
      && (r.value.nextPageToken != "" ==> |w| > size)
      && (|w| > size ==> r.value.nextPageToken == c.encode(key(r.value.items[size - 1])))
  {
    var size := EffectivePageSize(pageSize, isAdmin);
    match DecodeCursor(c, pageToken)
    case Failure(e) => Failure(e)
    case Success(cursor) =>
      if AddInt32(size, 1) < 0 then Failure(CapacityPanic)
      else if !findOk then Failure(SQLQueryFailed("LIST"))
      else
        var w := Window(rows, key, keep, cursor);
        var fetched := if |w| <= size + 1 then w else w[..size + 1];
        var items := if |fetched| > size then fetched[..size] else fetched;
        var token := if |fetched| > size then c.encode(key(items[size - 1])) else "";
        Success(Page(items, token))
  }

  // ---------------------------------------------------------------------
  // Properties of the window
  // ---------------------------------------------------------------------

  /** Every row of a window is one of the first `n` rows of the table. */
  lemma {:induction false} WindowRowAt<T>(rows: seq<T>, key: T -> nat, keep: T -> bool, cursor: nat,
                                          n: nat, i: nat) returns (j: nat)
    requires n <= |rows| && i < |WindowOf(rows, key, keep, cursor, n)|
    ensures j < n && WindowOf(rows, key, keep, cursor, n)[i] == rows[j]
  {
    if Admits(key, keep, cursor, rows[n - 1]) {
      if i == 0 {
        j := n - 1;
      } else {
        j := WindowRowAt(rows, key, keep, cursor, n - 1, i - 1);
      }
    } else {
      j := WindowRowAt(rows, key, keep, cursor, n - 1, i);
    }
  }

  /** Every admitted row among the first `n` is in the window. */
  lemma {:induction false} WindowHasRow<T>(rows: seq<T>, key: T -> nat, keep: T -> bool, cursor: nat,
                                           n: nat, j: nat)
    requires j < n <= |rows| && Admits(key, keep, cursor, rows[j])
    ensures rows[j] in WindowOf(rows, key, keep, cursor, n)
  {
    if j < n - 1 {
      WindowHasRow(rows, key, keep, cursor, n - 1, j);
    }
  }

  /** The window holds exactly the table's rows that the query admits. */
  lemma WindowMembers<T>(rows: seq<T>, key: T -> nat, keep: T -> bool, cursor: nat)
    ensures forall i :: 0 <= i < |Window(rows, key, keep, cursor)| ==> Window(rows, key, keep, cursor)[i] in rows
    ensures forall j :: 0 <= j < |rows| && Admits(key, keep, cursor, rows[j]) ==>
      rows[j] in Window(rows, key, keep, cursor)
  {
    var w := Window(rows, key, keep, cursor);
    forall i | 0 <= i < |w|
      ensures w[i] in rows
    {
      var j := WindowRowAt(rows, key, keep, cursor, |rows|, i);
    }
    forall j | 0 <= j < |rows| && Admits(key, keep, cursor, rows[j])
      ensures rows[j] in w
    {
      WindowHasRow(rows, key, keep, cursor, |rows|, j);
    }
  }

  lemma {:induction false} WindowOfDescending<T>(rows: seq<T>, key: T -> nat, keep: T -> bool, cursor: nat, n: nat)
    requires n <= |rows| && IdsAscending(rows, key)
    ensures StrictlyDescending(WindowOf(rows, key, keep, cursor, n), key)
  {
    if n > 0 {
      var w := WindowOf(rows, key, keep, cursor, n);
      var tail := WindowOf(rows, key, keep, cursor, n - 1);
      WindowOfDescending(rows, key, keep, cursor, n - 1);
      if Admits(key, keep, cursor, rows[n - 1]) {
        forall i, j | 0 <= i < j < |w|
          ensures key(w[i]) > key(w[j])
        {
          var r := WindowRowAt(rows, key, keep, cursor, n - 1, j - 1);
          assert w[j] == tail[j - 1];
          if i > 0 {
            assert w[i] == tail[i - 1];
          }
        }
      }
    }
  }

  /** A cursor above every id among the first `n` rows filters nothing. */
  lemma {:induction false} WindowOfUnderHighCursor<T>(rows: seq<T>, key: T -> nat, keep: T -> bool,
                                                      cursor: nat, n: nat)
    requires n <= |rows| && cursor > 0
    requires forall j :: 0 <= j < n ==> key(rows[j]) < cursor
    ensures WindowOf(rows, key, keep, cursor, n) == WindowOf(rows, key, keep, 0, n)
  {
    if n > 0 {
      WindowOfUnderHighCursor(rows, key, keep, cursor, n - 1);
    }
  }

  lemma WindowOfTakes<T>(rows: seq<T>, key: T -> nat, keep: T -> bool, cursor: nat, n: nat)
    requires 0 < n <= |rows| && Admits(key, keep, cursor, rows[n - 1])
    ensures WindowOf(rows, key, keep, cursor, n) == [rows[n - 1]] + WindowOf(rows, key, keep, cursor, n - 1)
  {
  }

  lemma WindowOfSkips<T>(rows: seq<T>, key: T -> nat, keep: T -> bool, cursor: nat, n: nat)
    requires 0 < n <= |rows| && !Admits(key, keep, cursor, rows[n - 1])
    ensures WindowOf(rows, key, keep, cursor, n) == WindowOf(rows, key, keep, cursor, n - 1)
  {
  }

  lemma ConsShift<T>(x: T, s: seq<T>, i: nat)
    requires i < |s|
    ensures ([x] + s)[i + 1] == s[i] && ([x] + s)[i + 2..] == s[i + 1..]
  {
  }

  /**
   * Under the id of the k-th row of a listing, the window is exactly the
   * rows after it: the cursor neither skips nor repeats a row.
   */
  lemma {:induction false} WindowOfBelowMember<T>(rows: seq<T>, key: T -> nat, keep: T -> bool, n: nat, k: nat)
    requires n <= |rows| && IdsAscending(rows, key)
    requires k < |WindowOf(rows, key, keep, 0, n)|
    ensures key(WindowOf(rows, key, keep, 0, n)[k]) >= 1
    ensures WindowOf(rows, key, keep, key(WindowOf(rows, key, keep, 0, n)[k]), n)
         == WindowOf(rows, key, keep, 0, n)[k + 1..]
  {
    if keep(rows[n - 1]) {
      WindowOfTakes(rows, key, keep, 0, n);
      if k == 0 {
        BelowNewest(rows, key, keep, n);
      } else {
        WindowOfBelowMember(rows, key, keep, n - 1, k - 1);
        BelowTaken(rows, key, keep, n, k);
      }
    } else {
      WindowOfSkips(rows, key, keep, 0, n);
      WindowOfBelowMember(rows, key, keep, n - 1, k);
      BelowSkipped(rows, key, keep, n, k);
    }
  }

  /** The newest admitted row: under its id the window is everything older. */
  lemma BelowNewest<T>(rows: seq<T>, key: T -> nat, keep: T -> bool, n: nat)
    requires 0 < n <= |rows| && IdsAscending(rows, key) && keep(rows[n - 1])
    ensures |WindowOf(rows, key, keep, 0, n)| > 0
    ensures key(WindowOf(rows, key, keep, 0, n)[0]) >= 1
    ensures WindowOf(rows, key, keep, key(WindowOf(rows, key, keep, 0, n)[0]), n)
         == WindowOf(rows, key, keep, 0, n)[1..]
  {
    var last := rows[n - 1];
    WindowOfTakes(rows, key, keep, 0, n);
    WindowOfSkips(rows, key, keep, key(last), n);
    WindowOfUnderHighCursor(rows, key, keep, key(last), n - 1);
  }

  /** The inductive step when the newest row is admitted and the k-th row is an older one. */
  lemma BelowTaken<T>(rows: seq<T>, key: T -> nat, keep: T -> bool, n: nat, k: nat)
    requires 0 < n <= |rows| && IdsAscending(rows, key) && keep(rows[n - 1])
    requires 0 < k && k - 1 < |WindowOf(rows, key, keep, 0, n - 1)|
    requires key(WindowOf(rows, key, keep, 0, n - 1)[k - 1]) >= 1
    requires WindowOf(rows, key, keep, key(WindowOf(rows, key, keep, 0, n - 1)[k - 1]), n - 1)
          == WindowOf(rows, key, keep, 0, n - 1)[k..]
    ensures k < |WindowOf(rows, key, keep, 0, n)|
    ensures key(WindowOf(rows, key, keep, 0, n)[k]) >= 1
    ensures WindowOf(rows, key, keep, key(WindowOf(rows, key, keep, 0, n)[k]), n)
         == WindowOf(rows, key, keep, 0, n)[k + 1..]
  {
    var all' := WindowOf(rows, key, keep, 0, n - 1);
    WindowOfTakes(rows, key, keep, 0, n);
    var j := WindowRowAt(rows, key, keep, 0, n - 1, k - 1);
    ConsShift(rows[n - 1], all', k - 1);
    WindowOfSkips(rows, key, keep, key(rows[j]), n);
  }

  /** The inductive step when the newest row is not admitted. */
  lemma BelowSkipped<T>(rows: seq<T>, key: T -> nat, keep: T -> bool, n: nat, k: nat)
    requires 0 < n <= |rows| && !keep(rows[n - 1])
    requires k < |WindowOf(rows, key, keep, 0, n - 1)|
    requires key(WindowOf(rows, key, keep, 0, n - 1)[k]) >= 1
    requires WindowOf(rows, key, keep, key(WindowOf(rows, key, keep, 0, n - 1)[k]), n - 1)
          == WindowOf(rows, key, keep, 0, n - 1)[k + 1..]
    ensures k < |WindowOf(rows, key, keep, 0, n)|
    ensures key(WindowOf(rows, key, keep, 0, n)[k]) >= 1
    ensures WindowOf(rows, key, keep, key(WindowOf(rows, key, keep, 0, n)[k]), n)
         == WindowOf(rows, key, keep, 0, n)[k + 1..]
  {
    WindowOfSkips(rows, key, keep, 0, n);
    WindowOfSkips(rows, key, keep, key(WindowOf(rows, key, keep, 0, n - 1)[k]), n);
  }

  lemma WindowDescending<T>(rows: seq<T>, key: T -> nat, keep: T -> bool, cursor: nat)
    requires WellKeyed(rows, key)
    ensures StrictlyDescending(Window(rows, key, keep, cursor), key)
  {
    WellKeyedAscending(rows, key);
    WindowOfDescending(rows, key, keep, cursor, |rows|);
  }

  // ---------------------------------------------------------------------
  // Properties of a page
  // ---------------------------------------------------------------------

  /**
   * With a codec that never issues the empty token, a page carries a next
   * token exactly when more rows matched than fit, and that token decodes to
   * the id of the last row returned.
   */
  lemma PageTokenIffOverflow<T>(c: Codec, rows: seq<T>, key: T -> nat, keep: T -> bool,
                                pageSize: Int32, pageToken: string, isAdmin: bool)
    requires ValidCodec(c)
    requires Paginate(c, rows, key, keep, pageSize, pageToken, isAdmin, true).Success?
    ensures
      var page := Paginate(c, rows, key, keep, pageSize, pageToken, isAdmin, true).value;
      var size := EffectivePageSize(pageSize, isAdmin);
      var w := Window(rows, key, keep, DecodeCursor(c, pageToken).value);
      && (page.nextPageToken != "" <==> |w| > size)
      && (page.nextPageToken != "" ==>
            |page.items| == size && DecodeCursor(c, page.nextPageToken) == Success(key(page.items[size - 1])))
  {
    var page := Paginate(c, rows, key, keep, pageSize, pageToken, isAdmin, true).value;
    var size := EffectivePageSize(pageSize, isAdmin);
    if |Window(rows, key, keep, DecodeCursor(c, pageToken).value)| > size {
      DecodeCursorInvertsEncode(c, key(page.items[size - 1]));
    }
  }

  /**
   * A page is newest first, and when a token was given every returned id lies
   * strictly below the id it carries.
   */
  lemma PageOrderedBelowCursor<T>(c: Codec, rows: seq<T>, key: T -> nat, keep: T -> bool,
                                  pageSize: Int32, pageToken: string, isAdmin: bool)
    requires WellKeyed(rows, key)
    requires Paginate(c, rows, key, keep, pageSize, pageToken, isAdmin, true).Success?
    ensures
      var page := Paginate(c, rows, key, keep, pageSize, pageToken, isAdmin, true).value;
      var cursor := DecodeCursor(c, pageToken).value;
      && StrictlyDescending(page.items, key)
      && (forall i :: 0 <= i < |page.items| ==> page.items[i] in rows && keep(page.items[i]))
      && (cursor != 0 ==> forall i :: 0 <= i < |page.items| ==> key(page.items[i]) < cursor)
  {
    var cursor := DecodeCursor(c, pageToken).value;
    WindowDescending(rows, key, keep, cursor);
    WindowMembers(rows, key, keep, cursor);
  }

  /** A token that decodes to id 0 lists exactly what no token lists. */
  lemma ZeroTokenIsNoToken<T>(c: Codec, rows: seq<T>, key: T -> nat, keep: T -> bool,
                              pageSize: Int32, isAdmin: bool, findOk: bool)
    requires ValidCodec(c)
    ensures Paginate(c, rows, key, keep, pageSize, c.encode(0), isAdmin, findOk)
         == Paginate(c, rows, key, keep, pageSize, "", isAdmin, findOk)
  {
    DecodeCursorInvertsEncode(c, 0);
  }

  // ---------------------------------------------------------------------
  // Following tokens
  // ---------------------------------------------------------------------

  /**
   * The client loop of the list tests over any page source: start from a
   * token, keep requesting with the returned token until it is empty, and
   * concatenate the pages. `None` if a page fails or `fuel` further requests
   * were not enough.
   */
  function CrawlWith<T>(pages: string -> Result<Page<T>, Err>, token: string, fuel: nat): Option<seq<T>>
    decreases fuel
  {
    match pages(token)
    case Failure(_) => None
    case Success(page) =>
      if page.nextPageToken == "" then Some(page.items)
      else if fuel == 0 then None
      else
        match CrawlWith(pages, page.nextPageToken, fuel - 1)
        case None => None
        case Some(rest) => Some(page.items + rest)
  }

  /** The listing handler as a page source, every query succeeding. */
  function PagesOf<T>(c: Codec, rows: seq<T>, key: T -> nat, keep: T -> bool, pageSize: Int32, isAdmin: bool)
    : string -> Result<Page<T>, Err>
  {
    (t: string) => Paginate(c, rows, key, keep, pageSize, t, isAdmin, true)
  }

  /** The client loop over the listing handler. */
  function Crawl<T>(c: Codec, rows: seq<T>, key: T -> nat, keep: T -> bool,
                    pageSize: Int32, isAdmin: bool, token: string, fuel: nat): Option<seq<T>>
  {
    CrawlWith(PagesOf(c, rows, key, keep, pageSize, isAdmin), token, fuel)
  }

  /**
   * A page source walks through `all` in steps of `size`: a token that
   * `covers` position `j` yields the next `size` rows and a token covering
   * the position after them, or the rest of `all` and no token.
   */
  ghost predicate WalksThrough<T>(pages: string -> Result<Page<T>, Err>, all: seq<T>, size: nat,
                                  covers: (string, nat) -> bool) {
    forall t: string, j: nat :: covers(t, j) ==> StepsFrom(pages, all, size, covers, t, j)
  }

  ghost predicate StepsFrom<T>(pages: string -> Result<Page<T>, Err>, all: seq<T>, size: nat,
                               covers: (string, nat) -> bool, t: string, j: nat) {
    PageSteps(pages(t), all, size, covers, j)
  }

  /** A page answered at position `j`: the rest of `all`, or the next `size` rows and a token covering what follows. */
  ghost predicate PageSteps<T>(r: Result<Page<T>, Err>, all: seq<T>, size: nat, covers: (string, nat) -> bool, j: nat) {
    && j <= |all|
    && r.Success?
    && (r.value.nextPageToken == "" ==> r.value.items == all[j..])
    && (r.value.nextPageToken != "" ==>
          && 1 <= size && j + size < |all|
          && r.value.items == all[j..j + size]
          && covers(r.value.nextPageToken, j + size))
  }

  lemma SplitSuffix<T>(s: seq<T>, a: nat, b: nat)
    requires a <= b <= |s|
    ensures s[a..] == s[a..b] + s[b..]
  {
  }

  /** From a token covering position `j`, the loop collects the rest of `all`. */
  lemma {:induction false} CrawlWithCollects<T>(pages: string -> Result<Page<T>, Err>, all: seq<T>, size: nat,
                                                covers: (string, nat) -> bool, token: string, j: nat, fuel: nat)
    requires WalksThrough(pages, all, size, covers)
    requires covers(token, j) && fuel + j >= |all|
    ensures j <= |all| && CrawlWith(pages, token, fuel) == Some(all[j..])
    decreases fuel
  {
    assert StepsFrom(pages, all, size, covers, token, j);
    var page := pages(token).value;
    if page.nextPageToken != "" {
      CrawlWithCollects(pages, all, size, covers, page.nextPageToken, j + size, fuel - 1);
      assert CrawlWith(pages, token, fuel) == Some(page.items + all[j + size..]);
      SplitSuffix(all, j, j + size);
    } else {
      assert CrawlWith(pages, token, fuel) == Some(page.items);
    }
  }

  /**
   * How a page relates to the window it was cut from: a prefix of it, as
   * long as the page size allows, with a token exactly when rows were left
   * over, carrying the id of the last row returned.
   */
  ghost predicate PageShape<T>(c: Codec, key: T -> nat, size: nat, w: seq<T>, page: Page<T>) {
    && |page.items| <= |w|
    && page.items == w[..|page.items|]
    && (page.nextPageToken == "" ==> |w| <= size && |page.items| == |w|)
    && (page.nextPageToken != "" ==>
          && 1 <= size < |w| && |page.items| == size
          && DecodeCursor(c, page.nextPageToken) == Success(key(page.items[size - 1])))
  }

  /** The listing handler's page for a token, cut from that token's window. */
  lemma PaginatedWindow<T>(c: Codec, rows: seq<T>, key: T -> nat, keep: T -> bool, pageSize: Int32, isAdmin: bool, t: string)
    returns (page: Page<T>)
    requires ValidCodec(c) && DecodeCursor(c, t).Success? && Fetchable(pageSize, isAdmin)
    ensures Paginate(c, rows, key, keep, pageSize, t, isAdmin, true) == Success(page)
    ensures PageShape(c, key, EffectivePageSize(pageSize, isAdmin), Window(rows, key, keep, DecodeCursor(c, t).value), page)
  {
    page := Paginate(c, rows, key, keep, pageSize, t, isAdmin, true).value;
    PageTokenIffOverflow(c, rows, key, keep, pageSize, t, isAdmin);
  }

  /** The first `size` elements of the suffix of `all` from `j` are the slice of `all` from `j`. */
  lemma SliceOfSuffix<T>(all: seq<T>, w: seq<T>, items: seq<T>, j: nat, size: nat)
    requires j <= |all| && w == all[j..]
    requires 1 <= size < |w| && items == w[..size]
    ensures j + size < |all| && items == all[j..j + size] && items[size - 1] == all[j + size - 1]
  {
  }

  /** Resuming under the id of the n-th row of the listing sees the listing after it. */
  lemma ResumeAt<T>(rows: seq<T>, key: T -> nat, keep: T -> bool, n: nat, cursor: nat)
    requires WellKeyed(rows, key)
    requires 1 <= n <= |Window(rows, key, keep, 0)|
    requires cursor == key(Window(rows, key, keep, 0)[n - 1])
    ensures Window(rows, key, keep, cursor) == Window(rows, key, keep, 0)[n..]
  {
    WellKeyedAscending(rows, key);
    WindowOfBelowMember(rows, key, keep, |rows|, n - 1);
  }

  /** A token covers position `j` when the rows it lets the query see are the full listing from `j` on. */
  ghost function SuffixCovers<T>(c: Codec, rows: seq<T>, key: T -> nat, keep: T -> bool): (string, nat) -> bool {
    (t: string, j: nat) =>
      && DecodeCursor(c, t).Success?
      && j <= |Window(rows, key, keep, 0)|
      && Window(rows, key, keep, DecodeCursor(c, t).value) == Window(rows, key, keep, 0)[j..]
  }

  /** The empty token covers the whole listing. */
  lemma EmptyTokenCoversAll<T>(c: Codec, rows: seq<T>, key: T -> nat, keep: T -> bool)
    ensures SuffixCovers(c, rows, key, keep)("", 0)
  {
    var all := Window(rows, key, keep, 0);
    assert DecodeCursor(c, "") == Success(0);
    assert all[0..] == all;
  }

  /**
   * A page cut from the suffix of the listing from position `j` is the rest
   * of the listing, or the next `size` rows with a token covering what
   * follows.
   */
  lemma StepOfShape<T>(c: Codec, rows: seq<T>, key: T -> nat, keep: T -> bool, size: nat, j: nat,
                       w: seq<T>, page: Page<T>)
    requires WellKeyed(rows, key)
    requires j <= |Window(rows, key, keep, 0)| && w == Window(rows, key, keep, 0)[j..]
    requires PageShape(c, key, size, w, page)
    ensures PageSteps(Success(page), Window(rows, key, keep, 0), size, SuffixCovers(c, rows, key, keep), j)
  {
    var all := Window(rows, key, keep, 0);
    if page.nextPageToken == "" {
      assert page.items == w[..|w|] == w;
    } else {
      SliceOfSuffix(all, w, page.items, j, size);
      var cursor := DecodeCursor(c, page.nextPageToken).value;
      ResumeAt(rows, key, keep, j + size, cursor);
      assert SuffixCovers(c, rows, key, keep)(page.nextPageToken, j + size);
    }
  }

  /** One page of the listing handler from a covering token. */
  lemma StepFromSuffix<T>(c: Codec, rows: seq<T>, key: T -> nat, keep: T -> bool, pageSize: Int32, isAdmin: bool,
                          t: string, j: nat)
    requires ValidCodec(c) && WellKeyed(rows, key) && Fetchable(pageSize, isAdmin)
    requires SuffixCovers(c, rows, key, keep)(t, j)
    ensures StepsFrom(PagesOf(c, rows, key, keep, pageSize, isAdmin), Window(rows, key, keep, 0),
                      EffectivePageSize(pageSize, isAdmin), SuffixCovers(c, rows, key, keep), t, j)
  {
    var page := PaginatedWindow(c, rows, key, keep, pageSize, isAdmin, t);
    StepOfShape(c, rows, key, keep, EffectivePageSize(pageSize, isAdmin), j,
                Window(rows, key, keep, DecodeCursor(c, t).value), page);
    assert PagesOf(c, rows, key, keep, pageSize, isAdmin)(t) == Success(page);
  }

  /** The listing handler walks through the full listing one page size at a time. */
  lemma PaginateWalksThrough<T>(c: Codec, rows: seq<T>, key: T -> nat, keep: T -> bool, pageSize: Int32, isAdmin: bool)
    requires ValidCodec(c) && WellKeyed(rows, key) && Fetchable(pageSize, isAdmin)
    ensures WalksThrough(PagesOf(c, rows, key, keep, pageSize, isAdmin), Window(rows, key, keep, 0),
                         EffectivePageSize(pageSize, isAdmin), SuffixCovers(c, rows, key, keep))
  {
    forall t: string, j: nat | SuffixCovers(c, rows, key, keep)(t, j)
      ensures StepsFrom(PagesOf(c, rows, key, keep, pageSize, isAdmin), Window(rows, key, keep, 0),
                        EffectivePageSize(pageSize, isAdmin), SuffixCovers(c, rows, key, keep), t, j)
    {
      StepFromSuffix(c, rows, key, keep, pageSize, isAdmin, t, j);
    }
  }

  /**
   * On a static table, following tokens from the empty token visits every
   * matching row exactly once, newest first, and then stops, for every page
   * size the handlers can allocate for.
   */
  lemma CrawlVisitsEveryRowOnce<T>(c: Codec, rows: seq<T>, key: T -> nat, keep: T -> bool,
                                   pageSize: Int32, isAdmin: bool)
    requires ValidCodec(c) && WellKeyed(rows, key) && Fetchable(pageSize, isAdmin)
    ensures Crawl(c, rows, key, keep, pageSize, isAdmin, "", |rows|) == Some(Window(rows, key, keep, 0))
    ensures StrictlyDescending(Window(rows, key, keep, 0), key)
    ensures forall i :: 0 <= i < |rows| && keep(rows[i]) ==> rows[i] in Window(rows, key, keep, 0)
  {
    var all := Window(rows, key, keep, 0);
    var size := EffectivePageSize(pageSize, isAdmin);
    PaginateWalksThrough(c, rows, key, keep, pageSize, isAdmin);
    EmptyTokenCoversAll(c, rows, key, keep);
    CrawlWithCollects(PagesOf(c, rows, key, keep, pageSize, isAdmin), all, size, SuffixCovers(c, rows, key, keep),
                      "", 0, |rows|);
    WindowDescending(rows, key, keep, 0);
    WindowMembers(rows, key, keep, 0);
  }

  /**
   * At the largest admin page size no page is ever served: whatever the
   * token, a token the codec issued or none, the request fails with the
   * capacity panic.
   */
  lemma LargestPageNeverServed<T>(c: Codec, rows: seq<T>, key: T -> nat, keep: T -> bool, id: nat, fuel: nat)
    requires ValidCodec(c)
    ensures Paginate(c, rows, key, keep, MaxInt32, c.encode(id), true, true) == Failure(CapacityPanic)
    ensures Crawl(c, rows, key, keep, MaxInt32, true, "", fuel).None?
    ensures Crawl(c, rows, key, keep, MaxInt32, true, c.encode(id), fuel).None?
  {
    DecodeCursorInvertsEncode(c, id);
  }

  // ---------------------------------------------------------------------
  // The List handler body
  // ---------------------------------------------------------------------

  /** A page whose rows were converted to messages one by one. */
  function MapPage<T, M>(page: Page<T>, message: T -> M): (r: Page<M>)
    ensures |r.items| == |page.items| && r.nextPageToken == page.nextPageToken
    ensures forall i :: 0 <= i < |page.items| ==> r.items[i] == message(page.items[i])
  {
    Page(seq(|page.items|, i requires 0 <= i < |page.items| => message(page.items[i])), page.nextPageToken)
  }

  /**
   * The body the six `List*` handlers share: a nil request is rejected, the
   * request's filter (`keepOf`) decides which rows the query admits, and the
   * rows of the page are converted to messages.
   */
  function List<T, F, M>(c: Codec, rows: seq<T>, key: T -> nat, keepOf: Option<F> -> (T -> bool),
                         message: T -> M, req: Option<ListRequest<F>>, isAdmin: bool, findOk: bool)
    : (r: Result<Page<M>, Err>)
    ensures req.None? ==> r == Failure(NilObject("list request"))
    ensures req.Some? && DecodeCursor(c, req.value.pageToken).Failure? ==>
      r == Failure(DecodeCursor(c, req.value.pageToken).error)
    ensures req.Some? && DecodeCursor(c, req.value.pageToken).Success? ==>
      (r.Success? <==> findOk && Fetchable(req.value.pageSize, isAdmin))
    ensures req.Some? && DecodeCursor(c, req.value.pageToken).Success? && !Fetchable(req.value.pageSize, isAdmin) ==>
      r == Failure(CapacityPanic)
    ensures req.Some? && DecodeCursor(c, req.value.pageToken).Success? && Fetchable(req.value.pageSize, isAdmin) && !findOk ==>
      r == Failure(SQLQueryFailed("LIST"))
    ensures r.Success? ==>
      && req.Some? && Fetchable(req.value.pageSize, isAdmin)
      && var size := EffectivePageSize(req.value.pageSize, isAdmin);
         var w := Window(rows, key, keepOf(req.value.filter), DecodeCursor(c, req.value.pageToken).value);
         && |r.value.items| <= size
         && (|r.value.items| == size || |r.value.items| == |w|)
         && |r.value.items| <= |w|
         && (forall i :: 0 <= i < |r.value.items| ==> r.value.items[i] == message(w[i]))
         && (r.value.nextPageToken != "" ==> |w| > size)
         && (|w| > size ==> r.value.nextPageToken == c.encode(key(w[size - 1])))
  {
    match req
    case None => Failure(NilObject("list request"))
    case Some(q) =>
      match Paginate(c, rows, key, keepOf(q.filter), q.pageSize, q.pageToken, isAdmin, findOk)
      case Failure(e) => Failure(e)
      case Success(page) => Success(MapPage(page, message))
  }
}
