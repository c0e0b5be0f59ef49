/**
 * The paginated fetcher of app/utils/pagination.ts.
 *
 * The hosted backend returns at most 1000 rows per request, so the fetcher asks for
 * successive 1000-row windows and concatenates what comes back. The backend itself is
 * an abstract page source: a function from a request (which table, which columns,
 * which filter, which window) to an error, a missing page or a page of rows.
 */
module Pagination {
  import opened Wrappers
  import opened JsValues

  /** Rows requested per call: the backend's per-request cap. */
  const PageSize: nat := 1000

  /** The inclusive row range `[first, last]` passed to `range(first, last)`. */
  datatype Window = Window(first: nat, last: nat)

  /** The window of zero-based page `page`: `[page * 1000, (page + 1) * 1000 - 1]`. */
  function WindowOf(page: nat): Window
  {
    Window(page * PageSize, (page + 1) * PageSize - 1)
  }

  /** Each window is exactly one page wide and starts right after the previous one. */
  lemma WindowsAreContiguous(page: nat)
    ensures WindowOf(page).last + 1 - WindowOf(page).first == PageSize
    ensures WindowOf(page + 1).first == WindowOf(page).last + 1
  {
  }

  /** Every row index lies in exactly one window, the one of page `row / 1000`. */
  lemma {:induction false} WindowOwner(page: nat, row: nat)
    ensures WindowOf(page).first <= row <= WindowOf(page).last <==> page == row / PageSize
  {
    var p := row / PageSize;
    assert p * PageSize <= row < (p + 1) * PageSize;
    if page < p {
      assert (page + 1) * PageSize <= p * PageSize;
    } else if page > p {
      assert (p + 1) * PageSize <= page * PageSize;
    }
  }

  /** Two different pages never ask for the same row. */
  lemma WindowsAreDisjoint(page1: nat, page2: nat, row: nat)
    requires page1 != page2
    ensures !(WindowOf(page1).first <= row <= WindowOf(page1).last
              && WindowOf(page2).first <= row <= WindowOf(page2).last)
  {
    WindowOwner(page1, row);
    WindowOwner(page2, row);
  }

  // ----- Filters -------------------------------------------------------------------

  /** The optional `filters` argument: every field may be missing. */
  datatype Filters = Filters(column: Option<string>, operator: Option<string>, value: Value)

  /** The filter a request carries: none, `not(column, 'is', null)`, or `filter(column, operator, value)`. */
  datatype Filter =
    | NoFilter
    | NotNull(column: Option<string>)
    | Where(column: Option<string>, operator: string, value: Value)

  /** JavaScript truthiness of an optional string: present and not empty. */
  predicate IsTruthy(s: Option<string>)
  {
    s.Some? && s.value != ""
  }

  /** The filter applied to every page request for the given `filters` argument. */
  function ChooseFilter(filters: Option<Filters>): (f: Filter)
    // operator 'not' with value null selects the not-null shorthand on the column
    ensures f.NotNull? <==> filters.Some? && filters.value.operator == Some("not") && filters.value.value == Null
    ensures f.NotNull? ==> f.column == filters.value.column
    // otherwise a truthy operator with a defined value selects the generic filter, with the arguments unchanged
    ensures f.Where? <==>
              && filters.Some?
              && !(filters.value.operator == Some("not") && filters.value.value == Null)
              && IsTruthy(filters.value.operator)
              && filters.value.value != Undefined
    ensures f.Where? ==> f.column == filters.value.column && Some(f.operator) == filters.value.operator
                         && f.value == filters.value.value
    // and in every other case no filter at all
  {
    match filters
    case None => NoFilter
    case Some(fs) =>
      if fs.operator == Some("not") && fs.value == Null then NotNull(fs.column)
      else if IsTruthy(fs.operator) && fs.value != Undefined then Where(fs.column, fs.operator.value, fs.value)
      else NoFilter
  }

  // ----- The page source -----------------------------------------------------------

  /** `from(table).select(fields)` together with the chosen filter. */
  datatype Query = Query(table: string, fields: string, filter: Filter)

  /** One request: the query restricted to one window. */
  datatype Request = Request(query: Query, window: Window)

  /** What one request yields: an error, no data at all, or a (possibly empty) page of rows. */
  datatype PageResult<R> = Failed | NoData | Rows(rows: seq<R>)

  /** What the backend answers for page `page` of `q`. */
  function PageAt<R>(source: Request -> PageResult<R>, q: Query, page: nat): PageResult<R>
  {
    source(Request(q, WindowOf(page)))
  }

  /** A page after which the loop asks for the next one: rows, and not fewer than a page's worth. */
  predicate Continues<R>(r: PageResult<R>)
  {
    r.Rows? && |r.rows| >= PageSize
  }

  /** The rows a response adds to the accumulator: its rows, or nothing for an error or missing data. */
  function Appended<R>(r: PageResult<R>): seq<R>
  {
    if r.Rows? then r.rows else []
  }

  /** The rows of pages `0 .. k-1` concatenated in fetch order. */
  function Gathered<R>(source: Request -> PageResult<R>, q: Query, k: nat): seq<R>
  {
    if k == 0 then [] else Gathered(source, q, k - 1) + Appended(PageAt(source, q, k - 1))
  }

  /**
   * Some page of `q` would end the loop. A backend that answers every page with a full
   * page makes the source loop forever; the model excludes exactly that case.
   */
  ghost predicate EventuallyStops<R>(source: Request -> PageResult<R>, q: Query)
  {
    exists n: nat :: !Continues(PageAt(source, q, n))
  }

  /**
   * `records` is what the fetcher returns when page `last` is the last one it requested:
   * every earlier page was full, page `last` ended the loop, and `records` is the
   * concatenation of the rows of pages `0 .. last`.
   */
  ghost predicate IsFetchResult<R>(source: Request -> PageResult<R>, q: Query, records: seq<R>, last: nat)
  {
    && (forall j: nat :: j < last ==> Continues(PageAt(source, q, j)))
    && !Continues(PageAt(source, q, last))
    && records == Gathered(source, q, last + 1)
  }

  /** `records` is what a paginated fetch of `q` from `source` returns, whichever page was the last. */
  ghost predicate Fetched<R>(source: Request -> PageResult<R>, q: Query, records: seq<R>)
  {
    exists last: nat :: IsFetchResult(source, q, records, last)
  }

  /** A backend that honours the window: no page holds more rows than the 1000 it asked for. */
  ghost predicate RespectsWindows<R>(source: Request -> PageResult<R>)
  {
    forall q: Query, page: nat :: |Appended(PageAt(source, q, page))| <= PageSize
  }

  // ----- The fetch loop ------------------------------------------------------------

  /**
   * `getAllRecordsWithPagination`: request page after page, append every non-empty page,
   * stop after a short page, on an empty or missing page, or on an error, and return
   * what was accumulated.
   */
  method GetAllRecordsWithPagination<R>(source: Request -> PageResult<R>, tableName: string,
                                        selectFields: string := "*", filters: Option<Filters> := None)
    returns (allRecords: seq<R>)
    requires EventuallyStops(source, Query(tableName, selectFields, ChooseFilter(filters)))
    ensures Fetched(source, Query(tableName, selectFields, ChooseFilter(filters)), allRecords)
  {
    ghost var q := Query(tableName, selectFields, ChooseFilter(filters));
    ghost var bound: nat :| !Continues(PageAt(source, q, bound));
    allRecords := [];
    var page: nat := 0;
    var hasMore := true;
    ghost var last: nat := 0;
    while hasMore
      invariant hasMore ==> page <= bound
      invariant hasMore ==> allRecords == Gathered(source, q, page)
      invariant hasMore ==> forall j: nat :: j < page ==> Continues(PageAt(source, q, j))
      invariant !hasMore ==> IsFetchResult(source, q, allRecords, last)
      decreases hasMore, bound - page
    {
      var response := source(Request(Query(tableName, selectFields, ChooseFilter(filters)), WindowOf(page)));
      if response.Failed? {
        // the error is logged and the loop ends with what it has
        last := page;
        assert Gathered(source, q, page + 1) == allRecords + [];
        break;
      }
      if response.Rows? && |response.rows| > 0 {
        allRecords := allRecords + response.rows;
        page := page + 1;
        if |response.rows| < PageSize {
          hasMore := false;
          last := page - 1;
        }
      } else {
        hasMore := false;
        last := page;
        assert Gathered(source, q, page + 1) == allRecords + [];
      }
    }
    assert IsFetchResult(source, q, allRecords, last);
  }

  /** `getAllContactsFromBackup`: one column of `contactos_backup`, only rows where it is not null. */
  method GetAllContactsFromBackup<R>(source: Request -> PageResult<R>) returns (records: seq<R>)
    requires EventuallyStops(source, Query("contactos_backup", "whatsapp_cloud_ad_source_id",
                                           NotNull(Some("whatsapp_cloud_ad_source_id"))))
    ensures Fetched(source, Query("contactos_backup", "whatsapp_cloud_ad_source_id",
                                    NotNull(Some("whatsapp_cloud_ad_source_id"))), records)
  {
    records := GetAllRecordsWithPagination(source, "contactos_backup", "whatsapp_cloud_ad_source_id",
                                         Some(Filters(Some("whatsapp_cloud_ad_source_id"), Some("not"), Null)));
  }

  /** The columns `getAllAgentData` selects. */
  const AgentFields := "assigned_user, created_at, source, tags, name, phone_number"

  /** The columns `getAllTagsData` selects. */
  const TagFields := "tags, assigned_user, created_at, source, name, phone_number"

  /** `getAllAgentData`: the agent columns of every row of `tableName`, unfiltered. */
  method GetAllAgentData<R>(source: Request -> PageResult<R>, tableName: string) returns (records: seq<R>)
    requires EventuallyStops(source, Query(tableName, AgentFields, NoFilter))
    ensures Fetched(source, Query(tableName, AgentFields, NoFilter), records)
  {
    records := GetAllRecordsWithPagination(source, tableName, AgentFields);
  }

  /** `getAllTagsData`: the tag columns of every row of `tableName`, unfiltered. */
  method GetAllTagsData<R>(source: Request -> PageResult<R>, tableName: string) returns (records: seq<R>)
    requires EventuallyStops(source, Query(tableName, TagFields, NoFilter))
    ensures Fetched(source, Query(tableName, TagFields, NoFilter), records)
  {
    records := GetAllRecordsWithPagination(source, tableName, TagFields);
  }

  // ----- What a fetch returns --------------------------------------------------------

  /**
   * The loop stops at the first page that is not full: if pages `0 .. k-1` are full and
   * page `k` is not, the last request is page `k` and the result is pages `0 .. k-1`
   * followed by whatever page `k` contributed.
   */
  lemma StopsAtFirstShortPage<R>(source: Request -> PageResult<R>, q: Query, k: nat, records: seq<R>, last: nat)
    requires forall j: nat :: j < k ==> Continues(PageAt(source, q, j))
    requires !Continues(PageAt(source, q, k))
    requires IsFetchResult(source, q, records, last)
    ensures last == k
    ensures records == Gathered(source, q, k) + Appended(PageAt(source, q, k))
  {
    assert last < k ==> Continues(PageAt(source, q, last));
    assert k < last ==> Continues(PageAt(source, q, k));
  }

  /** An error on page `k` ends the fetch with exactly the rows of pages `0 .. k-1`. */
  lemma ErrorKeepsEarlierPages<R>(source: Request -> PageResult<R>, q: Query, k: nat, records: seq<R>, last: nat)
    requires forall j: nat :: j < k ==> Continues(PageAt(source, q, j))
    requires PageAt(source, q, k).Failed?
    requires IsFetchResult(source, q, records, last)
    ensures last == k && records == Gathered(source, q, k)
  {
    StopsAtFirstShortPage(source, q, k, records, last);
  }

  /** An empty or missing page `k` ends the fetch without adding anything. */
  lemma EmptyPageEndsFetch<R>(source: Request -> PageResult<R>, q: Query, k: nat, records: seq<R>, last: nat)
    requires forall j: nat :: j < k ==> Continues(PageAt(source, q, j))
    requires PageAt(source, q, k) == NoData || PageAt(source, q, k) == Rows([])
    requires IsFetchResult(source, q, records, last)
    ensures last == k && records == Gathered(source, q, k)
  {
    StopsAtFirstShortPage(source, q, k, records, last);
  }

  /** A page of 1 to 999 rows is appended and is the last page requested. */
  lemma ShortPageIsLast<R>(source: Request -> PageResult<R>, q: Query, k: nat, records: seq<R>, last: nat)
    requires forall j: nat :: j < k ==> Continues(PageAt(source, q, j))
    requires PageAt(source, q, k).Rows? && 0 < |PageAt(source, q, k).rows| < PageSize
    requires IsFetchResult(source, q, records, last)
    ensures last == k && records == Gathered(source, q, k) + PageAt(source, q, k).rows
  {
    StopsAtFirstShortPage(source, q, k, records, last);
  }

  /**
   * Against a backend that honours the windows, every page before the last one holds
   * exactly 1000 rows, and row `i` of page `j` sits at position `j * 1000 + i` of the
   * accumulated result: pages are concatenated in fetch order, with nothing dropped,
   * repeated or reordered.
   */
  lemma {:induction false} GatheredLayout<R>(source: Request -> PageResult<R>, q: Query, k: nat)
    requires RespectsWindows(source)
    requires forall j: nat :: j < k ==> Continues(PageAt(source, q, j))
    ensures |Gathered(source, q, k)| == k * PageSize
    ensures forall j: nat :: j < k ==> |Appended(PageAt(source, q, j))| == PageSize
    ensures forall j: nat, i: nat :: j < k && i < PageSize ==>
              Gathered(source, q, k)[j * PageSize + i] == Appended(PageAt(source, q, j))[i]
  {
    if k > 0 {
      GatheredLayout(source, q, k - 1);
      var page := PageAt(source, q, k - 1);
      var before := Gathered(source, q, k - 1);
      assert Gathered(source, q, k) == before + page.rows;
      forall j: nat, i: nat | j < k && i < PageSize
        ensures Gathered(source, q, k)[j * PageSize + i] == Appended(PageAt(source, q, j))[i]
      {
        if j < k - 1 {
          assert j * PageSize + i < (k - 1) * PageSize;
        } else {
          assert j * PageSize + i == (k - 1) * PageSize + i;
        }
      }
    }
  }

  /** The fetched result has `last * 1000` rows from full pages plus those of the last page. */
  lemma FetchResultSize<R>(source: Request -> PageResult<R>, q: Query, records: seq<R>, last: nat)
    requires RespectsWindows(source)
    requires IsFetchResult(source, q, records, last)
    ensures |records| == last * PageSize + |Appended(PageAt(source, q, last))|
    ensures |Appended(PageAt(source, q, last))| < PageSize
  {
    GatheredLayout(source, q, last);
  }

  // ----- A finite backing table ----------------------------------------------------

  /** The rows of `table` inside window `w`, clipped to the table's end. */
  function WindowRows<R>(table: seq<R>, w: Window): seq<R>
  {
    var from := if w.first <= |table| then w.first else |table|;
    var to := if w.last + 1 <= |table| then w.last + 1 else |table|;
    if from <= to then table[from..to] else []
  }

  /** A backend holding the matching rows `table` and never failing. */
  function TableSource<R>(table: seq<R>): Request -> PageResult<R>
  {
    (req: Request) => Rows(WindowRows(table, req.window))
  }

  /** The table backend honours the windows. */
  lemma TableSourceRespectsWindows<R>(table: seq<R>)
    ensures RespectsWindows(TableSource(table))
  {
    forall q: Query, page: nat
      ensures |Appended(PageAt(TableSource(table), q, page))| <= PageSize
    {
    }
  }

  /** Against the table backend, page `j` of a table with at least `(j + 1) * 1000` rows is full. */
  lemma TablePage<R>(table: seq<R>, q: Query, j: nat)
    ensures (j + 1) * PageSize <= |table| ==>
              PageAt(TableSource(table), q, j) == Rows(table[j * PageSize .. (j + 1) * PageSize])
    ensures j * PageSize <= |table| < (j + 1) * PageSize ==>
              PageAt(TableSource(table), q, j) == Rows(table[j * PageSize ..])
  {
  }

  lemma {:induction false} TableGatheredPrefix<R>(table: seq<R>, q: Query, k: nat)
    requires k * PageSize <= |table|
    ensures Gathered(TableSource(table), q, k) == table[..k * PageSize]
  {
    if k > 0 {
      TableGatheredPrefix(table, q, k - 1);
      TablePage(table, q, k - 1);
      assert table[..(k - 1) * PageSize] + table[(k - 1) * PageSize .. k * PageSize] == table[..k * PageSize];
    }
  }

  /** The fetch from the table backend terminates: page `|table| / 1000` is short. */
  lemma TableSourceStops<R>(table: seq<R>, q: Query)
    ensures EventuallyStops(TableSource(table), q)
  {
    var n := |table| / PageSize;
    TablePage(table, q, n);
    assert !Continues(PageAt(TableSource(table), q, n));
  }

  /**
   * The doc-comment promise: against a finite table the fetcher returns all of its
   * records, in order, after `|table| / 1000 + 1` requests.
   */
  lemma TableSourceReturnsAll<R>(table: seq<R>, q: Query, records: seq<R>, last: nat)
    requires IsFetchResult(TableSource(table), q, records, last)
    ensures records == table
    ensures last == |table| / PageSize
  {
    var n := |table| / PageSize;
    forall j: nat | j < n
      ensures Continues(PageAt(TableSource(table), q, j))
    {
      assert (j + 1) * PageSize <= n * PageSize;
      TablePage(table, q, j);
    }
    TablePage(table, q, n);
    StopsAtFirstShortPage(TableSource(table), q, n, records, last);
    TableGatheredPrefix(table, q, n);
    assert table[..n * PageSize] + table[n * PageSize..] == table;
  }

  /** A table of 3400 rows comes back whole after four requests (pages 0 to 3). */
  lemma FourPagesExample<R>(table: seq<R>, q: Query, records: seq<R>, last: nat)
    requires |table| == 3400
    requires IsFetchResult(TableSource(table), q, records, last)
    ensures |records| == 3400 && records == table
    ensures last == 3
  {
    TableSourceReturnsAll(table, q, records, last);
  }

  /** Fetching any query from a finite table yields the whole table. */
  method FetchWholeTable<R>(table: seq<R>, tableName: string, selectFields: string, filters: Option<Filters>)
    returns (records: seq<R>)
    ensures records == table
  {
    TableSourceStops(table, Query(tableName, selectFields, ChooseFilter(filters)));
    records := GetAllRecordsWithPagination(TableSource(table), tableName, selectFields, filters);
    ghost var last: nat :| IsFetchResult(TableSource(table), Query(tableName, selectFields, ChooseFilter(filters)), records, last);
    TableSourceReturnsAll(table, Query(tableName, selectFields, ChooseFilter(filters)), records, last);
  }
}
