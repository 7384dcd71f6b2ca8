/** The multi-page ingest loop (src/tools.rs): it asks an upstream for one page after another until one
    of its stop conditions holds, within page and row limits. */
module Ingest {
  import opened Basics
  import opened Cursors

  const MAX_SCRATCHPAD_INGEST_ROWS: nat := 100_000
  const DEFAULT_SCRATCHPAD_INGEST_PAGE_SIZE: nat := MAX_TABULAR_MAX_ROWS
  const MAX_SCRATCHPAD_INGEST_PAGES: nat := 128

  /** A page as the upstream answers it: its rows and the total row count it reports. */
  datatype Answer<T> = Answer(rows: seq<T>, total: nat)

  /** The upstream's answer to call `k` for `limit` rows at `offset`; None is a failed request. */
  type Upstream<!T> = (nat, nat, nat) -> Option<Answer<T>>

  datatype IngestError = TooManyPages | TooManyRows | RequestFailed

  /** The variables of the loop. */
  datatype Progress<T> = Progress(pages: nat, offset: nat, remaining: Option<nat>, rows: seq<T>, total: nat)

  datatype Collected<T> = Collected(rows: seq<T>, total: nat, pages: nat, pageSize: nat, finalOffset: nat, complete: bool)

  function ResolveIngestPageSize(maxRows: Option<nat>, requestedLimit: Option<nat>): (p: nat)
    ensures 1 <= p <= MAX_TABULAR_MAX_ROWS
    ensures requestedLimit.Some? ==> p <= Max(requestedLimit.value, 1)
  {
    var p := Min(Max(if maxRows.Some? then maxRows.value else DEFAULT_SCRATCHPAD_INGEST_PAGE_SIZE, 1), MAX_TABULAR_MAX_ROWS);
    if requestedLimit.Some? then Min(p, Max(requestedLimit.value, 1)) else p
  }

  /** A page size that the arguments allow: at most 25,000 rows, `maxRows` and the limit, each of the last two counting
      as one at the least. */
  predicate Permits(maxRows: Option<nat>, requestedLimit: Option<nat>, p: nat) {
    && 1 <= p <= 25_000
    && (maxRows.Some? ==> p <= if maxRows.value == 0 then 1 else maxRows.value)
    && (requestedLimit.Some? ==> p <= if requestedLimit.value == 0 then 1 else requestedLimit.value)
  }

  ghost predicate IsPageSize(maxRows: Option<nat>, requestedLimit: Option<nat>, p: nat) {
    Permits(maxRows, requestedLimit, p) && forall q: nat | Permits(maxRows, requestedLimit, q) :: q <= p
  }

  /** The page size is the largest one allowed. */
  lemma PageSizeIsLargest(maxRows: Option<nat>, requestedLimit: Option<nat>)
    ensures IsPageSize(maxRows, requestedLimit, ResolveIngestPageSize(maxRows, requestedLimit))
  {}

  function Start<T>(offset: nat, limit: Option<nat>): Progress<T> { Progress(0, offset, limit, [], 0) }

  function RequestLimit<T>(pageSize: nat, p: Progress<T>): nat {
    if p.remaining.Some? then Min(p.remaining.value, pageSize) else pageSize
  }

  /** One page taken in. */
  function Absorb<T>(p: Progress<T>, a: Answer<T>): Progress<T> {
    Progress(p.pages + 1, SaturatingAdd(p.offset, |a.rows|),
             if p.remaining.Some? then Some(SaturatingSub(p.remaining.value, |a.rows|)) else None,
             p.rows + a.rows, Max(p.total, a.total))
  }

  /** Nothing came, the upstream's end was reached, the page was short, or the requested rows are all there. */
  predicate Ends<T>(q: Progress<T>, returned: nat, requested: nat) {
    returned == 0 || q.offset >= q.total || returned < requested || q.remaining == Some(0)
  }

  /** What the loop arrives at from `p`. */
  function Loop<T>(up: Upstream<T>, pageSize: nat, p: Progress<T>): Result<Progress<T>, IngestError>
    decreases MAX_SCRATCHPAD_INGEST_PAGES - p.pages
  {
    if p.pages >= MAX_SCRATCHPAD_INGEST_PAGES then Err(TooManyPages)
    else
      var requested := RequestLimit(pageSize, p);
      if requested == 0 then Ok(p)
      else match up(p.pages, p.offset, requested)
        case None => Err(RequestFailed)
        case Some(a) =>
          if |p.rows| + |a.rows| > MAX_SCRATCHPAD_INGEST_ROWS then Err(TooManyRows)
          else
            var q := Absorb(p, a);
            if Ends(q, |a.rows|, requested) then Ok(q) else Loop(up, pageSize, q)
  }

  function Finish<T>(pageSize: nat, p: Progress<T>): Collected<T> {
    var total := Max(p.total, |p.rows|);
    Collected(p.rows, total, p.pages, pageSize, p.offset, p.remaining == Some(0) || p.offset >= total)
  }

  function Collect<T>(up: Upstream<T>, offset: nat, limit: Option<nat>, maxRows: Option<nat>): Result<Collected<T>, IngestError> {
    var pageSize := ResolveIngestPageSize(maxRows, limit);
    match Loop(up, pageSize, Start(offset, limit))
    case Err(e) => Err(e)
    case Ok(p) => Ok(Finish(pageSize, p))
  }

  method CollectForIngest<T>(up: Upstream<T>, offset: nat, limit: Option<nat>, maxRows: Option<nat>)
    returns (r: Result<Collected<T>, IngestError>)
    ensures r == Collect(up, offset, limit, maxRows)
  {
    var pageSize := ResolveIngestPageSize(maxRows, limit);
    var nextOffset: nat := offset;
    var remaining := limit;
    var pagesFetched: nat := 0;
    var collected: seq<T> := [];
    var rowCountTotal: nat := 0;
    ghost var goal := Loop(up, pageSize, Start(offset, limit));
    var ended := false;
    while !ended
      invariant pagesFetched <= MAX_SCRATCHPAD_INGEST_PAGES
      invariant var p := Progress(pagesFetched, nextOffset, remaining, collected, rowCountTotal);
                goal == if ended then Ok(p) else Loop(up, pageSize, p)
      decreases !ended, MAX_SCRATCHPAD_INGEST_PAGES - pagesFetched
    {
      if pagesFetched >= MAX_SCRATCHPAD_INGEST_PAGES {
        return Err(TooManyPages);
      }
      var requestLimit: nat := if remaining.Some? then Min(remaining.value, pageSize) else pageSize;
      if requestLimit == 0 {
        ended := true;
      } else {
        var answer := up(pagesFetched, nextOffset, requestLimit);
        if answer.None? {
          return Err(RequestFailed);
        }
        pagesFetched := pagesFetched + 1;
        rowCountTotal := Max(rowCountTotal, answer.value.total);
        var returned := |answer.value.rows|;
        if |collected| + returned > MAX_SCRATCHPAD_INGEST_ROWS {
          return Err(TooManyRows);
        }
        collected := collected + answer.value.rows;
        nextOffset := SaturatingAdd(nextOffset, returned);
        if remaining.Some? {
          remaining := Some(SaturatingSub(remaining.value, returned));
        }
        ended := returned == 0 || nextOffset >= rowCountTotal || returned < requestLimit || remaining == Some(0);
      }
    }
    rowCountTotal := Max(rowCountTotal, |collected|);
    var complete := remaining == Some(0) || nextOffset >= rowCountTotal;
    return Ok(Collected(collected, rowCountTotal, pagesFetched, pageSize, nextOffset, complete));
  }

  // ---------- against any upstream ----------

  lemma {:induction false} LoopBounds<T>(up: Upstream<T>, pageSize: nat, p: Progress<T>, start: nat)
    requires Loop(up, pageSize, p).Ok?
    requires |p.rows| <= MAX_SCRATCHPAD_INGEST_ROWS && start + MAX_SCRATCHPAD_INGEST_ROWS <= U64_MAX
    requires p.offset == start + |p.rows|
    ensures var q := Loop(up, pageSize, p).value;
            && q.pages <= MAX_SCRATCHPAD_INGEST_PAGES && |q.rows| <= MAX_SCRATCHPAD_INGEST_ROWS
            && q.offset == start + |q.rows| && p.rows <= q.rows
    decreases MAX_SCRATCHPAD_INGEST_PAGES - p.pages
  {
    var requested := RequestLimit(pageSize, p);
    if requested != 0 {
      var a := up(p.pages, p.offset, requested).value;
      var q := Absorb(p, a);
      if !Ends(q, |a.rows|, requested) { LoopBounds(up, pageSize, q, start); }
    }
  }

  /** Whatever the upstream answers, an ingest that succeeds took at most 128 pages and 100000 rows, and
      its final offset is the initial one plus the rows collected. */
  lemma CollectBounds<T>(up: Upstream<T>, offset: nat, limit: Option<nat>, maxRows: Option<nat>)
    requires offset <= MAX_CURSOR_OFFSET && Collect(up, offset, limit, maxRows).Ok?
    ensures var c := Collect(up, offset, limit, maxRows).value;
            && c.pages <= 128 && |c.rows| <= 100_000
            && c.finalOffset == offset + |c.rows| && |c.rows| <= c.total
  {
    LoopBounds(up, ResolveIngestPageSize(maxRows, limit), Start(offset, limit), offset);
  }

  // ---------- against slices of a fixed table ----------

  ghost predicate ServesSlices<T(!new)>(up: Upstream<T>, table: seq<T>) {
    forall k, offset, n :: up(k, offset, n) == Some(Answer(Slice(table, offset, n), |table|))
  }

  /** The rows asked for that there are. */
  function Wanted<T>(table: seq<T>, offset: nat, limit: Option<nat>): nat {
    var rest := Max(|table| - offset, 0);
    if limit.Some? then Min(limit.value, rest) else rest
  }

  /** Where the loop is after some full pages of a table that has more. */
  ghost predicate OnTrack<T>(table: seq<T>, offset: nat, limit: Option<nat>, pageSize: nat, p: Progress<T>) {
    && p.pages <= MAX_SCRATCHPAD_INGEST_PAGES
    && |p.rows| == p.pages * pageSize
    && p.rows == Slice(table, offset, |p.rows|)
    && p.offset == offset + |p.rows|
    && p.remaining == (if limit.Some? then Some(limit.value - |p.rows|) else None)
    && (p.pages > 0 ==> |p.rows| < Wanted(table, offset, limit) && p.total == |table|)
    && (p.pages == 0 ==> p.total == 0 && limit != Some(0))
    && |p.rows| <= MAX_SCRATCHPAD_INGEST_ROWS
  }

  /** The end of a successful ingest: exactly the wanted rows, in the fewest pages. */
  ghost predicate Exact<T>(table: seq<T>, offset: nat, limit: Option<nat>, pageSize: nat, q: Progress<T>) {
    var wanted := Wanted(table, offset, limit);
    && q.rows == Slice(table, offset, wanted)
    && q.offset == offset + wanted
    && q.pages >= 1 && (q.pages - 1) * pageSize <= wanted <= q.pages * pageSize
    && (q.pages > 1 ==> (q.pages - 1) * pageSize < wanted)
    && q.total == |table|
    && q.remaining == (if limit.Some? then Some(limit.value - wanted) else None)
  }

  predicate Fits(wanted: nat, pageSize: nat) {
    wanted <= MAX_SCRATCHPAD_INGEST_ROWS && wanted <= MAX_SCRATCHPAD_INGEST_PAGES * pageSize
  }

  lemma TakePage<T>(table: seq<T>, offset: nat, limit: Option<nat>, pageSize: nat, p: Progress<T>) returns (q: Progress<T>)
    requires |table| <= U64_MAX && offset <= U64_MAX && pageSize >= 1
    requires OnTrack(table, offset, limit, pageSize, p) && p.pages < MAX_SCRATCHPAD_INGEST_PAGES
    requires |p.rows| + |Slice(table, p.offset, RequestLimit(pageSize, p))| <= MAX_SCRATCHPAD_INGEST_ROWS
    ensures q == Absorb(p, Answer(Slice(table, p.offset, RequestLimit(pageSize, p)), |table|))
    ensures q.pages == p.pages + 1 && |q.rows| <= MAX_SCRATCHPAD_INGEST_ROWS
    ensures var returned, requested := |Slice(table, p.offset, RequestLimit(pageSize, p))|, RequestLimit(pageSize, p);
            if Ends(q, returned, requested)
            then Exact(table, offset, limit, pageSize, q)
            else OnTrack(table, offset, limit, pageSize, q)
  {
    hide Slice;
    var requested := RequestLimit(pageSize, p);
    var page := Slice(table, p.offset, requested);
    q := Absorb(p, Answer(page, |table|));
    RowsJoin(table, offset, |p.rows|, requested);
    NextPage(p.pages, pageSize);
  }

  lemma NextPage(pages: nat, pageSize: nat)
    ensures (pages + 1) * pageSize == pages * pageSize + pageSize
  {}

  lemma RowsJoin<T>(table: seq<T>, offset: nat, got: nat, n: nat)
    requires got == 0 || offset + got <= |table|
    ensures var page := Slice(table, offset + got, n);
            Slice(table, offset, got) + page == Slice(table, offset, got + |page|)
  {}

  lemma LoopTurn<T(!new)>(up: Upstream<T>, table: seq<T>, pageSize: nat, p: Progress<T>)
    requires ServesSlices(up, table)
    ensures var requested := RequestLimit(pageSize, p);
            var page := Slice(table, p.offset, requested);
            var q := Absorb(p, Answer(page, |table|));
            Loop(up, pageSize, p) ==
            if p.pages >= MAX_SCRATCHPAD_INGEST_PAGES then Err(TooManyPages)
            else if requested == 0 then Ok(p)
            else if |p.rows| + |page| > MAX_SCRATCHPAD_INGEST_ROWS then Err(TooManyRows)
            else if Ends(q, |page|, requested) then Ok(q) else Loop(up, pageSize, q)
  {
    var requested := RequestLimit(pageSize, p);
    assert up(p.pages, p.offset, requested) == Some(Answer(Slice(table, p.offset, requested), |table|));
  }

  /** The error, if it comes to one: the page limit when it binds before the row limit can. */
  function LimitError(pageSize: nat): IngestError {
    if MAX_SCRATCHPAD_INGEST_PAGES * pageSize <= MAX_SCRATCHPAD_INGEST_ROWS then TooManyPages else TooManyRows
  }

  lemma TooMuch<T>(table: seq<T>, offset: nat, limit: Option<nat>, pageSize: nat, p: Progress<T>)
    requires OnTrack(table, offset, limit, pageSize, p) && pageSize >= 1
    ensures p.pages >= MAX_SCRATCHPAD_INGEST_PAGES ==>
              !Fits(Wanted(table, offset, limit), pageSize) && LimitError(pageSize) == TooManyPages
    ensures p.pages < MAX_SCRATCHPAD_INGEST_PAGES
            && |p.rows| + |Slice(table, p.offset, RequestLimit(pageSize, p))| > MAX_SCRATCHPAD_INGEST_ROWS ==>
              !Fits(Wanted(table, offset, limit), pageSize) && LimitError(pageSize) == TooManyRows
  {
    if p.pages < MAX_SCRATCHPAD_INGEST_PAGES {
      PagesFit(p.pages + 1, pageSize);
      assert (p.pages + 1) * pageSize == p.pages * pageSize + pageSize;
    }
  }

  lemma {:induction false} LoopIsExact<T(!new)>(up: Upstream<T>, table: seq<T>, offset: nat, limit: Option<nat>,
                                                pageSize: nat, p: Progress<T>)
    requires ServesSlices(up, table) && |table| <= U64_MAX && offset <= U64_MAX && pageSize >= 1
    requires OnTrack(table, offset, limit, pageSize, p)
    ensures Loop(up, pageSize, p).Ok? <==> Fits(Wanted(table, offset, limit), pageSize)
    ensures Loop(up, pageSize, p).Ok? ==> Exact(table, offset, limit, pageSize, Loop(up, pageSize, p).value)
    ensures Loop(up, pageSize, p).Err? ==> Loop(up, pageSize, p).error == LimitError(pageSize)
    decreases MAX_SCRATCHPAD_INGEST_PAGES - p.pages
  {
    hide Loop, Ends, Absorb, Slice, OnTrack, Exact, LimitError;
    LoopTurn(up, table, pageSize, p);
    TooMuch(table, offset, limit, pageSize, p);
    AsksSome(table, offset, limit, pageSize, p);
    var requested := RequestLimit(pageSize, p);
    var page := Slice(table, p.offset, requested);
    if p.pages < MAX_SCRATCHPAD_INGEST_PAGES && |p.rows| + |page| <= MAX_SCRATCHPAD_INGEST_ROWS {
      var q := TakePage(table, offset, limit, pageSize, p);
      if !Ends(q, |page|, requested) { LoopIsExact(up, table, offset, limit, pageSize, q); }
      else { ExactFits(table, offset, limit, pageSize, q); }
    }
  }

  lemma AsksSome<T>(table: seq<T>, offset: nat, limit: Option<nat>, pageSize: nat, p: Progress<T>)
    requires OnTrack(table, offset, limit, pageSize, p) && pageSize >= 1
    ensures RequestLimit(pageSize, p) > 0
  {}

  lemma ExactFits<T>(table: seq<T>, offset: nat, limit: Option<nat>, pageSize: nat, q: Progress<T>)
    requires Exact(table, offset, limit, pageSize, q)
    requires q.pages <= MAX_SCRATCHPAD_INGEST_PAGES && |q.rows| <= MAX_SCRATCHPAD_INGEST_ROWS
    ensures Fits(Wanted(table, offset, limit), pageSize)
  {
    PagesFit(q.pages, pageSize);
  }

  lemma PagesFit(pages: nat, pageSize: nat)
    requires pages <= MAX_SCRATCHPAD_INGEST_PAGES
    ensures pages * pageSize <= MAX_SCRATCHPAD_INGEST_PAGES * pageSize
  {}

  /** Over an upstream that serves slices of a fixed table an ingest succeeds exactly when the wanted rows
      are at most 100,000 and at most 128 pages of the size that the arguments allow; then it has exactly those rows, in
      order, in as few pages as hold them (one if there are none), and is complete. */
  lemma IngestIsExact<T(!new)>(up: Upstream<T>, table: seq<T>, offset: nat, limit: Option<nat>, maxRows: Option<nat>, pageSize: nat)
    requires ServesSlices(up, table) && |table| <= U64_MAX && offset <= U64_MAX && limit != Some(0)
    requires IsPageSize(maxRows, limit, pageSize)
    ensures var r, wanted := Collect(up, offset, limit, maxRows), Wanted(table, offset, limit);
            && (r.Ok? <==> wanted <= 100_000 && wanted <= 128 * pageSize)
            && (r.Ok? ==>
                  && r.value.rows == Slice(table, offset, wanted) && r.value.pageSize == pageSize
                  && r.value.complete && r.value.total == |table| && r.value.finalOffset == offset + wanted
                  && r.value.pages >= 1 && wanted <= r.value.pages * pageSize
                  && (r.value.pages > 1 ==> (r.value.pages - 1) * pageSize < wanted))
            && (r.Err? ==> r.error == if 128 * pageSize <= 100_000 then TooManyPages else TooManyRows)
  {
    PageSizeIsLargest(maxRows, limit);
    assert pageSize == ResolveIngestPageSize(maxRows, limit);
    assert 0 * pageSize == 0;
    LoopIsExact(up, table, offset, limit, pageSize, Start(offset, limit));
  }

  /** With neither a limit nor a page size given, an ingest takes pages of 25,000 rows and succeeds exactly when at most
      100,000 rows are left from the offset on. */
  lemma DefaultIngest<T(!new)>(up: Upstream<T>, table: seq<T>, offset: nat)
    requires ServesSlices(up, table) && |table| <= U64_MAX && offset <= U64_MAX
    ensures var r := Collect(up, offset, None, None);
            var wanted := if offset >= |table| then 0 else |table| - offset;
            && (r.Ok? <==> wanted <= 100_000)
            && (r.Ok? ==>
                  r.value.rows == (if offset >= |table| then [] else table[offset..])
                  && r.value.pages == if wanted == 0 then 1 else (wanted + 24_999) / 25_000)
            && (r.Err? ==> r.error == TooManyRows)
  {
    hide Collect;
    IngestIsExact(up, table, offset, None, None, 25_000);
  }

  /** A limit of zero, which report validation refuses, asks nothing and collects nothing. */
  lemma ZeroLimitAsksNothing<T(!new)>(up: Upstream<T>, offset: nat, maxRows: Option<nat>)
    ensures Collect(up, offset, Some(0), maxRows) == Ok(Collected([], 0, 0, 1, offset, true))
  {}
}
