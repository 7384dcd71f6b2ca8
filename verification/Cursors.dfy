/** Report pagination (src/tools.rs): cursor text, window resolution, and walks that follow cursors. */
module Cursors {
  import opened Basics
  import opened Numerals

  const MAX_REPORT_LIMIT: nat := 250_000
  const MAX_CURSOR_OFFSET: nat := MAX_REPORT_LIMIT * 10
  const DEFAULT_TABULAR_MAX_ROWS: nat := 200
  const MAX_TABULAR_MAX_ROWS: nat := 25_000

  datatype Error = BadFormat | BadOffset | EmptyHash | OffsetWithCursor | QueryMismatch | OffsetTooHigh

  datatype Token = Token(queryHash: string, offset: nat)

  // ---------- the cursor text ----------

  function EncodeCursor(queryHash: string, offset: nat): string { "v1:" + queryHash + ":" + ToDecimal(offset) }

  function FirstColon(s: string): (i: Option<nat>)
    ensures i.None? <==> ':' !in s
    ensures i.Some? ==> i.value < |s| && s[i.value] == ':' && ':' !in s[..i.value]
  {
    if s == "" then None
    else if s[0] == ':' then Some(0)
    else match FirstColon(s[1..])
      case None => None
      case Some(i) =>
        assert s[..i + 1] == [s[0]] + s[1..][..i];
        Some(i + 1)
  }

  /** Split at the first two colons; the third part keeps any further ones. */
  function DecodeCursor(raw: string): Result<Token, Error> {
    match FirstColon(raw)
    case None => Err(BadFormat)
    case Some(i) =>
      var rest := raw[i + 1..];
      match FirstColon(rest)
      case None => Err(BadFormat)
      case Some(j) =>
        if raw[..i] != "v1" then Err(BadFormat)
        else match ParseU64(rest[j + 1..])
          case None => Err(BadOffset)
          case Some(offset) => if Trim(rest[..j]) == "" then Err(EmptyHash) else Ok(Token(rest[..j], offset))
  }

  lemma {:induction false} ColonAt(s: string, t: string)
    requires ':' !in s
    ensures FirstColon(s + ":" + t) == Some(|s|)
  {
    var u := s + ":" + t;
    if s == "" {
      assert u == ":" + t && u[0] == ':';
    } else {
      assert s[0] in s && u[0] == s[0];
      assert u[1..] == s[1..] + ":" + t;
      ColonAt(s[1..], t);
    }
  }

  lemma DecodeParts(queryHash: string, text: string)
    requires ':' !in queryHash
    ensures DecodeCursor("v1:" + queryHash + ":" + text) ==
            match ParseU64(text)
            case None => Err(BadOffset)
            case Some(offset) => if Trim(queryHash) == "" then Err(EmptyHash) else Ok(Token(queryHash, offset))
  {
    var raw, rest := "v1:" + queryHash + ":" + text, queryHash + ":" + text;
    assert raw == "v1" + ":" + rest && raw[3..] == rest && raw[..2] == "v1";
    ColonAt("v1", rest);
    ColonAt(queryHash, text);
    assert rest[|queryHash| + 1..] == text && rest[..|queryHash|] == queryHash;
  }

  /** A cursor decodes to what it was encoded from exactly for hashes that have no colon and are not blank. */
  lemma CursorRoundTrip(queryHash: string, offset: nat)
    requires offset <= U64_MAX
    ensures DecodeCursor(EncodeCursor(queryHash, offset)) == Ok(Token(queryHash, offset)) <==>
            ':' !in queryHash && Trim(queryHash) != ""
  {
    var raw := EncodeCursor(queryHash, offset);
    if ':' in queryHash {
      assert raw == "v1" + ":" + (queryHash + ":" + ToDecimal(offset));
      ColonAt("v1", queryHash + ":" + ToDecimal(offset));
      if DecodeCursor(raw).Ok? { assert ':' !in DecodeCursor(raw).value.queryHash; }
    } else {
      DecodeParts(queryHash, ToDecimal(offset));
      ParseDecimal(offset);
    }
  }

  /** Whatever text was accepted, encoding its token again gives a cursor for the same token. */
  lemma AcceptedReencodes(raw: string)
    requires DecodeCursor(raw).Ok?
    ensures var t := DecodeCursor(raw).value; DecodeCursor(EncodeCursor(t.queryHash, t.offset)) == Ok(t)
  {
    var t := DecodeCursor(raw).value;
    CursorRoundTrip(t.queryHash, t.offset);
  }

  /** The form of a cursor: version, hash without colons, and the rest. */
  ghost predicate HasForm(raw: string, queryHash: string, text: string) {
    ':' !in queryHash && raw == "v1:" + queryHash + ":" + text
  }

  /** What every text decodes to: an error of format unless it has the form; then the offset is judged before the hash. */
  lemma DecodeIsExact(raw: string)
    ensures forall queryHash, text | HasForm(raw, queryHash, text) ::
              DecodeCursor(raw) == match ParseU64(text)
                                   case None => Err(BadOffset)
                                   case Some(offset) =>
                                     if Trim(queryHash) == "" then Err(EmptyHash) else Ok(Token(queryHash, offset))
    ensures DecodeCursor(raw) == Err(BadFormat) <==> !exists queryHash, text :: HasForm(raw, queryHash, text)
  {
    hide ParseU64, Trim;
    forall queryHash, text | HasForm(raw, queryHash, text)
      ensures DecodeCursor(raw) == match ParseU64(text)
                                   case None => Err(BadOffset)
                                   case Some(offset) =>
                                     if Trim(queryHash) == "" then Err(EmptyHash) else Ok(Token(queryHash, offset))
    {
      DecodeParts(queryHash, text);
    }
    if DecodeCursor(raw) != Err(BadFormat) { FormOf(raw); }
  }

  lemma FormOf(raw: string)
    requires DecodeCursor(raw) != Err(BadFormat)
    ensures exists queryHash, text :: HasForm(raw, queryHash, text)
  {
    hide ParseU64, Trim, FirstColon;
    var i := FirstColon(raw).value;
    var rest := raw[i + 1..];
    var j := FirstColon(rest).value;
    CutAt(raw, i);
    CutAt(rest, j);
    assert raw[..i] == "v1";
    hide DecodeCursor;
    Regrouped(rest[..j], rest[j + 1..]);
    assert HasForm(raw, rest[..j], rest[j + 1..]);
  }

  lemma CutAt(s: string, i: nat)
    requires i < |s| && s[i] == ':'
    ensures s == s[..i] + ":" + s[i + 1..]
  {}

  lemma Regrouped(queryHash: string, text: string)
    ensures "v1" + ":" + (queryHash + ":" + text) == "v1:" + queryHash + ":" + text
  {}

  // ---------- the window ----------

  /** Row controls of one request. */
  datatype Controls = Controls(maxRows: Option<nat>, limit: Option<nat>)

  function PageSize(ctl: Controls): (p: nat)
    ensures 1 <= p <= MAX_TABULAR_MAX_ROWS
  {
    var p := Max(if ctl.maxRows.Some? then ctl.maxRows.value else DEFAULT_TABULAR_MAX_ROWS, 1);
    var q := if ctl.limit.Some? then Min(p, ctl.limit.value) else p;
    Min(Max(q, 1), MAX_TABULAR_MAX_ROWS)
  }

  /** A page size that the controls allow: at most 25,000 rows, the rows asked for (200 if not said) and the limit, each
      of the last two counting as one at the least. */
  predicate Allows(ctl: Controls, p: nat) {
    && 1 <= p <= 25_000
    && p <= (match ctl.maxRows case None => 200 case Some(n) => if n == 0 then 1 else n)
    && (ctl.limit.Some? ==> p <= if ctl.limit.value == 0 then 1 else ctl.limit.value)
  }

  /** The page size is the largest one allowed. */
  lemma PageSizeIsLargest(ctl: Controls)
    ensures Allows(ctl, PageSize(ctl)) && forall p: nat | Allows(ctl, p) :: p <= PageSize(ctl)
  {}

  function ResolveCursorWindow(queryHash: string, cursor: Option<string>, requestedOffset: Option<nat>,
                               ctl: Controls): Result<(nat, nat), Error> {
    match cursor
    case None => Ok((if requestedOffset.Some? then requestedOffset.value else 0, PageSize(ctl)))
    case Some(raw) =>
      if requestedOffset.Some? then Err(OffsetWithCursor)
      else match DecodeCursor(raw)
        case Err(e) => Err(e)
        case Ok(token) =>
          if token.queryHash != queryHash then Err(QueryMismatch)
          else if token.offset > MAX_CURSOR_OFFSET then Err(OffsetTooHigh)
          else Ok((token.offset, PageSize(ctl)))
  }

  /** The window of a request that carries the cursor of a page, or none. */
  lemma WindowIsExact(queryHash: string, issuedFor: string, offset: nat, requestedOffset: Option<nat>, ctl: Controls)
    requires ':' !in issuedFor && Trim(issuedFor) != "" && offset <= U64_MAX
    ensures ResolveCursorWindow(queryHash, Some(EncodeCursor(issuedFor, offset)), requestedOffset, ctl) ==
            if requestedOffset.Some? then Err(OffsetWithCursor)
            else if issuedFor != queryHash then Err(QueryMismatch)
            else if offset > 2_500_000 then Err(OffsetTooHigh)
            else Ok((offset, PageSize(ctl)))
    ensures ResolveCursorWindow(queryHash, None, requestedOffset, ctl) ==
            Ok((if requestedOffset.Some? then requestedOffset.value else 0, PageSize(ctl)))
  {
    CursorRoundTrip(issuedFor, offset);
  }

  // ---------- pages ----------

  /** `LIMIT n OFFSET offset` of a fixed result; the upstream report API serves the same slices. */
  function Slice<T>(rows: seq<T>, offset: nat, n: nat): (s: seq<T>)
    ensures |s| == Min(n, Max(|rows| - offset, 0))
  {
    if offset >= |rows| then [] else rows[offset..Min(offset + n, |rows|)]
  }

  function Skip<T>(rows: seq<T>, n: nat): seq<T> { if n == 0 || rows == [] then rows else Skip(rows[1..], n - 1) }

  function Take<T>(rows: seq<T>, n: nat): seq<T> { if n == 0 || rows == [] then [] else [rows[0]] + Take(rows[1..], n - 1) }

  /** Paging in memory, with iterators that skip and take, gives the same page as paging in SQL. */
  lemma {:induction false} InMemoryIsWrapped<T>(rows: seq<T>, offset: nat, n: nat)
    ensures Take(Skip(rows, offset), n) == Slice(rows, offset, n)
    decreases offset, n
  {
    if rows != [] && offset > 0 {
      InMemoryIsWrapped(rows[1..], offset - 1, n);
    } else if rows != [] && n > 0 {
      InMemoryIsWrapped(rows[1..], 0, n - 1);
      assert Skip(rows[1..], 0) == rows[1..];
    }
  }

  /** next_cursor of a report page. */
  function NextCursor(queryHash: string, offset: nat, returned: nat, total: nat): Option<string> {
    var next := SaturatingAdd(offset, returned);
    if returned > 0 && next < total then Some(EncodeCursor(queryHash, next)) else None
  }

  /** next_cursor of a scratchpad query page, which does not ask whether rows came back. */
  function NextQueryCursor(queryHash: string, offset: nat, returned: nat, total: nat): Option<string> {
    var next := SaturatingAdd(offset, returned);
    if next < total then Some(EncodeCursor(queryHash, next)) else None
  }

  /** On a page of a fixed result the two agree: a page is empty only past the end. */
  lemma CursorsAgree<T>(rows: seq<T>, queryHash: string, offset: nat, ctl: Controls)
    requires |rows| <= U64_MAX
    ensures var returned := |Slice(rows, offset, PageSize(ctl))|;
            NextQueryCursor(queryHash, offset, returned, |rows|) == NextCursor(queryHash, offset, returned, |rows|)
  {}

  datatype Page<T> = Page(rows: seq<T>, next: Option<string>)

  function Fetch<T>(rows: seq<T>, queryHash: string, cursor: Option<string>, offset: Option<nat>,
                    ctl: Controls): Result<Page<T>, Error> {
    match ResolveCursorWindow(queryHash, cursor, offset, ctl)
    case Err(e) => Err(e)
    case Ok((o, n)) =>
      var page := Slice(rows, o, n);
      Ok(Page(page, NextCursor(queryHash, o, |page|, |rows|)))
  }

  // ---------- walks ----------

  datatype End = Done | More | Stopped(error: Error)

  datatype Trail<T> = Trail(rows: seq<T>, end: End)

  /** Follow next_cursor with the row controls chosen for each request, until they run out. */
  function Walk<T>(rows: seq<T>, queryHash: string, cursor: Option<string>, offset: Option<nat>,
                   ctls: seq<Controls>): Trail<T>
    decreases |ctls|
  {
    if ctls == [] then Trail([], More)
    else match Fetch(rows, queryHash, cursor, offset, ctls[0])
      case Err(e) => Trail([], Stopped(e))
      case Ok(page) =>
        if page.next.None? then Trail(page.rows, Done)
        else
          var tail := Walk(rows, queryHash, page.next, None, ctls[1..]);
          Trail(page.rows + tail.rows, tail.end)
  }

  ghost predicate StartsAt(queryHash: string, cursor: Option<string>, offset: Option<nat>, at: nat) {
    match cursor
    case None => at == if offset.Some? then offset.value else 0
    case Some(raw) => offset.None? && raw == EncodeCursor(queryHash, at)
  }

  lemma FetchAt<T>(rows: seq<T>, queryHash: string, cursor: Option<string>, offset: Option<nat>, ctl: Controls, at: nat)
    requires ':' !in queryHash && Trim(queryHash) != "" && at <= U64_MAX && StartsAt(queryHash, cursor, offset, at)
    ensures Fetch(rows, queryHash, cursor, offset, ctl) ==
            if cursor.Some? && at > MAX_CURSOR_OFFSET then Err(OffsetTooHigh)
            else
              var page := Slice(rows, at, PageSize(ctl));
              Ok(Page(page, NextCursor(queryHash, at, |page|, |rows|)))
  {
    CursorRoundTrip(queryHash, at);
  }

  /** The first request of a walk that starts at offset `at`. */
  lemma WalkTurn<T>(rows: seq<T>, queryHash: string, cursor: Option<string>, offset: Option<nat>,
                    ctls: seq<Controls>, at: nat)
    requires ':' !in queryHash && Trim(queryHash) != "" && |rows| <= U64_MAX && at <= U64_MAX && ctls != []
    requires StartsAt(queryHash, cursor, offset, at) && (cursor.Some? ==> at < |rows|)
    ensures var w := Walk(rows, queryHash, cursor, offset, ctls);
            var n := PageSize(ctls[0]);
            if cursor.Some? && at > MAX_CURSOR_OFFSET then w == Trail([], Stopped(OffsetTooHigh))
            else if at + n < |rows| then
              var tail := Walk(rows, queryHash, Some(EncodeCursor(queryHash, at + n)), None, ctls[1..]);
              w == Trail(Slice(rows, at, n) + tail.rows, tail.end)
            else w == Trail(Slice(rows, at, n), Done)
  {
    hide Fetch, PageSize, EncodeCursor, Slice;
    FetchAt(rows, queryHash, cursor, offset, ctls[0], at);
  }

  lemma SliceJoins<T>(rows: seq<T>, at: nat, m: nat, n: nat)
    requires at + m <= |rows|
    ensures Slice(rows, at, m) + Slice(rows, at + m, n) == Slice(rows, at, m + n)
  {}

  /** A walk over a fixed result returns the rows from its start on, in order, without gap or repeat; it
      is finished when it has them all, and stops early only at a cursor past the highest accepted offset. */
  lemma {:induction false} WalkIsPrefix<T>(rows: seq<T>, queryHash: string, cursor: Option<string>, offset: Option<nat>,
                                           ctls: seq<Controls>, at: nat)
    requires ':' !in queryHash && Trim(queryHash) != "" && |rows| <= U64_MAX && at <= U64_MAX
    requires StartsAt(queryHash, cursor, offset, at) && (cursor.Some? ==> at < |rows|)
    ensures var w := Walk(rows, queryHash, cursor, offset, ctls);
            && w.rows == Slice(rows, at, |w.rows|)
            && (w.end == Done ==> at + |w.rows| >= |rows|)
            && (w.end.Stopped? ==> w.end.error == OffsetTooHigh && 2_500_000 < at + |w.rows| < |rows|)
            && (w.end == More ==> |w.rows| >= |ctls|)
    decreases |ctls|
  {
    hide Walk, PageSize, EncodeCursor, Slice, StartsAt, Trim;
    SliceToEnd(rows, at, 0);
    if ctls == [] {
      WalkNothing(rows, queryHash, cursor, offset);
    } else {
      WalkTurn(rows, queryHash, cursor, offset, ctls, at);
      var n := PageSize(ctls[0]);
      if !(cursor.Some? && at > 2_500_000) && at + n < |rows| {
        var next := Some(EncodeCursor(queryHash, at + n));
        StartsHere(queryHash, at + n);
        WalkIsPrefix(rows, queryHash, next, None, ctls[1..], at + n);
        SliceJoins(rows, at, n, |Walk(rows, queryHash, next, None, ctls[1..]).rows|);
      } else {
        SliceToEnd(rows, at, n);
      }
    }
  }

  lemma WalkNothing<T>(rows: seq<T>, queryHash: string, cursor: Option<string>, offset: Option<nat>)
    ensures Walk(rows, queryHash, cursor, offset, []) == Trail([], More)
  {}

  lemma StartsHere(queryHash: string, at: nat)
    ensures StartsAt(queryHash, Some(EncodeCursor(queryHash, at)), None, at)
  {}

  lemma SliceToEnd<T>(rows: seq<T>, at: nat, n: nat)
    ensures Slice(rows, at, |Slice(rows, at, n)|) == Slice(rows, at, n)
    ensures Slice(rows, at, 0) == []
  {}

  /** The offset of request `k`: the first one's and all page sizes before it. */
  function Boundary(ctls: seq<Controls>, at: nat, k: nat): nat
    requires k <= |ctls|
  {
    if k == 0 then at else Boundary(ctls[1..], at + PageSize(ctls[0]), k - 1)
  }

  lemma BoundaryStarts(ctls: seq<Controls>, at: nat)
    ensures Boundary(ctls, at, 0) == at
  {}

  lemma {:induction false} BoundaryGrows(ctls: seq<Controls>, at: nat, k: nat)
    requires k <= |ctls|
    ensures Boundary(ctls, at, k) >= at + k
  {
    if k > 0 { BoundaryGrows(ctls[1..], at + PageSize(ctls[0]), k - 1); }
  }

  /** One of the requests from `first` on is made with a cursor that lies past the highest accepted offset, though
      not past the end. */
  ghost predicate Overruns(ctls: seq<Controls>, at: nat, total: nat, first: nat) {
    exists k | first <= k < |ctls| :: 2_500_000 < Boundary(ctls, at, k) < total
  }

  /** The first page is passed, or it is itself the overrun. */
  lemma OverrunsNext(ctls: seq<Controls>, at: nat, total: nat, first: nat)
    requires ctls != [] && first <= 1
    ensures Overruns(ctls, at, total, first) <==>
            (first == 0 && 2_500_000 < at < total) || Overruns(ctls[1..], at + PageSize(ctls[0]), total, 0)
  {
    hide PageSize;
    var next := at + PageSize(ctls[0]);
    if k :| first <= k < |ctls| && 2_500_000 < Boundary(ctls, at, k) < total {
      if k > 0 { assert Boundary(ctls[1..], next, k - 1) == Boundary(ctls, at, k); }
    }
    if k :| 0 <= k < |ctls[1..]| && 2_500_000 < Boundary(ctls[1..], next, k) < total {
      assert Boundary(ctls, at, k + 1) == Boundary(ctls[1..], next, k);
    }
    BoundaryStarts(ctls, at);
  }

  lemma NoOverrunPastEnd(ctls: seq<Controls>, at: nat, total: nat)
    requires at >= total
    ensures !Overruns(ctls, at, total, 0)
  {
    forall k | 0 <= k < |ctls| ensures Boundary(ctls, at, k) >= total { BoundaryGrows(ctls, at, k); }
  }

  lemma NoRequestNoOverrun(at: nat, total: nat, first: nat)
    ensures !Overruns([], at, total, first)
  {}

  /** A walk is stopped exactly when a page boundary falls between the highest accepted offset and the end. */
  lemma {:induction false} WalkStopsIff<T>(rows: seq<T>, queryHash: string, cursor: Option<string>, offset: Option<nat>,
                                           ctls: seq<Controls>, at: nat)
    requires ':' !in queryHash && Trim(queryHash) != "" && |rows| <= U64_MAX && at <= U64_MAX
    requires StartsAt(queryHash, cursor, offset, at) && (cursor.Some? ==> at < |rows|)
    ensures Walk(rows, queryHash, cursor, offset, ctls).end.Stopped? <==>
            Overruns(ctls, at, |rows|, if cursor.None? then 1 else 0)
    decreases |ctls|
  {
    hide Walk, PageSize, EncodeCursor, Slice, StartsAt, Trim, Overruns;
    if ctls == [] {
      WalkNothing(rows, queryHash, cursor, offset);
      NoRequestNoOverrun(at, |rows|, if cursor.None? then 1 else 0);
    } else {
      WalkTurn(rows, queryHash, cursor, offset, ctls, at);
      OverrunsNext(ctls, at, |rows|, if cursor.None? then 1 else 0);
      var n := PageSize(ctls[0]);
      if at + n < |rows| {
        StartsHere(queryHash, at + n);
        WalkStopsIff(rows, queryHash, Some(EncodeCursor(queryHash, at + n)), None, ctls[1..], at + n);
      } else {
        NoOverrunPastEnd(ctls[1..], at + n, |rows|);
      }
    }
  }

  /** With as many requests as rows and one more, the walk brings the whole rest of the result exactly when no page
      boundary falls between the highest accepted offset and the end, as in every result of at most 2,500,001 rows. */
  lemma WalkIsComplete<T>(rows: seq<T>, queryHash: string, start: nat, ctls: seq<Controls>)
    requires ':' !in queryHash && Trim(queryHash) != "" && |rows| <= U64_MAX && start <= U64_MAX
    requires |ctls| > |rows|
    ensures var w := Walk(rows, queryHash, None, Some(start), ctls);
            && (w.end == Done || w.end == Stopped(OffsetTooHigh))
            && (w.end == Done <==> !Overruns(ctls, start, |rows|, 1))
            && (w.end == Done <==> w.rows == Slice(rows, start, |rows|))
            && (|rows| <= 2_500_001 ==> w.end == Done)
  {
    hide Walk, Overruns;
    WalkIsPrefix(rows, queryHash, None, Some(start), ctls, start);
    WalkStopsIff(rows, queryHash, None, Some(start), ctls, start);
  }

  /** A walk that is stopped one row before the end: the cursor its first page gives is refused. */
  lemma StoppedWalk<T>(rows: seq<T>, queryHash: string)
    requires ':' !in queryHash && Trim(queryHash) != "" && |rows| == 2_500_002
    ensures var one := Controls(Some(1), None);
            Walk(rows, queryHash, None, Some(2_500_000), [one, one])
            == Trail([rows[2_500_000]], Stopped(OffsetTooHigh))
  {
    hide Walk, Trim, EncodeCursor;
    var one, at := Controls(Some(1), None), 2_500_000;
    var ctls := [one, one];
    WalkTurn(rows, queryHash, None, Some(at), ctls, at);
    StartsHere(queryHash, at + 1);
    assert ctls[1..] == [one];
    WalkTurn(rows, queryHash, Some(EncodeCursor(queryHash, at + 1)), None, [one], at + 1);
  }

  // ---------- progress against any upstream ----------

  /** `next` is the next_cursor of some answer to the request made with `raw`. */
  ghost predicate Linked(queryHash: string, raw: string, next: string) {
    exists returned: nat, total: nat ::
      total <= U64_MAX && NextCursor(queryHash, Accepted(raw), returned, total) == Some(next)
  }

  ghost predicate Accepts(queryHash: string, raw: string, ctl: Controls) {
    ResolveCursorWindow(queryHash, Some(raw), None, ctl).Ok?
  }

  /** Each cursor is accepted, and each but the first is the next_cursor of some answer to the one before. */
  ghost predicate CursorChain(queryHash: string, cursors: seq<string>, ctl: Controls) {
    && (forall k | 0 <= k < |cursors| :: Accepts(queryHash, cursors[k], ctl))
    && (forall j, k | 0 <= j < k == j + 1 < |cursors| :: Linked(queryHash, cursors[j], cursors[k]))
  }

  function Accepted(raw: string): nat {
    match DecodeCursor(raw) case Ok(t) => t.offset case Err(_) => 0
  }

  lemma AcceptedIs(queryHash: string, raw: string, ctl: Controls)
    requires Accepts(queryHash, raw, ctl)
    ensures DecodeCursor(raw) == Ok(Token(queryHash, Accepted(raw))) && Accepted(raw) <= 2_500_000
    ensures ':' !in queryHash && Trim(queryHash) != ""
  {
    hide Trim, ParseU64;
  }

  lemma LinkAdvances(queryHash: string, raw: string, next: string)
    requires Linked(queryHash, raw, next) && ':' !in queryHash && Trim(queryHash) != ""
    ensures Accepted(next) > Accepted(raw)
  {
    hide EncodeCursor, DecodeCursor, Trim;
    var returned: nat, total: nat :|
      total <= U64_MAX && NextCursor(queryHash, Accepted(raw), returned, total) == Some(next);
    CursorRoundTrip(queryHash, Accepted(raw) + returned);
  }

  lemma ChainUnrolls(queryHash: string, cursors: seq<string>, ctl: Controls)
    requires CursorChain(queryHash, cursors, ctl) && cursors != []
    ensures var n := |cursors| - 1;
            && Accepts(queryHash, cursors[n], ctl)
            && CursorChain(queryHash, cursors[..n], ctl)
            && (n > 0 ==> Linked(queryHash, cursors[n - 1], cursors[n]))
  {
    hide Accepts, Linked;
  }

  lemma LastAccepted(queryHash: string, cursors: seq<string>, ctl: Controls)
    requires CursorChain(queryHash, cursors, ctl) && cursors != []
    ensures var n := |cursors| - 1;
            && CursorChain(queryHash, cursors[..n], ctl)
            && Accepted(cursors[n]) <= 2_500_000
            && (n > 0 ==> Accepted(cursors[..n][n - 1]) < Accepted(cursors[n]))
  {
    hide Accepts, Linked, Accepted, CursorChain;
    ChainUnrolls(queryHash, cursors, ctl);
    var n := |cursors| - 1;
    AcceptedIs(queryHash, cursors[n], ctl);
    if n > 0 { LinkAdvances(queryHash, cursors[n - 1], cursors[n]); }
  }

  /** Offsets strictly increase along a chain, so no walk accepts more than 2,500,001 cursors. */
  lemma {:induction false} ChainsEnd(queryHash: string, cursors: seq<string>, ctl: Controls)
    requires CursorChain(queryHash, cursors, ctl)
    ensures |cursors| <= 2_500_001
    ensures cursors != [] ==> |cursors| - 1 <= Accepted(cursors[|cursors| - 1])
  {
    hide Accepted, CursorChain;
    if cursors != [] {
      LastAccepted(queryHash, cursors, ctl);
      ChainsEnd(queryHash, cursors[..|cursors| - 1], ctl);
    }
  }
}
