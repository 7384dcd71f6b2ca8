# Analytics scratchpad server: verification model

A Dafny model of the stateful and algorithmic core of a Google Analytics server with a DuckDB scratchpad, with
proofs about every input, every run and every interleaving. `dafny verify dfyconfig.toml` checks all of it.

## What is modelled

**Scratchpad sessions and quotas** (`src/scratchpad.rs`). `Scratchpad` has the session manager as a class with the
source's fields and loops; each method that takes the lock is proved equal to a pure function `Apply` of the ledger.
`Interleaving` puts those calls into a step system: the ledger, the tables of each session's file, pending file
deletions, ingests and drops in flight, and a clock. One ingest is three steps (reserve under the lock, commit or abort
the transaction, roll back under the lock), one drop is four (touch, count, drop, note). `LedgerBounds` proves what
holds with no hypotheses at all (quotas, session counts, which sessions are alive). `LedgerAgreement` is about the
ledger being what the tables hold plus what is in flight: over every run, in every interleaving, it stays so exactly as
long as every step is harmless, a condition on the state before the step. `LedgerConservation` derives it for runs that
keep to a few rules, with what follows (no subtraction saturates, a failed ingest leaves no trace), and `LedgerDrift`
has one run for each way to break it. The early returns that skip the deletion of a pruned session's file are kept as
they are.

**The query watchdog** (`src/scratchpad.rs`). `Watchdog` has the two threads of a guarded query, one read or write per
step, with a clock and a canceller moving between any two of them.

**The lexical surface of SQL** (`src/sql_safety.rs`). `SqlSurface` has the five-state scanner as a loop, a grammar of
segments (visible bytes, quoted texts with doubled quotes, line comments, nested block comments, dollar-quoted texts)
and the proof that the scanner accepts exactly the texts that split into segments. `SqlLaws` has laws of the surface,
`SqlPolicy` the two token checks and the quoting helpers of `src/tools.rs`, ending in: what is quoted into a statement
cannot change the verdict on it.

**Pagination and ingest** (`src/tools.rs`). `Cursors` has cursor text, window resolution, next cursors and walks that
follow them; `Ingest` the multi-page loop with its three stop conditions and two limits; `Identifiers` and `Columns` the
column names an ingest makes and the manager's check on them; `Durations` the duration check of funnel steps.

**Token cache and requests** (`src/ga_client.rs`). `TokenCache` has the double-checked refresh under a read/write lock
with any number of callers, each of which may go away at any point. `JsonCase` has the snake-to-camel rewrite of JSON
trees; `Signatures` and `FunnelSignatures` the query signatures next to the outbound payloads, and the proof that equal
signature and equal request are the same thing.

Bytes and code points are Dafny characters with the same code. Machine integers are naturals, with saturation and
parse overflow written out at 2^64 - 1. Clock readings are naturals that never run backwards.

## Where the code says less than one might expect

- The counters of a session do not always agree with its tables. `LedgerAgreement.StepAgreesIff` has the exact condition,
  and `LedgerDrift` a run for each failure: a session that expires under an ingest and is opened again
  (`PruneInFlightDrifts`), a session opened over a file that outlived it (`SurvivingFileDrifts`), a commit into a file
  about to be deleted (`DoomedCommitDrifts`), an append between a drop's count and its `DROP` (`StaleCountDrifts`). A
  row limit of 2^64 - 1 loses rows too (`LedgerConservation.LargestLimitLosesRows`).
- A drop whose session has expired notes its rows to a session opened in the same call, where both subtractions
  saturate (`LedgerAgreement.LateNoteSaturates`, `LedgerDrift.LateNoteRun`).
- A pruned session's file survives a call that finds no room for a session to open, and a reservation without a session
  (`LedgerBounds.PrunedFilesSurvive`).
- A walk over a result of more than 2,500,001 rows is stopped if a page boundary falls into the part past offset
  2,500,000 (`Cursors.WalkIsComplete`, `Cursors.StoppedWalk`).
- A token that comes with a lifetime of zero is served from the cache for a second, always after it has expired
  (`TokenCache.ServedIsFresh`, `TokenCache.ExpiredIsServed`).
- Ingest targets are deduplicated by counting base names, so a base name that already looks like another one's suffixed
  name gives a duplicate (`Columns.TargetsDistinctIff`, `Columns.ClashExample`).
- Two lines that only together have a surface are outside the law of joined lines (`SqlLaws.SurfaceOfLinesNeedsBoth`).
- Of two JSON keys that are rewritten to one, the value of the later key stays (`JsonCase.LaterKeyWins`).
- A null filter would be sent but not signed; reading a request turns it into no filter first
  (`Signatures.NullFilterIsUnsigned`).

## Model

| member | source | states |
|---|---|---|
| `Scratchpad.ScratchpadSessionManager.constructor` | src/scratchpad.rs:327-350 | a new manager has no session and the configured limits |
| `Scratchpad.ScratchpadSessionManager.SetMaxSessionsLimit` | src/scratchpad.rs:360-370 | zero is refused and changes nothing; any other limit replaces the old one and evicts nobody |
| `Scratchpad.ScratchpadSessionManager.SetMaxTablesPerSessionLimit` | src/scratchpad.rs:376-389 | the same for the table limit |
| `Scratchpad.ScratchpadSessionManager.PruneExpired` | src/scratchpad.rs:1669-1688 | exactly the live sessions stay; the ids returned are exactly the removed ones, each once |
| `Scratchpad.ScratchpadSessionManager.ActiveSessionCount` | src/scratchpad.rs:391-398 | prunes, counts what is left, hands over the pruned files |
| `Scratchpad.ScratchpadSessionManager.CleanupExpiredSessions` | src/scratchpad.rs:988-996 | prunes, and the number reported is the number of sessions removed |
| `Scratchpad.ScratchpadSessionManager.TouchEvery` | src/scratchpad.rs:445-471 | every live session is extended and listed with its own numbers |
| `Scratchpad.ScratchpadSessionManager.ListAllSessions` | src/scratchpad.rs:434-472 | pruning and extending together are one atomic step of the ledger |
| `Scratchpad.ScratchpadSessionManager.TouchSession` | src/scratchpad.rs:406-432 | a live session is extended and reported, an absent or expired one is an error; pruned files go either way |
| `Scratchpad.ScratchpadSessionManager.ReleaseSession` | src/scratchpad.rs:969-986 | the session goes with its file, and the answer says whether it was there |
| `Scratchpad.ScratchpadSessionManager.SessionEntry` | src/scratchpad.rs:1004-1028 | a known session is found even over the limit, a new one is opened only below it |
| `Scratchpad.ScratchpadSessionManager.EnsureSession` | src/scratchpad.rs:1188-1198 | opens or extends; at the limit the pruned files are not handed over |
| `Scratchpad.ScratchpadSessionManager.ReserveIngestCapacity` | src/scratchpad.rs:1030-1086 | both quotas are checked before either counter moves, so a refusal changes no counter |
| `Scratchpad.ScratchpadSessionManager.RollbackIngestCapacity` | src/scratchpad.rs:1088-1107 | gives rows and, for a new table, the slot back, saturating; nothing when the session is gone |
| `Scratchpad.ScratchpadSessionManager.NoteTableCreated` | src/scratchpad.rs:849-883 | one more table unless at the limit, opening the session if need be |
| `Scratchpad.ScratchpadSessionManager.NoteRowsIngested` | src/scratchpad.rs:885-920 | rows added unless past the maximum |
| `Scratchpad.ScratchpadSessionManager.NoteTableDropped` | src/scratchpad.rs:922-945 | table and rows taken off, saturating, opening the session if need be |
| `LedgerBounds.CallKeepsQuotas` | src/scratchpad.rs:1004-1107 | no call takes rows past the maximum; a table count or the session count grows only to at most the limit in force |
| `LedgerBounds.SnapshotAddsUp` | src/scratchpad.rs:1690-1701 | in every reported snapshot rows used and rows remaining add up to the maximum |
| `LedgerBounds.RepliesReport` | src/scratchpad.rs:1690-1701 | what any call reports of a session, alone or in a listing, are the numbers its entry has after the call and what the limits leave |
| `LedgerBounds.AcceptedCallsTouch` | src/scratchpad.rs:406-432 | a call on a live session postpones its expiry exactly when it is accepted, and leaves its entry as it is when refused |
| `LedgerBounds.CallKeepsExactlyTheLive` | src/scratchpad.rs:1669-1688 | after any call the sessions are exactly those touched less than the time to live ago, with the opened and without the released one |
| `LedgerBounds.ListExtendsAll` | src/scratchpad.rs:445-471 | listing postpones the expiry of every live session by a whole time to live |
| `LedgerBounds.PrunedFilesSurvive` | src/scratchpad.rs:1038-1041 | pruned files are not handed over if and only if the call has to open a session without room for one, or reserves in a session that is not there |
| `LedgerBounds.QuotasHold` | src/scratchpad.rs:360-389 | in every state of every run: rows within the maximum, tables and sessions within a limit that was once in force |
| `LedgerBounds.LoweredLimitHolds` | src/scratchpad.rs:1004-1028 | while the session count is at or over the limit it cannot rise, over any stretch of any run |
| `LedgerAgreement.StepAgreesIff` | src/scratchpad.rs:599-645 | from a state in which every session's counters are its tables plus what is in flight, a step of any kind leads to one if and only if it is harmless |
| `LedgerAgreement.RunAgreesIff` | src/scratchpad.rs:1030-1186 | over every run, in every interleaving, all counters are right in all states up to the n-th if and only if all steps up to it are harmless |
| `LedgerAgreement.OpeningAgreesIff` | src/scratchpad.rs:1004-1028 | from any state, a session that `ensure_session` or a late note opens has the right counters if and only if its file is empty, doomed or pruned with it, and nothing is in flight for it but that note |
| `LedgerAgreement.CommitAgreesIff` | src/scratchpad.rs:1109-1186 | a commit keeps all counters right if and only if its session is gone, its file is not about to be deleted, or it writes nothing |
| `LedgerAgreement.DropAgreesIff` | src/scratchpad.rs:684-691 | a drop keeps all counters right if and only if its session is gone, or its file stays and the table still has the rows that were counted |
| `LedgerAgreement.EndTakesBack` | src/scratchpad.rs:1098-1101 | on a live session a rollback or a noted drop takes back exactly what the operation held |
| `LedgerAgreement.LateNoteSaturates` | src/scratchpad.rs:922-945 | on a session that is gone a noted drop opens a new one and saturates at zero |
| `LedgerConservation.StepKeeps` | src/scratchpad.rs:599-645 | every disciplined step keeps the counters right and the busy sessions there |
| `LedgerConservation.LedgerConserved` | src/scratchpad.rs:1030-1186 | in every disciplined interleaving rows used are the rows in the tables plus those reserved and uncommitted plus those dropped and not noted; likewise tables |
| `LedgerConservation.NothingSaturates` | src/scratchpad.rs:1098-1101 | if a call removes no busy session, counters after a rollback or a noted drop plus what the operation held are the counters before |
| `LedgerConservation.NothingEverSaturates` | src/scratchpad.rs:922-945 | the same at every rollback and noted drop of every disciplined run |
| `LedgerConservation.FailedIngestUndone` | src/scratchpad.rs:627-645 | reserve, abort and rollback with nothing in between leave the counters and the tables as they were, in any state |
| `LedgerConservation.FailedIngestLeavesNothing` | src/scratchpad.rs:627-645 | whatever other steps come between, the rollback takes away what the reservation added, neither touches a table and the ingest is never committed |
| `LedgerConservation.ReserveIsExact` | src/scratchpad.rs:1064-1080 | a reservation adds exactly its rows if and only if the sum fits the machine, which a limit below the maximum guarantees |
| `LedgerConservation.LargestLimitLosesRows` | src/scratchpad.rs:1064-1080 | with the largest limit a saturated sum is accepted and loses rows |
| `LedgerDrift.PruneInFlightDrifts` | src/scratchpad.rs:1669-1688 | a run: a session expires under an ingest, is reopened, and the late rollback leaves the ledger wrong with nothing in flight |
| `LedgerDrift.SurvivingFileDrifts` | src/scratchpad.rs:1037-1041 | a run: an ingest prunes its own loaded session, hands over no file, and the reopened session shows nothing where there are five rows |
| `LedgerDrift.DoomedCommitDrifts` | src/scratchpad.rs:1188-1198 | a run: a session is reopened before its old file is deleted, and the deletion takes the newly committed table |
| `LedgerDrift.StaleCountDrifts` | src/scratchpad.rs:684-691 | a run: rows appended between a drop's count and its drop stay in the ledger for good |
| `LedgerDrift.LateNoteRun` | src/scratchpad.rs:922-945 | a run in which the subtractions of a noted drop saturate |
| `Watchdog.InvHolds` | src/scratchpad.rs:743-811 | in every interleaving: an interrupt has a cause, no flag is up before the query, the caller's reason is the watcher's |
| `Watchdog.AnswerIsRight` | src/scratchpad.rs:758-811 | at most one interrupt; after one the answer is the error for its reason; every timeout or cancellation reported really happened |
| `Watchdog.LateIsNeverOk` | src/scratchpad.rs:790-804 | an execution that ends after the timeout never yields its value |
| `Watchdog.AnswerIsOfTheQuery` | src/scratchpad.rs:806-835 | a value is answered only for an execution that ended well, its error only for one that failed |
| `Watchdog.UninterruptedAnswer` | src/scratchpad.rs:790-835 | without an interrupt the answer is the timeout error if the clock at the check is past the deadline, and otherwise exactly what the execution gave |
| `Watchdog.NothingOverlooked` | src/scratchpad.rs:1227-1256 | the watcher sleeps only before the deadline, passes a token only if not cancelled, and ends quietly only after the stop flag |
| `Watchdog.CancelledAtEntry` | src/scratchpad.rs:734-741 | a query cancelled before it starts is never opened |
| `Watchdog.ClockReadings` | src/scratchpad.rs:743-758 | the deadline counts from the reading taken as the query starts, the watcher's from its own start, and the watcher is there exactly if there is something to watch |
| `Watchdog.QuietAfterReturn` | src/scratchpad.rs:764-769 | after the caller's return no interrupt is issued any more |
| `Watchdog.WatcherStops` | src/scratchpad.rs:1227-1256 | after the stop flag the watcher takes at most four steps |
| `Watchdog.JoinGoesOn` | src/scratchpad.rs:764-769 | a waiting caller is never stuck |
| `SqlSurface.ParseDollarTag` | src/sql_safety.rs:423-440 | the tag found is the one prefix that is a dollar, word characters and a dollar; none is found if there is none |
| `SqlSurface.TagLengthIff` | src/sql_safety.rs:423-440 | at most one length of prefix is a tag, and the scanner's is it |
| `SqlSurface.LexicalSurface` | src/sql_safety.rs:268-420 | the loop accepts exactly the texts that split into segments, and its output is any such split with every segment masked |
| `SqlSurface.SurfaceRefinesGrammar` | src/sql_safety.rs:284-420 | the scanner has a surface if and only if a split exists, and every split gives that surface |
| `SqlSurface.SplitIsScanned` | src/sql_safety.rs:284-420 | any split into fitting segments scans to the masks of its segments |
| `SqlSurface.ScannedSplits` | src/sql_safety.rs:284-420 | whatever the scanner accepts is such a split |
| `SqlLaws.ScanAligned` | src/sql_safety.rs:442-459 | same length, and every byte not blanked is the input's byte at its place |
| `SqlLaws.MaskShows` | src/sql_safety.rs:442-459 | byte by byte what the mask of each kind of segment shows: printable visible bytes, line breaks of hidden text, the line feed that closes a line comment, blanks elsewhere |
| `SqlLaws.ScanClean` | src/sql_safety.rs:442-459 | in a surface no quote, comment or dollar tag starts anywhere |
| `SqlLaws.SurfaceIdempotent` | src/sql_safety.rs:268-420 | the surface of a surface is itself |
| `SqlLaws.SurfaceOfLines` | src/sql_safety.rs:268-420 | surfaces of lines join as the lines do |
| `SqlLaws.SurfaceOfLinesNeedsBoth` | src/sql_safety.rs:341-372 | a quoted text across a line break shows that both lines need a surface |
| `SqlLaws.ScanAppend` | src/sql_safety.rs:284-420 | scanning goes on after an accepted text from the state it ended in, when a line break or a fresh quote follows |
| `SqlPolicy.LiteralIsBlank` | src/tools.rs:4801-4803 | an escaped literal, whatever it holds, scans to blanks of its length and then exactly the rest |
| `SqlPolicy.IdentifierIsBlank` | src/tools.rs:5463-5465 | the same for quoted identifiers |
| `SqlPolicy.QuotedReadsBack` | src/tools.rs:4801-4803 | a literal and a quoted identifier read back, pairs of quotes as one, give the content put in |
| `SqlPolicy.DoubledInjective` | src/tools.rs:4801-4803 | escaping loses nothing: different contents stay different |
| `SqlPolicy.KeywordIsToken` | src/sql_safety.rs:220-225 | the split finds a forbidden keyword exactly when it is a whole token |
| `SqlPolicy.ContainsForbiddenFunctionCall` | src/sql_safety.rs:227-266 | the loop answers true exactly when a forbidden name ends a token and the next token is an opening parenthesis |
| `SqlPolicy.VerdictFollows` | src/sql_safety.rs:96-147 | the verdict depends on the tokens alone |
| `SqlPolicy.ValidateIsExact` | src/sql_safety.rs:96-147 | the whole answer for every statement: size errors, no split, the authority's decision unless overruled by DESCRIBE or SUMMARIZE, then the six keywords, then the fifteen functions before a parenthesis, letters compared one by one in either case |
| `SqlPolicy.SameTokensSameVerdict` | src/sql_safety.rs:96-147 | statements whose surfaces have the same tokens get the same verdict, trimming and upper case included |
| `SqlPolicy.FilledTokens` | src/tools.rs:4801-4803 | a filled template has a surface, with exactly the tokens of its fixed pieces |
| `SqlPolicy.FilledVerdict` | src/sql_safety.rs:96-147 | whatever literals and identifiers are filled in, the verdict is the same |
| `Cursors.CursorRoundTrip` | src/tools.rs:5939-5962 | decoding gives back hash and offset if and only if the hash has no colon and is not blank |
| `Cursors.AcceptedReencodes` | src/tools.rs:5939-5962 | any accepted text, plus signs and leading zeros included, names the token its canonical text names |
| `Cursors.DecodeIsExact` | src/tools.rs:5939-5958 | what every text decodes to: an error of format if and only if it has not the form, then the offset judged before the hash |
| `Cursors.PageSizeIsLargest` | src/tools.rs:5897-5902 | the page size is the largest one that the row cap, the rows asked for and the limit allow |
| `Cursors.WindowIsExact` | src/tools.rs:5890-5937 | the window of a request with a page's cursor or none, with the three refusals in order |
| `Cursors.InMemoryIsWrapped` | src/tools.rs:5291-5328 | skipping and taking rows in memory gives the page the database would give |
| `Cursors.CursorsAgree` | src/tools.rs:5244-5250 | the query tool's next cursor, which does not ask whether rows came back, is the report tool's on every page |
| `Cursors.WalkIsPrefix` | src/tools.rs:5890-5937 | any walk, whatever page sizes are chosen, has the rows from its start on without gap or repeat, and stops only past the highest offset |
| `Cursors.WalkStopsIff` | src/tools.rs:5915-5921 | any walk is stopped if and only if a boundary between its pages falls past the highest accepted offset and before the end |
| `Cursors.WalkIsComplete` | src/tools.rs:6321-6345 | a long enough walk has the whole rest if and only if no page boundary falls there, as in every result of at most 2,500,001 rows |
| `Cursors.StoppedWalk` | src/tools.rs:5915-5921 | a walk whose own next cursor is refused one row before the end |
| `Cursors.ChainsEnd` | src/tools.rs:5915-5921 | whatever the upstream answers, accepted cursors rise, so a chain has at most 2,500,001 of them |
| `Ingest.CollectForIngest` | src/tools.rs:4175-4299 | the loop computes the specified collection for every upstream |
| `Ingest.PageSizeIsLargest` | src/tools.rs:4163-4173 | the page size is the largest one that 25,000, `max_rows` and the limit allow |
| `Ingest.CollectBounds` | src/tools.rs:4190-4274 | at most 128 pages and 100,000 rows, and the final offset is the initial one plus the rows |
| `Ingest.LoopIsExact` | src/tools.rs:4190-4274 | from any point of the loop over a fixed table: success if and only if the wanted rows fit, and then exactly those |
| `Ingest.IngestIsExact` | src/tools.rs:4163-4299 | Ok if and only if the wanted rows are at most 100,000 and 128 pages of that size; then exactly they, in order, in the fewest pages, complete; otherwise which error |
| `Ingest.DefaultIngest` | src/tools.rs:4163-4299 | with no limit and no page size: Ok if and only if at most 100,000 rows are left, in pages of 25,000 |
| `Ingest.ZeroLimitAsksNothing` | src/tools.rs:4200-4209 | a limit of zero asks the upstream nothing |
| `Identifiers.NormalizeSqlIdentifier` | src/tools.rs:4661-4689 | the buffer loop computes the specified name |
| `Identifiers.NormalizedIsValid` | src/scratchpad.rs:1258-1280 | for every input the normalised name is accepted, with or without a word suffix |
| `Identifiers.NormalizeIdempotent` | src/tools.rs:4661-4689 | normalising twice is normalising once, for normalised fallbacks |
| `Identifiers.CoreIsShaped` | src/tools.rs:4665-4677 | before the guard a name is lower-case words joined by single underscores |
| `Identifiers.CoreIsJoined` | src/tools.rs:4661-4677 | before the guard a name is exactly the letters and digits of the trimmed text, in order and in lower case, with one underscore for each run of others between two of them |
| `Identifiers.LowerSays` | src/tools.rs:4666-4668 | lower case moves the codes 65 to 90 up by 32 and no other |
| `Identifiers.ValidIff` | src/scratchpad.rs:1258-1280 | accepted is exactly a word between white space that starts with a letter or an underscore |
| `Columns.NextMappingTarget` | src/tools.rs:4538-4547 | the k-th occurrence of a base is the base itself or the base with its number |
| `Columns.TemporalIs` | src/tools.rs:4549-4562 | a parsed date or timestamp column is added exactly for names whose letters and digits spell date or datehour, in any case |
| `Columns.BuildIngestColumnMappings` | src/tools.rs:4502-4536 | each mapping is its planned one with a resolved target, the targets being the counted base names in order |
| `Columns.TargetAt` | src/tools.rs:4538-4547 | every target is its base numbered by the occurrences up to it |
| `Columns.TargetsDistinctIff` | src/tools.rs:4502-4547 | the targets are pairwise distinct if and only if no base equals another one with a suffix in use |
| `Columns.ClashExample` | src/tools.rs:4538-4547 | whatever the builder makes of columns named a, a and a_2 is refused by the manager |
| `Columns.CheckColumns` | src/scratchpad.rs:584-597 | accepted if and only if there is a column and all names are valid and distinct; otherwise the first fault |
| `Columns.MappingsPassIff` | src/scratchpad.rs:584-597 | the targets made of any columns pass the manager's check if and only if there is a column and no clash |
| `Durations.WrittenIsAcceptedIff` | src/tools.rs:3727-3755 | of a text in the notation the check depends on the exact length only, parse overflow included |
| `Durations.AcceptsExactlyTheDurations` | src/tools.rs:3727-3755 | accepted if and only if it is digits, an optional fraction of one to nine digits and an s, worth at most 315,576,000,000 seconds to the nanosecond |
| `Durations.WritesOnce` | src/tools.rs:3727-3755 | a text writes at most one duration |
| `TokenCache.InvHolds` | src/ga_client.rs:934-951 | in every interleaving a writer is alone and the token it found stale stays in place until it is done |
| `TokenCache.RefreshesExclude` | src/ga_client.rs:934-951 | refreshes never overlap, nor a refresh and a read |
| `TokenCache.RefreshesAreSpaced` | src/ga_client.rs:1004-1009 | after a refresh at t with lifetime e none starts before t + (e - 60) seconds, or t + 1 second if e is at most 61 |
| `TokenCache.ServedExactly` | src/ga_client.rs:934-951 | at either check the newest token is served if and only if that moment has not come; otherwise the second check starts a refresh |
| `TokenCache.NothingServedYet` | src/ga_client.rs:934-951 | before the first successful refresh nothing is served |
| `TokenCache.CacheOrigin` | src/ga_client.rs:1004-1009 | the cache holds what the last successful refresh brought |
| `TokenCache.ServedIsFresh` | src/ga_client.rs:934-951 | a token served from the cache is the newest one and within its serving time; it is unexpired if and only if its lifetime was at least a second |
| `TokenCache.ExpiredIsServed` | src/ga_client.rs:1004-1009 | a run in which a token with no lifetime is served half a second later |
| `JsonCase.SnakeKeyToCamel` | src/ga_client.rs:1551-1570 | the loop computes the specified key, which has no underscore and differs exactly if there was one |
| `JsonCase.FixedIffPlain` | src/ga_client.rs:1497-1509 | the rewrite leaves a tree alone if and only if no key at any depth has an underscore |
| `JsonCase.ToCamelIdempotent` | src/ga_client.rs:1497-1509 | rewriting twice is rewriting once |
| `JsonCase.SnakeInjective` | src/ga_client.rs:1551-1570 | on snake-case keys the rewrite loses nothing |
| `JsonCase.RewrittenAgree` | src/ga_client.rs:1497-1509 | objects whose keys stay apart are rewritten alike if and only if they agree field by field |
| `JsonCase.LaterKeyWins` | src/ga_client.rs:1497-1509 | of two colliding keys the value of the later one stays |
| `Signatures.ResourceNameNames` | src/ga_client.rs:1470-1495 | two property ids have one resource name if and only if they stand for one number, or both for none |
| `Signatures.PropertyNumberIs` | src/ga_client.rs:1470-1495 | which ids are accepted and for which number: decimal text below 2^64, with a plus sign or not, with the prefix or not, between white space |
| `Signatures.ResourceNameIs` | src/ga_client.rs:1470-1495 | the name of an accepted id |
| `Signatures.PayloadWindow` | src/ga_client.rs:1259-1264 | limit and offset are sent as decimal text, each in its own field |
| `Signatures.PayloadContents` | src/ga_client.rs:1225-1246 | dimensions, metrics, date ranges and the quota flag as sent |
| `Signatures.NamedAre` | src/ga_client.rs:1192-1197 | each dimension and metric is sent as an object with its trimmed name, in order |
| `Signatures.PayloadOptions` | src/ga_client.rs:1247-1270 | filters, orders and the trimmed currency code are sent if given |
| `Signatures.PayloadSpec` | src/ga_client.rs:1289-1292 | the conversion spec as sent, with the attribution model's own text |
| `Signatures.ConversionsSignatureSays` | src/tools.rs:5709-5738 | equal signatures are equal queries to one property |
| `Signatures.PayloadIsQuery` | src/ga_client.rs:1274-1294 | whatever its window, a payload is determined by the query |
| `Signatures.ConversionsSignatureExact` | src/tools.rs:5709-5738 | signatures are equal if and only if property and payload are, limit and offset apart, a null counting as absent |
| `Signatures.ConversionsSignatureExactOnceRead` | src/tools.rs:3227-3250 | for requests as they are read the payloads are compared as they are, limit and offset apart |
| `Signatures.NullFilterIsUnsigned` | src/tools.rs:3236-3237 | without that reading two different payloads would share a signature |
| `Signatures.ConversionsSpelling` | src/tools.rs:5709-5738 | snake and camel spellings of a request have one signature |
| `FunnelSignatures.ShorthandIsExpansion` | src/ga_client.rs:1364-1381 | an event step and its long form normalise to one step |
| `FunnelSignatures.OmittedNameIsDefault` | src/ga_client.rs:1368-1369 | a step without a name is the step with its number as name |
| `FunnelSignatures.StepIs` | src/ga_client.rs:1364-1381 | a step as sent, field by field: the name or `Step` and its number counted from one, the filter its event stands for, and its conditions |
| `FunnelSignatures.FirstStepName` | src/ga_client.rs:1368-1369 | the first step without a name is "Step 1" |
| `FunnelSignatures.StepsAreRewritten` | src/tools.rs:5740-5788 | the signature's second rewrite leaves the payload's steps as they are |
| `FunnelSignatures.FunnelSignatureSays` | src/tools.rs:5740-5788 | equal signatures are equal queries to one property |
| `FunnelSignatures.FunnelPayloadIsQuery` | src/ga_client.rs:1296-1361 | whatever its limit, a payload is determined by the query |
| `FunnelSignatures.FunnelPayloadFixed` | src/ga_client.rs:1296-1361 | the funnel, the quota flag and the limit as decimal text, as sent |
| `FunnelSignatures.FunnelPayloadSubs` | src/ga_client.rs:1328-1339 | breakdown and next action as sent, each with its own key and its limit as text |
| `FunnelSignatures.FunnelPayloadOptions` | src/ga_client.rs:1315-1358 | date ranges unless empty, visualization type, segments and filter as sent |
| `FunnelSignatures.ToolsAreToldApart` | src/tools.rs:5709-5788 | no funnel request shares a signature with a conversions request |
| `FunnelSignatures.FunnelSignatureExact` | src/tools.rs:5740-5788 | signatures are equal if and only if property and payload are, the limit apart, a null filter counting as absent |
| `FunnelSignatures.FunnelSignatureExactOnceRead` | src/tools.rs:3227-3250 | for requests as they are read the payloads are compared as they are, the limit apart |
| `FunnelSignatures.ShorthandSignature` | src/ga_client.rs:1370-1379 | writing one shorthand out changes no signature |

## Left out

- LedgerConserved: holds for runs in which no busy session is removed, a session opens over an empty, deleted or doomed file, no doomed file is written to, a drop finds the rows it counted, the row limit is below 2^64 - 1, and `note_table_created` and `note_rows_ingested`, which no server code calls, are not called. `RunAgreesIff` has no such hypothesis: it gives the exact condition for every run.
- LexicalSurface: the depth of nested comments is unbounded; the source counts it in 32 bits.
- IngestIsExact: the upstream serves slices of a fixed table and says its size; `CollectBounds` covers any other.
- WalkIsComplete: the result does not change between the requests of a walk.
- FilledVerdict: compares statements on which the external policy authority gives the same answer; how it decides is not part of this model.
- ConversionsSignatureExact: about the signature's JSON tree; serialising it and hashing the text to 64 bits, which can collide, are left out.
- FunnelSignatureExact: as for conversions.
- AnswerIsRight: a panic of the watcher thread, and clock arithmetic near the end of the clock's range, are left out.
- ListAllSessions: the refusal of a limit of zero before the lock is taken, the order and the truncation of the list, and the seconds left to each session, are left out; they change no state.
- Files are named by session id. The source hashes the id into the path; two ids with one path are left out.
- DuckDB is a store that commits a transaction whole or not at all. Schema checks on append, value conversion and the text of queries are left out.
- Each limit is read once per locked call. The source reads atomics, which a setter may change in between.
- The tools that call several manager functions in turn (open, list tables, describe) are covered as sequences of locked calls.
- Session id normalisation, the poisoned lock, and errors of file deletion.
- Signatures of the other report tools. The plain report's is finer than its payload, since it keeps the spaces around names that the payload trims.
- Reading requests: parsing filters given as text, and the other validators, each a single check.
- HTTP, the OAuth and ADC flows, command line, environment parsing, response envelopes, events, memory reporting.
