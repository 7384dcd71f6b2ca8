/** Runs in which the ledger goes wrong, one for each way in which a step can be harmful: each ends with nothing in
    flight, nothing left to delete and numbers that are not those of the tables. The last run is one in which the
    subtractions of a noted drop saturate. */
module LedgerDrift {
  import opened Basics
  import opened Scratchpad
  import opened Interleaving
  import opened LedgerAgreement
  import LedgerConservation

  const CONFIG := Config(10, 100)

  const BLANK: map<SessionId, Tables> := map[]
  const FIVE: map<SessionId, Tables> := map["s" := map["a" := 5]]

  /** A state with one session "s", last touched now. */
  function At(now: nat, tables: nat, rows: nat, db: map<SessionId, Tables>, deleting: multiset<SessionId>, ops: seq<Op>): Sys {
    Sys(Ledger(map["s" := Entry(now, tables, rows)], 5, 5), db, deleting, ops, now)
  }

  /** A state with no session. */
  function Bare(now: nat, db: map<SessionId, Tables>, ops: seq<Op>): Sys { Sys(Ledger(map[], 5, 5), db, multiset{}, ops, now) }

  function Load(stage: Stage): Op { Ingest("s", "a", 5, true, stage) }

  ghost predicate Leads(s: Sys, e: Event, t: Sys) { Enabled(s, e) && t == Post(CONFIG, s, e) }

  ghost predicate Steps(states: seq<Sys>, events: seq<Event>) {
    |states| == |events| + 1 && forall i | 0 <= i < |events| :: Leads(states[i], events[i], states[i + 1])
  }

  /** A wrong ledger that nothing under way explains. */
  ghost predicate Wrong(s: Sys) {
    && "s" in s.ledger.sessions && !Agrees(s, "s") && s.deleting == multiset{}
    && forall i | 0 <= i < |s.ops| :: !LedgerConservation.Active(s.ops[i])
  }

  lemma StepsAreRun(states: seq<Sys>, events: seq<Event>)
    requires Steps(states, events) && states[0] == Bare(0, BLANK, [])
    ensures Run(CONFIG, states, events)
  {
    hide Enabled, Post;
    forall i | 0 <= i < |events| ensures Enabled(states[i], events[i]) && states[i + 1] == Post(CONFIG, states[i], events[i]) {
      assert Leads(states[i], events[i], states[i + 1]);
    }
  }

  lemma Unpruned(s: Sys, now: nat)
    requires forall id | id in s.ledger.sessions :: now < s.ledger.sessions[id].lastTouched + 10
    ensures Prune(CONFIG, s.ledger, now) == s.ledger
  {
    assert Prune(CONFIG, s.ledger, now).sessions == s.ledger.sessions;
  }

  lemma PrunedBare(s: Sys)
    requires "s" in s.ledger.sessions && s == At(0, s.ledger.sessions["s"].tablesUsed, s.ledger.sessions["s"].rowsUsed, s.db, s.deleting, s.ops)
    ensures Prune(CONFIG, s.ledger, 10).sessions == map[] && s.ledger.sessions.Keys == {"s"}
  {}

  // ---------- steps the runs share ----------

  function Opened(): Sys { At(0, 0, 0, BLANK, multiset{}, []) }

  function Loading(): Sys { At(0, 1, 5, BLANK, multiset{}, [Load(Reserved)]) }

  function Loaded(): Sys { At(0, 1, 5, FIVE, multiset{}, [Load(Finished)]) }

  const OPEN := Locked(Ensure("s"), 0, 0)
  const REOPEN := Locked(Ensure("s"), 10, 10)
  const LOAD := BeginIngest("s", "a", 5, true, 0, 0)

  lemma Opening()
    ensures Leads(Bare(0, BLANK, []), OPEN, Opened())
  {
    Unpruned(Bare(0, BLANK, []), 0);
  }

  lemma Reserving()
    ensures Leads(Opened(), LOAD, Loading())
  {
    Unpruned(Opened(), 0);
    assert [] + [Load(Reserved)] == [Load(Reserved)];
  }

  lemma Committing()
    ensures Leads(Loading(), Commit(0), Loaded())
  {
    var t: Tables := map[];
    assert t["a" := 5] == FIVE["s"];
  }

  /** A session that expired is opened again: its file is to be deleted. */
  lemma Reopening(tables: nat, rows: nat, ops: seq<Op>)
    ensures Leads(At(0, tables, rows, BLANK, multiset{}, ops), REOPEN, At(10, 0, 0, BLANK, multiset{"s"}, ops))
  {
    PrunedBare(At(0, tables, rows, BLANK, multiset{}, ops));
  }

  lemma Deleting(tables: nat, rows: nat, db: map<SessionId, Tables>, ops: seq<Op>)
    requires db.Keys <= {"s"}
    ensures Leads(At(10, tables, rows, db, multiset{"s"}, ops), DeleteFile("s"), At(10, tables, rows, BLANK, multiset{}, ops))
  {
    assert db - {"s"} == BLANK;
  }

  // ---------- a session expires under an ingest ----------

  /** The session is opened again while the failed ingest still holds rows of the old one; the late rollback
      takes them from the new one, here from a second ingest. */
  function Other(stage: Stage): Op { Ingest("s", "b", 7, true, stage) }

  const SEVEN: map<SessionId, Tables> := map["s" := map["b" := 7]]

  function LateStates(): seq<Sys> {
    [Bare(0, BLANK, []), Opened(), Loading(),
     At(0, 1, 5, BLANK, multiset{}, [Load(Aborted)]),
     At(10, 0, 0, BLANK, multiset{"s"}, [Load(Aborted)]),
     At(10, 0, 0, BLANK, multiset{}, [Load(Aborted)]),
     At(10, 1, 7, BLANK, multiset{}, [Load(Aborted), Other(Reserved)]),
     At(10, 1, 7, SEVEN, multiset{}, [Load(Aborted), Other(Finished)]),
     At(10, 0, 2, SEVEN, multiset{}, [Load(Finished), Other(Finished)])]
  }

  function LateEvents(): seq<Event> {
    [OPEN, LOAD, Abort(0), REOPEN, DeleteFile("s"), BeginIngest("s", "b", 7, true, 10, 10), Commit(1), RollBack(0, 10, 10)]
  }

  lemma Aborting()
    ensures Leads(Loading(), Abort(0), LateStates()[3])
  {}

  lemma LoadingOther()
    ensures Leads(LateStates()[5], LateEvents()[5], LateStates()[6])
  {
    Unpruned(LateStates()[5], 10);
  }

  lemma CommittingOther()
    ensures Leads(LateStates()[6], Commit(1), LateStates()[7])
  {
    var t: Tables := map[];
    assert t["b" := 7] == SEVEN["s"];
  }

  lemma LateRollback()
    ensures Leads(LateStates()[7], RollBack(0, 10, 10), LateStates()[8])
  {
    Unpruned(LateStates()[7], 10);
  }

  lemma LateSteps()
    ensures Steps(LateStates(), LateEvents())
  {
    hide Leads;
    Opening();
    Reserving();
    Aborting();
    Reopening(1, 5, [Load(Aborted)]);
    Deleting(0, 0, BLANK, [Load(Aborted)]);
    LoadingOther();
    CommittingOther();
    LateRollback();
  }

  /** The step that opens a session, or writes a file, where it must not. */
  ghost predicate Harmful(s: Sys, e: Event) { Enabled(s, e) && !Harmless(CONFIG, s, e) }

  lemma TotalOfOne(t: Tables, k: string)
    requires t.Keys == {k}
    ensures RowTotal(t) == t[k]
  {
    hide RowTotal;
    RowTotalWithout(t, k);
    assert t - {k} == map[];
    EmptyTotal();
  }

  lemma LateIsWrong()
    ensures Wrong(LateStates()[8])
  {
    hide RowTotal;
    TotalOfOne(SEVEN["s"], "b");
    LedgerConservation.NothingPending(LateStates()[8].ops, "s", true);
  }

  /** With nothing left in flight the ledger shows two rows and no table where the file has a table of seven. */
  lemma PruneInFlightDrifts()
    ensures Run(CONFIG, LateStates(), LateEvents())
    ensures !LedgerConservation.KeepsBusySessions(CONFIG, LateStates()[3], LateEvents()[3])
    ensures Harmful(LateStates()[3], LateEvents()[3]) && Wrong(LateStates()[8])
  {
    LateSteps();
    StepsAreRun(LateStates(), LateEvents());
    LateIsWrong();
    var s := LateStates()[3];
    assert LedgerConservation.Active(s.ops[0]) && s.ops[0].id in s.ledger.sessions;
    assert [Load(Aborted)][..0] == [];
    assert Pending([Load(Aborted)], "s", true) == 5;
  }

  // ---------- a file outlives its session ----------

  /** An ingest finds its own session expired and leaves early, so the file stays; the session is then opened again
      over the old table. */
  function StaleStates(): seq<Sys> {
    [Bare(0, BLANK, []), Opened(), Loading(), Loaded(), Bare(10, FIVE, [Load(Finished)]),
     At(10, 0, 0, FIVE, multiset{}, [Load(Finished)])]
  }

  function StaleEvents(): seq<Event> { [OPEN, LOAD, Commit(0), BeginIngest("s", "b", 7, true, 10, 10), REOPEN] }

  lemma Refused()
    ensures Leads(Loaded(), StaleEvents()[3], Bare(10, FIVE, [Load(Finished)]))
    ensures Apply(CONFIG, Loaded().ledger, 10, 10, Reserve("s", 7, true)) == Outcome(Ledger(map[], 5, 5), Failed(SessionNotFound), {})
  {
    PrunedBare(Loaded());
  }

  lemma ReopeningStale()
    ensures Leads(Bare(10, FIVE, [Load(Finished)]), REOPEN, At(10, 0, 0, FIVE, multiset{}, [Load(Finished)]))
  {
    Unpruned(Bare(10, FIVE, [Load(Finished)]), 10);
  }

  lemma StaleSteps()
    ensures Steps(StaleStates(), StaleEvents())
  {
    hide Leads;
    Opening();
    Reserving();
    Committing();
    Refused();
    ReopeningStale();
  }

  lemma StaleIsWrong()
    ensures Wrong(StaleStates()[5])
  {
    hide RowTotal;
    TotalOfOne(FIVE["s"], "a");
  }

  /** The refused call hands over no file though it pruned the session, and the new session shows no row and no
      table where the file has a table of five rows. */
  lemma SurvivingFileDrifts()
    ensures Run(CONFIG, StaleStates(), StaleEvents())
    ensures Apply(CONFIG, StaleStates()[3].ledger, 10, 10, Reserve("s", 7, true))
         == Outcome(Ledger(map[], 5, 5), Failed(SessionNotFound), {})
    ensures Harmful(StaleStates()[4], StaleEvents()[4]) && Wrong(StaleStates()[5])
  {
    StaleSteps();
    StepsAreRun(StaleStates(), StaleEvents());
    StaleIsWrong();
    Refused();
  }

  // ---------- a commit to a doomed file ----------

  /** The session is opened again before the old file is deleted, and the deletion takes the new table with it. */
  function DoomedStates(): seq<Sys> {
    [Bare(0, BLANK, []), Opened(), At(10, 0, 0, BLANK, multiset{"s"}, []),
     At(10, 1, 5, BLANK, multiset{"s"}, [Load(Reserved)]),
     At(10, 1, 5, FIVE, multiset{"s"}, [Load(Finished)]),
     At(10, 1, 5, BLANK, multiset{}, [Load(Finished)])]
  }

  function DoomedEvents(): seq<Event> { [OPEN, REOPEN, BeginIngest("s", "a", 5, true, 10, 10), Commit(0), DeleteFile("s")] }

  lemma ReservingDoomed()
    ensures Leads(DoomedStates()[2], DoomedEvents()[2], DoomedStates()[3])
  {
    Unpruned(DoomedStates()[2], 10);
    assert [] + [Load(Reserved)] == [Load(Reserved)];
  }

  lemma CommittingDoomed()
    ensures Leads(DoomedStates()[3], Commit(0), DoomedStates()[4])
  {
    var t: Tables := map[];
    assert t["a" := 5] == FIVE["s"];
  }

  lemma DoomedSteps()
    ensures Steps(DoomedStates(), DoomedEvents())
  {
    hide Leads;
    Opening();
    Reopening(0, 0, []);
    ReservingDoomed();
    CommittingDoomed();
    Deleting(1, 5, FIVE, [Load(Finished)]);
  }

  lemma DoomedIsWrong()
    ensures Wrong(DoomedStates()[5])
  {
    hide RowTotal;
    EmptyTotal();
    LedgerConservation.NothingPending(DoomedStates()[5].ops, "s", true);
  }

  /** The ledger shows five rows and one table where there is no file any more. */
  lemma DoomedCommitDrifts()
    ensures Run(CONFIG, DoomedStates(), DoomedEvents())
    ensures Harmful(DoomedStates()[3], DoomedEvents()[3]) && Wrong(DoomedStates()[5])
  {
    DoomedSteps();
    StepsAreRun(DoomedStates(), DoomedEvents());
    DoomedIsWrong();
  }

  // ---------- an append between a drop's count and its drop ----------

  const EIGHT: map<SessionId, Tables> := map["s" := map["a" := 8]]
  const NO_TABLE: map<SessionId, Tables> := map["s" := map[]]

  function Dropping(stage: Stage): Op { Drop("s", "a", stage) }

  function Append(stage: Stage): Op { Ingest("s", "a", 3, false, stage) }

  function CountedStates(): seq<Sys> {
    [Bare(0, BLANK, []), Opened(), Loading(), Loaded(),
     At(0, 1, 5, FIVE, multiset{}, [Load(Finished), Dropping(Asked)]),
     At(0, 1, 5, FIVE, multiset{}, [Load(Finished), Dropping(Counted(5))]),
     At(0, 1, 8, FIVE, multiset{}, [Load(Finished), Dropping(Counted(5)), Append(Reserved)]),
     At(0, 1, 8, EIGHT, multiset{}, [Load(Finished), Dropping(Counted(5)), Append(Finished)]),
     At(0, 1, 8, NO_TABLE, multiset{}, [Load(Finished), Dropping(Dropped(5)), Append(Finished)]),
     At(0, 0, 3, NO_TABLE, multiset{}, [Load(Finished), Dropping(Finished), Append(Finished)])]
  }

  function CountedEvents(): seq<Event> {
    [OPEN, LOAD, Commit(0), BeginDrop("s", "a", 0, 0), CountRows(1), BeginIngest("s", "a", 3, false, 0, 0), Commit(2),
     DropTable(1), NoteDrop(1, 0, 0)]
  }

  lemma Asking()
    ensures Leads(Loaded(), CountedEvents()[3], CountedStates()[4])
  {
    Unpruned(Loaded(), 0);
  }

  lemma Counting()
    ensures Leads(CountedStates()[4], CountRows(1), CountedStates()[5])
  {}

  lemma Appending()
    ensures Leads(CountedStates()[5], CountedEvents()[5], CountedStates()[6])
  {
    Unpruned(CountedStates()[5], 0);
  }

  lemma CommittingAppend()
    ensures Leads(CountedStates()[6], Commit(2), CountedStates()[7])
  {
    assert FIVE["s"]["a" := 8] == EIGHT["s"];
  }

  lemma DroppingTable()
    ensures Leads(CountedStates()[7], DropTable(1), CountedStates()[8])
  {
    assert EIGHT["s"] - {"a"} == NO_TABLE["s"];
  }

  lemma Noting()
    ensures Leads(CountedStates()[8], NoteDrop(1, 0, 0), CountedStates()[9])
  {
    Unpruned(CountedStates()[8], 0);
  }

  lemma CountedSteps()
    ensures Steps(CountedStates(), CountedEvents())
  {
    hide Leads;
    Opening();
    Reserving();
    Committing();
    Asking();
    Counting();
    Appending();
    CommittingAppend();
    DroppingTable();
    Noting();
  }

  lemma CountedIsWrong()
    ensures Wrong(CountedStates()[9])
  {
    hide RowTotal;
    EmptyTotal();
    LedgerConservation.NothingPending(CountedStates()[9].ops, "s", true);
  }

  /** The ledger shows three rows where there is no table any more. */
  lemma StaleCountDrifts()
    ensures Run(CONFIG, CountedStates(), CountedEvents())
    ensures Harmful(CountedStates()[7], CountedEvents()[7]) && Wrong(CountedStates()[9])
  {
    CountedSteps();
    StepsAreRun(CountedStates(), CountedEvents());
    CountedIsWrong();
  }

  // ---------- a late note ----------

  /** A drop notes its rows when its session has expired: it is pruned and opened again inside the call, and both
      subtractions saturate. */
  function NotedStates(): seq<Sys> {
    [Bare(0, BLANK, []), Opened(), Loading(), Loaded(), CountedStates()[4], CountedStates()[5],
     At(0, 1, 5, NO_TABLE, multiset{}, [Load(Finished), Dropping(Dropped(5))]),
     At(10, 0, 0, NO_TABLE, multiset{"s"}, [Load(Finished), Dropping(Finished)])]
  }

  function NotedEvents(): seq<Event> {
    [OPEN, LOAD, Commit(0), BeginDrop("s", "a", 0, 0), CountRows(1), DropTable(1), NoteDrop(1, 10, 10)]
  }

  lemma DroppingCounted()
    ensures Leads(NotedStates()[5], DropTable(1), NotedStates()[6])
  {
    assert FIVE["s"] - {"a"} == NO_TABLE["s"];
  }

  lemma NotingLate()
    ensures Leads(NotedStates()[6], NoteDrop(1, 10, 10), NotedStates()[7])
  {
    hide Apply;
    NotedLedger(NotedStates()[6]);
  }

  lemma NotedLedger(s: Sys)
    requires s == NotedStates()[6]
    ensures var o := Apply(CONFIG, s.ledger, 10, 10, NoteDropped("s", 5));
            o.ledger == Ledger(map["s" := Entry(10, 0, 0)], 5, 5) && o.deleted == {"s"}
  {
    PrunedBare(s);
  }

  lemma NotedSteps()
    ensures Steps(NotedStates(), NotedEvents())
  {
    hide Leads;
    Opening();
    Reserving();
    Committing();
    Asking();
    Counting();
    DroppingCounted();
    NotingLate();
  }

  /** The drop held five rows and a table; they are taken from a session opened with none in the same call. */
  lemma LateNoteRun()
    ensures Run(CONFIG, NotedStates(), NotedEvents())
    ensures var s, t := NotedStates()[6], NotedStates()[7];
            && Owed(s.ops[1], "s", true) == 5 && Owed(s.ops[1], "s", false) == 1
            && s.ledger.sessions["s"] == Entry(0, 1, 5) && t.ledger.sessions["s"] == Entry(10, 0, 0)
            && !IsLive(CONFIG, s, 10, "s")
  {
    NotedSteps();
    StepsAreRun(NotedStates(), NotedEvents());
  }
}
