/** The ledger agrees with the tables in every disciplined interleaving, and what that gives: no subtraction
    saturates, and a failed ingest leaves no trace. */
module LedgerConservation {
  import opened Basics
  import opened Scratchpad
  import opened Interleaving
  import opened LedgerAgreement

  predicate Active(op: Op) { op.stage != Finished }

  lemma {:induction false} NothingPending(ops: seq<Op>, id: SessionId, ofRows: bool)
    requires forall i | 0 <= i < |ops| && Active(ops[i]) :: ops[i].id != id
    ensures Pending(ops, id, ofRows) == 0
  {
    if ops != [] {
      assert Active(ops[|ops| - 1]) ==> ops[|ops| - 1].id != id;
      NothingPending(ops[..|ops| - 1], id, ofRows);
    }
  }

  /** Every ledger is right, and the sessions of the operations in flight are there. */
  ghost predicate Conserved(s: Sys) {
    AllAgree(s) && forall i | 0 <= i < |s.ops| && Active(s.ops[i]) :: s.ops[i].id in s.ledger.sessions
  }

  // ---------- the hypotheses ----------

  ghost predicate KeepsBusy(c: Config, s: Sys, now: nat, call: Call) {
    forall i | 0 <= i < |s.ops| && Active(s.ops[i]) && s.ops[i].id in s.ledger.sessions ::
      s.ops[i].id in Prune(c, s.ledger, now).sessions && call != Release(s.ops[i].id)
  }

  /** No session is removed while it has an operation in flight. */
  ghost predicate KeepsBusySessions(c: Config, s: Sys, e: Event) {
    HasClock(e) && CallOf(s, e).Some? ==> KeepsBusy(c, s, e.now, CallOf(s, e).value)
  }

  /** A session is opened only over an empty file, or one that is deleted or about to be. */
  ghost predicate OpensEmpty(c: Config, s: Sys, e: Event) {
    e.Locked? && e.call.Ensure? && !IsLive(c, s, e.now, e.call.id) && !NoRoom(c, s, e.now) ==>
      FileFound(s, e.call.id) == map[]
  }

  /** No operation writes to a file whose deletion is under way, and a drop still finds the rows it counted. */
  ghost predicate WritesQuietly(s: Sys, e: Event)
    requires Enabled(s, e)
  {
    && (e.Commit? || e.DropTable? ==> s.ops[e.i].id !in s.deleting)
    && (e.DropTable? ==> TablesOf(s.db, s.ops[e.i].id)[s.ops[e.i].table] == s.ops[e.i].stage.n)
  }

  /** The two note calls that no server code makes are not made either. */
  ghost predicate Disciplined(c: Config, s: Sys, e: Event)
    requires Enabled(s, e)
  {
    && KeepsBusySessions(c, s, e) && OpensEmpty(c, s, e) && WritesQuietly(s, e)
    && (e.Locked? ==> !e.call.NoteCreated? && !e.call.NoteRows?)
  }

  lemma BusyIsLive(c: Config, s: Sys, e: Event, i: nat)
    requires Conserved(s) && KeepsBusySessions(c, s, e) && HasClock(e) && CallOf(s, e).Some?
    requires i < |s.ops| && Active(s.ops[i])
    ensures IsLive(c, s, e.now, s.ops[i].id)
  {
    hide AllAgree;
    LiveIsKept(c, s, e.now, s.ops[i].id);
  }

  lemma DisciplinedIsHarmless(c: Config, s: Sys, e: Event)
    requires Enabled(s, e) && Conserved(s) && Disciplined(c, s, e) && c.maxRows < U64_MAX
    ensures Harmless(c, s, e)
  {
    hide RowTotal, Pending, AllAgree, IsLive, NoRoom, FileFound, KeepsBusy;
    if e.NoteDrop? {
      BusyIsLive(c, s, e, e.i);
    } else if e.Locked? && e.call.Ensure? && !IsLive(c, s, e.now, e.call.id) {
      forall i | 0 <= i < |s.ops| && Active(s.ops[i]) ensures s.ops[i].id != e.call.id { BusyIsLive(c, s, e, i); }
      NothingPending(s.ops, e.call.id, true);
      NothingPending(s.ops, e.call.id, false);
    }
  }

  // ---------- busy sessions stay ----------

  lemma LiveStays(c: Config, s: Sys, now: nat, later: nat, call: Call, id: SessionId)
    requires id in Prune(c, s.ledger, now).sessions && call != Release(id)
    ensures id in LockedCall(c, s, now, later, call).ledger.sessions
  {
    hide EffectOf;
  }

  /** The events that move one operation on, and where to. */
  predicate Advances(e: Event) {
    e.Commit? || e.Abort? || e.RollBack? || e.CountRows? || e.DropTable? || e.GiveUp? || e.NoteDrop?
  }

  function StageAfter(s: Sys, e: Event): Stage
    requires Enabled(s, e) && Advances(e)
  {
    match e
    case Abort(_) => Aborted
    case CountRows(i) => Counted(TablesOf(s.db, s.ops[i].id)[s.ops[i].table])
    case DropTable(i) => Dropped(s.ops[i].stage.n)
    case _ => Finished
  }

  lemma OpsAfter(c: Config, s: Sys, e: Event)
    requires Enabled(s, e)
    ensures var t := Post(c, s, e);
            if Advances(e) then e.i < |s.ops| && t.ops == s.ops[e.i := s.ops[e.i].(stage := StageAfter(s, e))]
            else if e.BeginIngest? || e.BeginDrop? then
              t.ops == s.ops
              || (|t.ops| == |s.ops| + 1 && t.ops[..|s.ops|] == s.ops && t.ops[|s.ops|].id == e.id
                  && IsLive(c, s, e.now, e.id))
            else t.ops == s.ops
  {
    if e.BeginIngest? || e.BeginDrop? {
      LiveIsKept(c, s, e.now, e.id);
      hide Live;
    } else {
      hide Apply;
    }
  }

  /** The operations in flight after a step were in flight before it, or just began in a live session. */
  lemma BusyBefore(c: Config, s: Sys, e: Event, i: nat)
    requires Enabled(s, e) && i < |Post(c, s, e).ops| && Active(Post(c, s, e).ops[i])
    ensures var t := Post(c, s, e);
            if i < |s.ops| then Active(s.ops[i]) && t.ops[i].id == s.ops[i].id
            else (e.BeginIngest? || e.BeginDrop?) && t.ops[i].id == e.id && e.id in Prune(c, s.ledger, e.now).sessions
  {
    hide Post, IsLive;
    OpsAfter(c, s, e);
    if e.BeginIngest? || e.BeginDrop? {
      LiveIsKept(c, s, e.now, e.id);
      assert i < |s.ops| ==> Post(c, s, e).ops[..|s.ops|][i] == Post(c, s, e).ops[i];
    }
  }

  lemma ClockCalls(s: Sys, e: Event)
    requires Enabled(s, e) && HasClock(e)
    ensures CallOf(s, e).Some?
  {}

  lemma BusyStay(c: Config, s: Sys, e: Event)
    requires Enabled(s, e) && Conserved(s) && KeepsBusySessions(c, s, e)
    ensures var t := Post(c, s, e); forall i | 0 <= i < |t.ops| && Active(t.ops[i]) :: t.ops[i].id in t.ledger.sessions
  {
    hide Post, Enabled, AllAgree, IsLive;
    var t := Post(c, s, e);
    forall i | 0 <= i < |t.ops| && Active(t.ops[i]) ensures t.ops[i].id in t.ledger.sessions {
      BusyBefore(c, s, e, i);
      if HasClock(e) { ClockCalls(s, e); }
      LedgerStays(c, s, e, t.ops[i].id);
    }
  }

  /** A session leaves the ledger only in a call that prunes or releases it. */
  lemma LedgerStays(c: Config, s: Sys, e: Event, id: SessionId)
    requires Enabled(s, e) && id in s.ledger.sessions
    requires HasClock(e) ==> id in Prune(c, s.ledger, e.now).sessions && CallOf(s, e).value != Release(id)
    ensures id in Post(c, s, e).ledger.sessions
  {
    hide Apply, Prune;
    if HasClock(e) { LiveStays(c, s, e.now, e.later, CallOf(s, e).value, id); }
  }

  lemma StepKeeps(c: Config, s: Sys, e: Event)
    requires ConfigOk(c) && c.maxRows < U64_MAX
    requires Enabled(s, e) && Conserved(s) && Disciplined(c, s, e)
    ensures Conserved(Post(c, s, e))
  {
    hide AllAgree, Post, Harmless;
    DisciplinedIsHarmless(c, s, e);
    StepAgreesIff(c, s, e);
    BusyStay(c, s, e);
  }

  // ---------- the main theorem ----------

  ghost predicate DisciplinedRun(c: Config, states: seq<Sys>, events: seq<Event>) {
    && Run(c, states, events) && |states| == |events| + 1 && c.maxRows < U64_MAX
    && forall i | 0 <= i < |events| :: Enabled(states[i], events[i]) && Disciplined(c, states[i], events[i])
  }

  /** In every state of every disciplined run, every session's ledger is the rows and slots of its
      tables plus those held by operations in flight. */
  lemma {:induction false} LedgerConserved(c: Config, states: seq<Sys>, events: seq<Event>, k: nat)
    requires DisciplinedRun(c, states, events) && k < |states|
    ensures Conserved(states[k])
  {
    hide Run, Disciplined, Enabled, Post, Conserved;
    if k == 0 {
      Begins(c, states, events);
    } else {
      LedgerConserved(c, states, events, k - 1);
      RunStep(c, states, events, k - 1);
      StepKeeps(c, states[k - 1], events[k - 1]);
    }
  }

  lemma Begins(c: Config, states: seq<Sys>, events: seq<Event>)
    requires Run(c, states, events)
    ensures Conserved(states[0])
  {
    RunStart(c, states, events);
  }

  // ---------- nothing saturates ----------

  /** What the last call of an operation leaves and what the operation held add up to what was there. */
  ghost predicate TakesBack(s: Sys, t: Sys, op: Op) {
    && op.id in s.ledger.sessions && op.id in t.ledger.sessions
    && t.ledger.sessions[op.id].rowsUsed + Owed(op, op.id, true) == s.ledger.sessions[op.id].rowsUsed
    && t.ledger.sessions[op.id].tablesUsed + Owed(op, op.id, false) == s.ledger.sessions[op.id].tablesUsed
  }

  /** No subtraction saturates in a rollback or a noted drop whose call removes no busy session. */
  lemma NothingSaturates(c: Config, s: Sys, e: Event)
    requires Ends(s, e) && Conserved(s) && KeepsBusySessions(c, s, e)
    ensures TakesBack(s, Post(c, s, e), s.ops[e.i])
  {
    hide AllAgree, Post, Owed;
    BusyIsLive(c, s, e, e.i);
    EndTakesBack(c, s, e);
  }

  /** In a disciplined run no subtraction saturates at all. */
  lemma NothingEverSaturates(c: Config, states: seq<Sys>, events: seq<Event>, k: nat)
    requires DisciplinedRun(c, states, events) && k < |events| && (events[k].RollBack? || events[k].NoteDrop?)
    ensures events[k].i < |states[k].ops| && TakesBack(states[k], states[k + 1], states[k].ops[events[k].i])
  {
    hide Run, Conserved, Post;
    LedgerConserved(c, states, events, k);
    RunStep(c, states, events, k);
    NothingSaturates(c, states[k], events[k]);
  }

  // ---------- failed ingests ----------

  /** A failed ingest leaves no trace: reserve, abort and rollback with nothing in between give the
      session its old numbers back and never touch a table. */
  lemma FailedIngestUndone(c: Config, s: Sys, e: Event, now: nat, later: nat)
    requires c.maxRows < U64_MAX && ConfigOk(c) && e.BeginIngest? && Enabled(s, e)
    requires !Apply(c, s.ledger, e.now, e.later, Reserve(e.id, e.rows, e.create)).reply.Failed?
    requires e.later <= now <= later && now < e.later + c.sessionTtl
    ensures var i := |s.ops|;
            var s1 := Post(c, s, e);
            && Enabled(s1, Abort(i))
            && var s2 := Post(c, s1, Abort(i));
               && Enabled(s2, RollBack(i, now, later))
               && var s3 := Post(c, s2, RollBack(i, now, later));
                  && s3.db == s.db
                  && e.id in s.ledger.sessions && e.id in s3.ledger.sessions
                  && s3.ledger.sessions[e.id].rowsUsed == s.ledger.sessions[e.id].rowsUsed
                  && s3.ledger.sessions[e.id].tablesUsed == s.ledger.sessions[e.id].tablesUsed
  {
    hide Apply;
    var call, undo := Reserve(e.id, e.rows, e.create), Rollback(e.id, e.rows, e.create);
    ReserveFound(c, s.ledger, e.now, e.later, call);
    NamedEntry(c, s, e.now, e.later, call);
    var s1 := Post(c, s, e);
    assert s1.ops[|s.ops|] == Ingest(e.id, e.table, e.rows, e.create, Reserved);
    var s2 := Post(c, s1, Abort(|s.ops|));
    assert CallOf(s2, RollBack(|s.ops|, now, later)) == Some(undo);
    NamedEntry(c, s2, now, later, undo);
  }

  lemma ReserveFound(c: Config, l: Ledger, now: nat, later: nat, call: Call)
    requires call.Reserve? && !Apply(c, l, now, later, call).reply.Failed?
    ensures call.id in Prune(c, l, now).sessions
    ensures !FoundEffect(c, l.sessions[call.id], l.maxTables, later, call).reply.Failed?
  {}

  /** An operation keeps what it is about; a finished one stays finished, and only a commit finishes a reserved ingest. */
  lemma OpKept(c: Config, s: Sys, e: Event, j: nat)
    requires Enabled(s, e) && j < |s.ops| && s.ops[j].Ingest?
    ensures var t := Post(c, s, e);
            && j < |t.ops| && t.ops[j].(stage := s.ops[j].stage) == s.ops[j]
            && (s.ops[j].stage == Finished ==> t.ops[j].stage == Finished)
            && (e == Commit(j) ==> t.ops[j].stage == Finished)
  {
    hide Post, IsLive;
    OpsAfter(c, s, e);
    if e.BeginIngest? || e.BeginDrop? { assert Post(c, s, e).ops[..|s.ops|][j] == Post(c, s, e).ops[j]; }
  }

  lemma {:induction false} OpKeptOver(c: Config, states: seq<Sys>, events: seq<Event>, j: nat, i: nat, k: nat)
    requires Run(c, states, events) && i <= k < |states| && j < |states[i].ops| && states[i].ops[j].Ingest?
    ensures j < |states[k].ops| && states[k].ops[j].(stage := states[i].ops[j].stage) == states[i].ops[j]
    ensures states[i].ops[j].stage == Finished ==> states[k].ops[j].stage == Finished
    decreases k
  {
    hide Run, Enabled, Post;
    RunLength(c, states, events);
    if i < k {
      OpKeptOver(c, states, events, j, i, k - 1);
      RunStep(c, states, events, k - 1);
      OpKept(c, states[k - 1], events[k - 1], j);
    }
  }

  /** Whatever other steps come between, a failed ingest leaves no trace: its reservation adds exactly its rows and its
      slot, its rollback takes exactly those away, neither touches a table, and no commit of it comes between. */
  lemma FailedIngestLeavesNothing(c: Config, states: seq<Sys>, events: seq<Event>, b: nat, r: nat)
    requires DisciplinedRun(c, states, events) && b < r < |events|
    requires events[b].BeginIngest? && |states[b + 1].ops| > |states[b].ops|
    requires events[r].RollBack? && events[r].i == |states[b].ops|
    ensures var e, j := events[b], |states[b].ops|;
            && j < |states[r].ops|
            && states[r].ops[j] == Ingest(e.id, e.table, e.rows, e.create, Aborted)
            && TakesBack(states[b + 1], states[b], Ingest(e.id, e.table, e.rows, e.create, Reserved))
            && TakesBack(states[r], states[r + 1], states[r].ops[j])
            && states[b + 1].db == states[b].db && states[r + 1].db == states[r].db
            && forall i | b < i < r :: events[i] != Commit(j)
  {
    hide Run, Conserved, Disciplined, Post, Enabled;
    var j := |states[b].ops|;
    RunStep(c, states, events, b);
    Reserves(c, states[b], events[b]);
    RunStep(c, states, events, r);
    OpKeptOver(c, states, events, j, b + 1, r);
    RollsBack(c, states[r], events[r]);
    NothingEverSaturates(c, states, events, r);
    forall i | b < i < r ensures events[i] != Commit(j) {
      if events[i] == Commit(j) {
        RunStep(c, states, events, i);
        OpKeptOver(c, states, events, j, b + 1, i);
        OpKept(c, states[i], events[i], j);
        OpKeptOver(c, states, events, j, i + 1, r);
      }
    }
  }

  lemma Reserves(c: Config, s: Sys, e: Event)
    requires e.BeginIngest? && Enabled(s, e) && c.maxRows < U64_MAX && |Post(c, s, e).ops| > |s.ops|
    ensures var t, op := Post(c, s, e), Ingest(e.id, e.table, e.rows, e.create, Reserved);
            t.ops == s.ops + [op] && t.db == s.db && TakesBack(t, s, op)
  {
    var call := Reserve(e.id, e.rows, e.create);
    ReserveFound(c, s.ledger, e.now, e.later, call);
    LiveIsKept(c, s, e.now, e.id);
    NamedEntry(c, s, e.now, e.later, call);
    hide Apply;
    ReservedNumbers(c, s, e.now, e.later, call);
  }

  lemma RollsBack(c: Config, s: Sys, e: Event)
    requires e.RollBack? && Enabled(s, e)
    ensures s.ops[e.i].Ingest? && s.ops[e.i].stage == Aborted && Post(c, s, e).db == s.db
  {}

  // ---------- why the hypotheses are there ----------

  /** Rows are added exactly unless the sum passes the machine's maximum; a row limit below it rules
      that out, and the largest possible limit does not. */
  lemma ReserveIsExact(c: Config, e: Entry, maxTables: nat, later: nat, id: SessionId, rows: nat, create: bool)
    requires !FoundEffect(c, e, maxTables, later, Reserve(id, rows, create)).reply.Failed?
    ensures var f := FoundEffect(c, e, maxTables, later, Reserve(id, rows, create));
            && (f.entry.value.rowsUsed == e.rowsUsed + rows <==> e.rowsUsed + rows <= U64_MAX)
            && (c.maxRows < U64_MAX ==> f.entry.value.rowsUsed == e.rowsUsed + rows)
  {}

  lemma LargestLimitLosesRows()
    ensures FoundEffect(Config(1, U64_MAX), Entry(0, 0, U64_MAX), 1, 0, Reserve("s", 1, false)).entry
         == Some(Entry(0, 0, U64_MAX))
  {}
}
