/** The ledger against the tables: rows used are the rows in the session's tables, plus those reserved and
    not yet committed, plus those dropped and not yet noted. For every kind of step there is the exact
    condition, on the state before it, under which it keeps this true of every session. */
module LedgerAgreement {
  import opened Basics
  import opened Scratchpad
  import opened Interleaving

  // ---------- totals ----------

  ghost function RowTotal(t: Tables): nat
    decreases t.Keys
  {
    if t == map[] then 0
    else
      var k :| k in t;
      t[k] + RowTotal(t - {k})
  }

  lemma {:induction false} RowTotalWithout(t: Tables, k: string)
    requires k in t
    ensures RowTotal(t) == t[k] + RowTotal(t - {k})
    decreases t.Keys
  {
    var first :| first in t && RowTotal(t) == t[first] + RowTotal(t - {first});
    if first != k {
      RowTotalWithout(t - {first}, k);
      RowTotalWithout(t - {k}, first);
      assert t - {first} - {k} == t - {k} - {first};
    }
  }

  lemma CountWithout(t: Tables, k: string)
    requires k in t
    ensures |t| == |t - {k}| + 1
  {
    assert t.Keys == (t - {k}).Keys + {k};
  }

  lemma TableAdded(t: Tables, k: string, rows: nat)
    requires k !in t
    ensures RowTotal(t[k := rows]) == RowTotal(t) + rows && |t[k := rows]| == |t| + 1
  {
    hide RowTotal;
    RowTotalWithout(t[k := rows], k);
    assert t[k := rows] - {k} == t;
    assert t[k := rows].Keys == t.Keys + {k};
  }

  lemma TableGrown(t: Tables, k: string, rows: nat)
    requires k in t
    ensures RowTotal(t[k := rows]) + t[k] == RowTotal(t) + rows && |t[k := rows]| == |t|
  {
    hide RowTotal;
    RowTotalWithout(t, k);
    RowTotalWithout(t[k := rows], k);
    assert t[k := rows] - {k} == t - {k};
    assert t[k := rows].Keys == t.Keys;
  }

  /** What an operation in flight holds in the ledger of session `id`: rows, or table slots. */
  function Owed(op: Op, id: SessionId, ofRows: bool): nat {
    if op.id != id then 0
    else match op
      case Ingest(_, _, rows, create, stage) =>
        if stage != Reserved && stage != Aborted then 0 else if ofRows then rows else if create then 1 else 0
      case Drop(_, _, stage) =>
        if !stage.Dropped? then 0 else if ofRows then stage.n else 1
  }

  function Pending(ops: seq<Op>, id: SessionId, ofRows: bool): nat {
    if ops == [] then 0 else Pending(ops[..|ops| - 1], id, ofRows) + Owed(ops[|ops| - 1], id, ofRows)
  }

  lemma {:induction false} PendingUpdate(ops: seq<Op>, i: nat, op: Op, id: SessionId, ofRows: bool)
    requires i < |ops|
    ensures Pending(ops[i := op], id, ofRows) + Owed(ops[i], id, ofRows) == Pending(ops, id, ofRows) + Owed(op, id, ofRows)
    ensures Owed(ops[i], id, ofRows) <= Pending(ops, id, ofRows)
  {
    var n := |ops| - 1;
    if i < n {
      PendingUpdate(ops[..n], i, op, id, ofRows);
      assert ops[i := op][..n] == ops[..n][i := op];
    } else {
      assert ops[i := op][..n] == ops[..n];
    }
  }

  lemma PendingAppend(ops: seq<Op>, op: Op, id: SessionId, ofRows: bool)
    ensures Pending(ops + [op], id, ofRows) == Pending(ops, id, ofRows) + Owed(op, id, ofRows)
  {
    assert (ops + [op])[..|ops|] == ops;
  }

  lemma EmptyTotal()
    ensures RowTotal(map[]) == 0
  {}

  // ---------- agreement ----------

  /** The tables that count: a file waiting for deletion counts as empty. */
  function Effective(s: Sys, id: SessionId): Tables { if id in s.deleting then map[] else TablesOf(s.db, id) }

  ghost predicate Agrees(s: Sys, id: SessionId)
    requires id in s.ledger.sessions
  {
    && s.ledger.sessions[id].rowsUsed == RowTotal(Effective(s, id)) + Pending(s.ops, id, true)
    && s.ledger.sessions[id].tablesUsed == |Effective(s, id)| + Pending(s.ops, id, false)
  }

  ghost predicate AllAgree(s: Sys) { forall id | id in s.ledger.sessions :: Agrees(s, id) }

  lemma AgreesNow(s: Sys, id: SessionId)
    requires AllAgree(s) && id in s.ledger.sessions
    ensures Agrees(s, id)
  {}

  // ---------- the condition ----------

  /** The session is there after the call's own prune. */
  predicate IsLive(c: Config, s: Sys, now: nat, id: SessionId) {
    id in s.ledger.sessions && !Expired(s.ledger.sessions[id], now, c.sessionTtl)
  }

  /** No room for another session after the call's own prune. */
  predicate NoRoom(c: Config, s: Sys, now: nat) { |Live(s.ledger.sessions, now, c.sessionTtl)| >= s.ledger.maxSessions }

  /** The tables a session opened now starts with: none if its file is doomed, or goes with the old session. */
  function FileFound(s: Sys, id: SessionId): Tables {
    if id in s.deleting || id in s.ledger.sessions then map[] else TablesOf(s.db, id)
  }

  /** A session opened now finds no table, and of it no more is in flight than this. */
  ghost predicate Vacant(s: Sys, id: SessionId, rows: nat, tables: nat) {
    FileFound(s, id) == map[] && Pending(s.ops, id, true) == rows && Pending(s.ops, id, false) == tables
  }

  /** Its file and its operations in flight come to these numbers. */
  ghost predicate ComesTo(s: Sys, id: SessionId, rows: nat, tables: nat) {
    && RowTotal(FileFound(s, id)) + Pending(s.ops, id, true) == rows
    && |FileFound(s, id)| + Pending(s.ops, id, false) == tables
  }

  ghost predicate CallHarmless(c: Config, s: Sys, now: nat, call: Call) {
    match call
    case Ensure(id) => IsLive(c, s, now, id) || NoRoom(c, s, now) || Vacant(s, id, 0, 0)
    case NoteCreated(id) =>
      if IsLive(c, s, now, id) then s.ledger.sessions[id].tablesUsed >= s.ledger.maxTables
      else NoRoom(c, s, now) || ComesTo(s, id, 0, if s.ledger.maxTables > 0 then 1 else 0)
    case NoteRows(id, rows) =>
      if IsLive(c, s, now, id) then
        var used := s.ledger.sessions[id].rowsUsed;
        SaturatingAdd(used, rows) > c.maxRows || SaturatingAdd(used, rows) == used
      else
        var used := SaturatingAdd(0, rows);
        NoRoom(c, s, now) || ComesTo(s, id, if used > c.maxRows then 0 else used, 0)
    case _ => true
  }

  /** What decides whether a step that can be taken keeps every session's numbers right:
      - a session is opened only where there is nothing: no table in its file, no operation in flight for it;
      - a reservation does not saturate;
      - a commit or a drop of an open session does not go to a doomed file;
      - a dropped table has the rows that were counted. */
  ghost predicate Harmless(c: Config, s: Sys, e: Event)
    requires Enabled(s, e)
  {
    match e
    case Locked(call, now, _) => CallHarmless(c, s, now, call)
    case BeginIngest(id, _, rows, create, now, _) =>
      IsLive(c, s, now, id) ==>
        || (create && s.ledger.sessions[id].tablesUsed >= s.ledger.maxTables)
        || c.maxRows < U64_MAX
        || s.ledger.sessions[id].rowsUsed + rows <= U64_MAX
    case Commit(i) =>
      s.ops[i].id in s.ledger.sessions ==> s.ops[i].id !in s.deleting || (s.ops[i].rows == 0 && !s.ops[i].create)
    case DropTable(i) =>
      s.ops[i].id in s.ledger.sessions ==>
        s.ops[i].id !in s.deleting && TablesOf(s.db, s.ops[i].id)[s.ops[i].table] == s.ops[i].stage.n
    case NoteDrop(i, now, _) =>
      IsLive(c, s, now, s.ops[i].id) || NoRoom(c, s, now) || Vacant(s, s.ops[i].id, s.ops[i].stage.n, 1)
    case _ => true
  }

  lemma NothingIsVacant(t: Tables, rows: nat, tables: nat)
    ensures RowTotal(t) + rows == 0 && |t| + tables == 0 <==> t == map[] && rows == 0 && tables == 0
  {
    hide RowTotal;
    EmptyTotal();
  }

  // ---------- locked calls ----------

  /** Between two states the ledger of a session moves by these amounts and its files stay as they are. */
  ghost predicate Moves(s: Sys, t: Sys, id: SessionId, rows: int, tables: int) {
    && id in s.ledger.sessions && id in t.ledger.sessions
    && t.ledger.sessions[id].rowsUsed == s.ledger.sessions[id].rowsUsed + rows
    && t.ledger.sessions[id].tablesUsed == s.ledger.sessions[id].tablesUsed + tables
    && Effective(t, id) == Effective(s, id)
  }

  /** If the operations in flight move by as much, agreement is kept. */
  lemma Balance(s: Sys, t: Sys, id: SessionId, rows: int, tables: int)
    requires Moves(s, t, id, rows, tables) && Agrees(s, id)
    requires Pending(t.ops, id, true) == Pending(s.ops, id, true) + rows
    requires Pending(t.ops, id, false) == Pending(s.ops, id, false) + tables
    ensures Agrees(t, id)
  {}

  /** Sessions other than the one named by the call keep their numbers and their files. */
  lemma OthersUntouched(c: Config, s: Sys, now: nat, later: nat, call: Call, id: SessionId)
    requires id in LockedCall(c, s, now, later, call).ledger.sessions && (Updates(call) ==> id != call.id)
    ensures Moves(s, LockedCall(c, s, now, later, call), id, 0, 0)
  {
    hide EffectOf;
  }

  /** What the call makes of the entry of the session it names, when that session is live. */
  function NewEntry(c: Config, s: Sys, now: nat, later: nat, call: Call): Entry
    requires Updates(call) && call.id in s.ledger.sessions
  {
    var p := Prune(c, s.ledger, now);
    var f := EffectOf(c, Some(s.ledger.sessions[call.id]), IsFull(p), p.maxTables, later, call);
    if f.entry.Some? then f.entry.value else s.ledger.sessions[call.id]
  }

  lemma NamedEntry(c: Config, s: Sys, now: nat, later: nat, call: Call)
    requires Updates(call) && call.id in Prune(c, s.ledger, now).sessions
    ensures var t := LockedCall(c, s, now, later, call);
            && call.id in t.ledger.sessions
            && t.ledger.sessions[call.id] == NewEntry(c, s, now, later, call)
            && Effective(t, call.id) == Effective(s, call.id)
  {
    hide EffectOf;
  }

  lemma SameFiles(u: Sys, t: Sys, id: SessionId)
    requires u.db == t.db && u.deleting == t.deleting
    ensures Effective(u, id) == Effective(t, id)
  {}

  lemma LiveIsKept(c: Config, s: Sys, now: nat, id: SessionId)
    ensures IsLive(c, s, now, id) <==> id in Prune(c, s.ledger, now).sessions
    ensures IsLive(c, s, now, id) ==> Prune(c, s.ledger, now).sessions[id] == s.ledger.sessions[id]
    ensures NoRoom(c, s, now) <==> IsFull(Prune(c, s.ledger, now))
  {}

  /** After a call that changes the operations of its own session only, every other session still agrees. */
  lemma OthersAgree(c: Config, s: Sys, now: nat, later: nat, call: Call, ops: seq<Op>)
    requires AllAgree(s)
    requires forall id, b | !Updates(call) || id != call.id :: Pending(ops, id, b) == Pending(s.ops, id, b)
    ensures var t := LockedCall(c, s, now, later, call).(ops := ops);
            AllAgree(t) <==> (Updates(call) && call.id in t.ledger.sessions ==> Agrees(t, call.id))
  {
    hide Apply, Pending, RowTotal, Agrees, Effective;
    var u := LockedCall(c, s, now, later, call);
    var t := u.(ops := ops);
    forall id | id in t.ledger.sessions && (!Updates(call) || id != call.id) ensures Agrees(t, id) {
      OthersUntouched(c, s, now, later, call, id);
      SameFiles(u, t, id);
      Balance(s, t, id, 0, 0);
    }
  }

  /** A live session agrees after the call exactly when its entry moves by as much as the operations hold. */
  lemma LiveAgreesIff(c: Config, s: Sys, now: nat, later: nat, call: Call, ops: seq<Op>)
    requires Updates(call) && IsLive(c, s, now, call.id) && Agrees(s, call.id)
    ensures var t := LockedCall(c, s, now, later, call).(ops := ops);
            var before, after := s.ledger.sessions[call.id], NewEntry(c, s, now, later, call);
            && call.id in t.ledger.sessions && t.ledger.sessions[call.id] == after
            && (Agrees(t, call.id) <==>
                  && after.rowsUsed - before.rowsUsed == Pending(ops, call.id, true) - Pending(s.ops, call.id, true)
                  && after.tablesUsed - before.tablesUsed == Pending(ops, call.id, false) - Pending(s.ops, call.id, false))
  {
    hide Apply, NewEntry, Pending, RowTotal, Prune, Effective;
    LiveIsKept(c, s, now, call.id);
    NamedEntry(c, s, now, later, call);
    SameFiles(LockedCall(c, s, now, later, call), LockedCall(c, s, now, later, call).(ops := ops), call.id);
  }

  /** What a call makes of a session it has to open: nothing when there is no room. */
  lemma OpenedEntry(c: Config, s: Sys, now: nat, later: nat, call: Call)
    requires Updates(call) && !IsLive(c, s, now, call.id)
    ensures var t := LockedCall(c, s, now, later, call);
            if !Opens(call) || NoRoom(c, s, now) then call.id !in t.ledger.sessions
            else
              && call.id in t.ledger.sessions
              && t.ledger.sessions[call.id] == OpenedEffect(c, Entry(later, 0, 0), s.ledger.maxTables, later, call).entry.value
              && Effective(t, call.id) == FileFound(s, call.id)
  {
    hide OpenedEffect;
    LiveIsKept(c, s, now, call.id);
    OpenedStores(c, Entry(later, 0, 0), s.ledger.maxTables, later, call);
  }

  lemma OpenedStores(c: Config, e: Entry, maxTables: nat, later: nat, call: Call)
    ensures Opens(call) ==>
              var f := OpenedEffect(c, e, maxTables, later, call); f.entry.Some? && f.reply != Failed(SessionsExceeded)
  {}

  // ---------- one step at a time ----------

  /** What a call outside an operation makes of the numbers of a live session. */
  lemma LiveNumbers(c: Config, s: Sys, now: nat, later: nat, call: Call)
    requires Updates(call) && IsLive(c, s, now, call.id)
    requires !call.Reserve? && !call.Rollback? && !call.NoteDropped?
    ensures var before, after := s.ledger.sessions[call.id], NewEntry(c, s, now, later, call);
            after.rowsUsed == before.rowsUsed && after.tablesUsed == before.tablesUsed <==> CallHarmless(c, s, now, call)
  {
    hide RowTotal, Pending;
  }

  lemma LockedAgreesIff(c: Config, s: Sys, e: Event)
    requires e.Locked? && Enabled(s, e) && AllAgree(s)
    ensures AllAgree(Post(c, s, e)) <==> Harmless(c, s, e)
  {
    hide RowTotal, Pending, Apply, NewEntry, IsLive, NoRoom, FileFound, Agrees, Effective;
    var call := e.call;
    var t := LockedCall(c, s, e.now, e.later, call);
    assert t.(ops := s.ops) == t;
    OthersAgree(c, s, e.now, e.later, call, s.ops);
    if Updates(call) && IsLive(c, s, e.now, call.id) {
      LiveIsKept(c, s, e.now, call.id);
      LiveAgreesIff(c, s, e.now, e.later, call, s.ops);
      LiveNumbers(c, s, e.now, e.later, call);
    } else if Updates(call) {
      OpenedEntry(c, s, e.now, e.later, call);
      if Opens(call) && !NoRoom(c, s, e.now) { OpenedAgreesIff(c, s, e.now, e.later, call); }
    }
  }

  lemma OpenedAgreesIff(c: Config, s: Sys, now: nat, later: nat, call: Call)
    requires Opens(call) && !call.NoteDropped? && !IsLive(c, s, now, call.id) && !NoRoom(c, s, now)
    ensures var t := LockedCall(c, s, now, later, call);
            call.id in t.ledger.sessions && (Agrees(t, call.id) <==> CallHarmless(c, s, now, call))
  {
    hide RowTotal, Pending, Apply, IsLive, NoRoom, FileFound, Effective;
    OpenedEntry(c, s, now, later, call);
    NothingIsVacant(FileFound(s, call.id), Pending(s.ops, call.id, true), Pending(s.ops, call.id, false));
  }

  lemma BeginIngestAgreesIff(c: Config, s: Sys, e: Event)
    requires ConfigOk(c) && e.BeginIngest? && Enabled(s, e) && AllAgree(s)
    ensures AllAgree(Post(c, s, e)) <==> Harmless(c, s, e)
  {
    hide RowTotal, Pending, Agrees, Effective;
    var call := Reserve(e.id, e.rows, e.create);
    var t := LockedCall(c, s, e.now, e.later, call);
    var refused := Apply(c, s.ledger, e.now, e.later, call).reply.Failed?;
    var op := Ingest(e.id, e.table, e.rows, e.create, Reserved);
    var ops := if refused then s.ops else s.ops + [op];
    hide Apply;
    forall id, b ensures Pending(ops, id, b) == Pending(s.ops, id, b) + if refused then 0 else Owed(op, id, b) {
      PendingAppend(s.ops, op, id, b);
    }
    assert Post(c, s, e) == t.(ops := ops);
    OthersAgree(c, s, e.now, e.later, call, ops);
    if IsLive(c, s, e.now, e.id) {
      LiveAgreesIff(c, s, e.now, e.later, call, ops);
      ReservedNumbers(c, s, e.now, e.later, call);
    } else {
      OpenedEntry(c, s, e.now, e.later, call);
    }
  }

  /** A reservation on a live session: refused it changes nothing, accepted it adds the saturated sum. */
  lemma ReservedNumbers(c: Config, s: Sys, now: nat, later: nat, call: Call)
    requires call.Reserve? && IsLive(c, s, now, call.id)
    ensures var before, after := s.ledger.sessions[call.id], NewEntry(c, s, now, later, call);
            var next := SaturatingAdd(before.rowsUsed, call.rows);
            var refused := (call.create && before.tablesUsed >= s.ledger.maxTables) || next > c.maxRows;
            && (Apply(c, s.ledger, now, later, call).reply.Failed? <==> refused)
            && after.rowsUsed == (if refused then before.rowsUsed else next)
            && after.tablesUsed == before.tablesUsed + (if call.create && !refused then 1 else 0)
  {
    LiveIsKept(c, s, now, call.id);
  }

  lemma BeginDropAgrees(c: Config, s: Sys, e: Event)
    requires e.BeginDrop? && Enabled(s, e) && AllAgree(s)
    ensures AllAgree(Post(c, s, e))
  {
    hide RowTotal, Pending, Agrees, Effective, IsLive;
    var call := Touch(e.id);
    var refused := Apply(c, s.ledger, e.now, e.later, call).reply.Failed?;
    var op := Drop(e.id, e.table, Asked);
    var ops := if refused then s.ops else s.ops + [op];
    hide Apply;
    forall id, b ensures Pending(ops, id, b) == Pending(s.ops, id, b) { PendingAppend(s.ops, op, id, b); }
    assert Post(c, s, e) == LockedCall(c, s, e.now, e.later, call).(ops := ops);
    OthersAgree(c, s, e.now, e.later, call, ops);
    if IsLive(c, s, e.now, e.id) {
      LiveIsKept(c, s, e.now, e.id);
      LiveAgreesIff(c, s, e.now, e.later, call, ops);
    } else {
      OpenedEntry(c, s, e.now, e.later, call);
    }
  }

  /** The last call of an operation: the rollback of an ingest, the note of a drop. */
  predicate Ends(s: Sys, e: Event) { (e.RollBack? || e.NoteDrop?) && Enabled(s, e) }

  /** On a live session the last call takes back exactly what the operation held: no subtraction saturates. */
  lemma EndTakesBack(c: Config, s: Sys, e: Event)
    requires Ends(s, e) && AllAgree(s) && IsLive(c, s, e.now, s.ops[e.i].id)
    ensures var op, t := s.ops[e.i], Post(c, s, e);
            && op.id in t.ledger.sessions
            && t.ledger.sessions[op.id].rowsUsed + Owed(op, op.id, true) == s.ledger.sessions[op.id].rowsUsed
            && t.ledger.sessions[op.id].tablesUsed + Owed(op, op.id, false) == s.ledger.sessions[op.id].tablesUsed
  {
    hide RowTotal, Apply, Pending, AllAgree, Effective, Prune;
    var op, call := s.ops[e.i], CallOf(s, e).value;
    LiveIsKept(c, s, e.now, op.id);
    AgreesNow(s, op.id);
    PendingUpdate(s.ops, e.i, op, op.id, true);
    PendingUpdate(s.ops, e.i, op, op.id, false);
    NamedEntry(c, s, e.now, e.later, call);
  }

  lemma EndAgreesIff(c: Config, s: Sys, e: Event)
    requires Ends(s, e) && AllAgree(s)
    ensures AllAgree(Post(c, s, e)) <==> Harmless(c, s, e)
  {
    hide RowTotal, Pending, Apply, Agrees, Effective, IsLive, NoRoom, NewEntry, FileFound;
    var op, call := s.ops[e.i], CallOf(s, e).value;
    var done := op.(stage := Finished);
    var ops := s.ops[e.i := done];
    forall id, b ensures Pending(ops, id, b) + Owed(op, id, b) == Pending(s.ops, id, b) {
      PendingUpdate(s.ops, e.i, done, id, b);
    }
    var t := LockedCall(c, s, e.now, e.later, call).(ops := ops);
    assert Post(c, s, e) == t;
    OthersAgree(c, s, e.now, e.later, call, ops);
    if IsLive(c, s, e.now, op.id) {
      EndTakesBack(c, s, e);
      LiveIsKept(c, s, e.now, op.id);
      LiveAgreesIff(c, s, e.now, e.later, call, ops);
    } else {
      OpenedEntry(c, s, e.now, e.later, call);
      if e.NoteDrop? && !NoRoom(c, s, e.now) {
        SameFiles(LockedCall(c, s, e.now, e.later, call), t, op.id);
        NothingIsVacant(FileFound(s, op.id), Pending(ops, op.id, true), Pending(ops, op.id, false));
        NotedAgreesIff(t, op.id);
      }
    }
  }

  lemma NotedAgreesIff(t: Sys, id: SessionId)
    requires id in t.ledger.sessions
    ensures Agrees(t, id) <==>
            && t.ledger.sessions[id].rowsUsed == RowTotal(Effective(t, id)) + Pending(t.ops, id, true)
            && t.ledger.sessions[id].tablesUsed == |Effective(t, id)| + Pending(t.ops, id, false)
  {}

  /** A note for a session that is gone opens it anew, and there both subtractions saturate at zero. */
  lemma LateNoteSaturates(c: Config, s: Sys, e: Event)
    requires Ends(s, e) && e.NoteDrop? && !IsLive(c, s, e.now, s.ops[e.i].id) && !NoRoom(c, s, e.now)
    ensures var op, t := s.ops[e.i], Post(c, s, e);
            && op.id in t.ledger.sessions && t.ledger.sessions[op.id] == Entry(e.later, 0, 0)
            && Owed(op, op.id, false) == 1
  {
    hide Apply, IsLive, NoRoom;
    OpenedEntry(c, s, e.now, e.later, CallOf(s, e).value);
  }

  /** A session that a call opens, again or for the first time, has the right numbers exactly when its file is empty,
      doomed or goes with the old session, and nothing is in flight for it but the drop that is being noted. */
  lemma OpeningAgreesIff(c: Config, s: Sys, e: Event, id: SessionId)
    requires Enabled(s, e) && ((e.Locked? && e.call == Ensure(id)) || (e.NoteDrop? && s.ops[e.i].id == id))
    requires !IsLive(c, s, e.now, id) && !NoRoom(c, s, e.now)
    ensures var t := Post(c, s, e);
            var held, slots := if e.NoteDrop? then s.ops[e.i].stage.n else 0, if e.NoteDrop? then 1 else 0;
            && id in t.ledger.sessions
            && (Agrees(t, id) <==>
                  && (TablesOf(s.db, id) == map[] || id in s.deleting || id in s.ledger.sessions)
                  && Pending(s.ops, id, true) == held && Pending(s.ops, id, false) == slots)
  {
    hide RowTotal, Pending, Apply, IsLive, NoRoom, Effective;
    var call := CallOf(s, e).value;
    OpenedEntry(c, s, e.now, e.later, call);
    if e.Locked? {
      OpenedAgreesIff(c, s, e.now, e.later, call);
    } else {
      var t, op := Post(c, s, e), s.ops[e.i];
      PendingUpdate(s.ops, e.i, t.ops[e.i], id, true);
      PendingUpdate(s.ops, e.i, t.ops[e.i], id, false);
      SameFiles(LockedCall(c, s, e.now, e.later, call), t, id);
      NothingIsVacant(FileFound(s, id), Pending(t.ops, id, true), Pending(t.ops, id, false));
    }
  }

  lemma StageAgrees(s: Sys, i: nat, stage: Stage)
    requires i < |s.ops| && AllAgree(s)
    requires forall b :: Owed(s.ops[i].(stage := stage), s.ops[i].id, b) == Owed(s.ops[i], s.ops[i].id, b)
    ensures AllAgree(SetStage(s, i, stage))
  {
    hide RowTotal, Pending;
    var t := SetStage(s, i, stage);
    forall id | id in t.ledger.sessions ensures Agrees(t, id) {
      PendingUpdate(s.ops, i, t.ops[i], id, true);
      PendingUpdate(s.ops, i, t.ops[i], id, false);
      AgreesNow(s, id);
    }
  }

  /** A step of operation `i` that writes its file: the other sessions still agree, and its own agrees exactly when
      what the file gains is what the operation gives up. */
  lemma FileAgreesIff(s: Sys, i: nat, stage: Stage, tables: Tables)
    requires i < |s.ops| && AllAgree(s)
    ensures var op, t := s.ops[i], SetTables(SetStage(s, i, stage), s.ops[i].id, tables);
            var before, after := Effective(s, op.id), if op.id in s.deleting then map[] else tables;
            AllAgree(t) <==>
            (op.id in s.ledger.sessions ==>
               && RowTotal(after) + Owed(t.ops[i], op.id, true) == RowTotal(before) + Owed(op, op.id, true)
               && |after| + Owed(t.ops[i], op.id, false) == |before| + Owed(op, op.id, false))
  {
    hide RowTotal, Pending, Owed;
    var op, t := s.ops[i], SetTables(SetStage(s, i, stage), s.ops[i].id, tables);
    forall id, b ensures Pending(t.ops, id, b) + Owed(op, id, b) == Pending(s.ops, id, b) + Owed(t.ops[i], id, b) {
      PendingUpdate(s.ops, i, t.ops[i], id, b);
    }
    forall id | id in t.ledger.sessions && id != op.id ensures Agrees(t, id) {
      AgreesNow(s, id);
      OwedElsewhere(op, t.ops[i], id);
    }
    if op.id in s.ledger.sessions { AgreesNow(s, op.id); }
  }

  lemma OwedElsewhere(op: Op, done: Op, id: SessionId)
    requires op.id != id && done.id != id
    ensures forall b :: Owed(op, id, b) == 0 && Owed(done, id, b) == 0
  {}

  function CommittedTables(t: Tables, op: Op): Tables
    requires op.Ingest? && (op.create <==> op.table !in t)
  {
    t[op.table := (if op.create then 0 else t[op.table]) + op.rows]
  }

  /** A commit adds the rows of the ingest, and for a new table one table. */
  lemma CommitAdds(t: Tables, op: Op)
    requires op.Ingest? && (op.create <==> op.table !in t)
    ensures RowTotal(CommittedTables(t, op)) == RowTotal(t) + op.rows
    ensures |CommittedTables(t, op)| == |t| + if op.create then 1 else 0
  {
    hide RowTotal;
    if op.create { TableAdded(t, op.table, op.rows); }
    else { TableGrown(t, op.table, t[op.table] + op.rows); }
  }

  lemma CommitAgreesIff(c: Config, s: Sys, e: Event)
    requires e.Commit? && Enabled(s, e) && AllAgree(s)
    ensures AllAgree(Post(c, s, e)) <==> Harmless(c, s, e)
  {
    var op, t := s.ops[e.i], TablesOf(s.db, s.ops[e.i].id);
    CommitStep(c, s, e);
    hide RowTotal, Pending, AllAgree, CommittedTables, Post, SetTables, Enabled, Harmless;
    CommitAdds(t, op);
    FileAgreesIff(s, e.i, Finished, CommittedTables(t, op));
  }

  lemma CommitStep(c: Config, s: Sys, e: Event)
    requires e.Commit? && Enabled(s, e)
    ensures var op := s.ops[e.i];
            && op.Ingest? && op.stage == Reserved
            && (op.create <==> op.table !in TablesOf(s.db, op.id))
            && Post(c, s, e) == SetTables(SetStage(s, e.i, Finished), op.id, CommittedTables(TablesOf(s.db, op.id), op))
            && (Harmless(c, s, e) <==>
                  (op.id in s.ledger.sessions ==> op.id !in s.deleting || (op.rows == 0 && !op.create)))
  {}

  lemma DropAgreesIff(c: Config, s: Sys, e: Event)
    requires e.DropTable? && Enabled(s, e) && AllAgree(s)
    ensures AllAgree(Post(c, s, e)) <==> Harmless(c, s, e)
  {
    hide RowTotal, Pending, AllAgree;
    var op, t := s.ops[e.i], TablesOf(s.db, s.ops[e.i].id);
    RowTotalWithout(t, op.table);
    CountWithout(t, op.table);
    FileAgreesIff(s, e.i, Dropped(op.stage.n), t - {op.table});
  }

  lemma DeleteAgrees(c: Config, s: Sys, e: Event)
    requires e.DeleteFile? && Enabled(s, e) && AllAgree(s)
    ensures AllAgree(Post(c, s, e))
  {
    hide RowTotal, Effective;
    var t := Post(c, s, e);
    forall id | id in t.ledger.sessions ensures Agrees(t, id) {
      AgreesNow(s, id);
      DeletedIsEmpty(s, e.id, id);
    }
  }

  lemma DeletedIsEmpty(s: Sys, gone: SessionId, id: SessionId)
    requires gone in s.deleting
    ensures Effective(s.(db := s.db - {gone}, deleting := s.deleting - multiset{gone}), id) == Effective(s, id)
  {}

  lemma LimitsAgree(c: Config, s: Sys, e: Event)
    requires (e.SetMaxSessions? || e.SetMaxTables?) && Enabled(s, e) && AllAgree(s)
    ensures AllAgree(Post(c, s, e))
  {
    hide RowTotal;
    var t := Post(c, s, e);
    forall id | id in t.ledger.sessions ensures Agrees(t, id) { AgreesNow(s, id); }
  }

  // ---------- the main theorems ----------

  /** From a state in which every ledger is right, a step leads to one exactly when it is harmless. */
  lemma StepAgreesIff(c: Config, s: Sys, e: Event)
    requires ConfigOk(c) && Enabled(s, e) && AllAgree(s)
    ensures AllAgree(Post(c, s, e)) <==> Harmless(c, s, e)
  {
    hide AllAgree, RowTotal, Pending, Apply, CallHarmless, IsLive, NoRoom, Vacant;
    match e
    case Locked(_, _, _) => LockedAgreesIff(c, s, e);
    case BeginIngest(_, _, _, _, _, _) => BeginIngestAgreesIff(c, s, e);
    case BeginDrop(_, _, _, _) => BeginDropAgrees(c, s, e);
    case Commit(_) => CommitAgreesIff(c, s, e);
    case DropTable(_) => DropAgreesIff(c, s, e);
    case DeleteFile(_) => DeleteAgrees(c, s, e);
    case SetMaxSessions(_) => LimitsAgree(c, s, e);
    case SetMaxTables(_) => LimitsAgree(c, s, e);
    case Abort(i) => StageAgrees(s, i, Aborted);
    case CountRows(i) => StageAgrees(s, i, Counted(TablesOf(s.db, s.ops[i].id)[s.ops[i].table]));
    case GiveUp(i) => StageAgrees(s, i, Finished);
    case RollBack(_, _, _) => EndAgreesIff(c, s, e);
    case NoteDrop(_, _, _) => EndAgreesIff(c, s, e);
  }

  lemma RunStep(c: Config, states: seq<Sys>, events: seq<Event>, i: nat)
    requires Run(c, states, events) && i < |events|
    ensures ConfigOk(c) && Enabled(states[i], events[i]) && states[i + 1] == Post(c, states[i], events[i])
  {
    hide Enabled, Post;
  }

  lemma RunLength(c: Config, states: seq<Sys>, events: seq<Event>)
    requires Run(c, states, events)
    ensures |states| == |events| + 1
  {}

  lemma RunStart(c: Config, states: seq<Sys>, events: seq<Event>)
    requires Run(c, states, events)
    ensures AllAgree(states[0])
  {}

  ghost predicate HarmlessUpTo(c: Config, states: seq<Sys>, events: seq<Event>, n: nat)
    requires Run(c, states, events) && n <= |events|
  {
    forall i | 0 <= i < n :: Enabled(states[i], events[i]) && Harmless(c, states[i], events[i])
  }

  /** Over every run, in every interleaving: all ledgers are right in all states up to the n-th exactly when all
      steps up to it are harmless. */
  lemma {:induction false} RunAgreesIff(c: Config, states: seq<Sys>, events: seq<Event>, n: nat)
    requires Run(c, states, events) && n <= |events|
    ensures (forall i | 0 <= i <= n :: AllAgree(states[i])) <==> HarmlessUpTo(c, states, events, n)
  {
    hide AllAgree, Harmless, Enabled, Post;
    if n == 0 {
      RunStart(c, states, events);
    } else {
      RunAgreesIff(c, states, events, n - 1);
      RunStep(c, states, events, n - 1);
      if AllAgree(states[n - 1]) { StepAgreesIff(c, states[n - 1], events[n - 1]); }
    }
  }
}
