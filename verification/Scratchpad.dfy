/** The scratchpad session manager (src/scratchpad.rs): per-session ledgers behind a mutex. Each locked
    call is a function of the ledger; the class runs the source's steps and is proved against it. */
module Scratchpad {
  import opened Basics

  // A normalised session id. The database path is a function of the id, so the id stands for it too.
  type SessionId = string

  datatype Entry = Entry(lastTouched: nat, tablesUsed: nat, rowsUsed: nat)

  datatype Config = Config(sessionTtl: nat, maxRows: nat)

  datatype Ledger = Ledger(sessions: map<SessionId, Entry>, maxSessions: nat, maxTables: nat)

  predicate ConfigOk(c: Config) { 0 < c.sessionTtl && 0 < c.maxRows <= U64_MAX }

  datatype Snapshot = Snapshot(tablesUsed: nat, tablesRemaining: nat, rowsUsed: nat, rowsRemaining: nat)

  datatype Error = SessionNotFound | SessionsExceeded | TablesExceeded | RowsExceeded

  datatype Reply = Empty | Number(n: nat) | Flag(b: bool) | Info(snapshot: Snapshot)
                 | Infos(all: map<SessionId, Snapshot>) | Failed(error: Error)

  /** The calls that take the lock. `Touch` stands for session_info, session_snapshot and
      existing_session_db_path, which treat the ledger alike. */
  datatype Call =
    | CountActive
    | CleanupExpired
    | ListSessions
    | Touch(id: SessionId)
    | Release(id: SessionId)
    | Ensure(id: SessionId)
    | Reserve(id: SessionId, rows: nat, create: bool)
    | Rollback(id: SessionId, rows: nat, create: bool)
    | NoteCreated(id: SessionId)
    | NoteRows(id: SessionId, rows: nat)
    | NoteDropped(id: SessionId, rows: nat)

  /** After a call: the ledger, the answer, and the files handed over for deletion. */
  datatype Outcome = Outcome(ledger: Ledger, reply: Reply, deleted: set<SessionId>)

  // ---------- the ledger under the lock ----------

  predicate Expired(e: Entry, now: nat, ttl: nat) { SaturatingSub(now, e.lastTouched) >= ttl }

  function Live(sessions: map<SessionId, Entry>, now: nat, ttl: nat): map<SessionId, Entry> {
    map id | id in sessions && !Expired(sessions[id], now, ttl) :: sessions[id]
  }

  function Prune(c: Config, l: Ledger, now: nat): Ledger { l.(sessions := Live(l.sessions, now, c.sessionTtl)) }

  function Put(l: Ledger, id: SessionId, e: Entry): Ledger { l.(sessions := l.sessions[id := e]) }

  function SnapshotOf(e: Entry, maxTables: nat, maxRows: nat): Snapshot {
    Snapshot(e.tablesUsed, SaturatingSub(maxTables, e.tablesUsed), e.rowsUsed, SaturatingSub(maxRows, e.rowsUsed))
  }

  function TouchAll(sessions: map<SessionId, Entry>, later: nat): map<SessionId, Entry> {
    map id | id in sessions :: sessions[id].(lastTouched := later)
  }

  function SnapshotAll(c: Config, sessions: map<SessionId, Entry>, maxTables: nat): map<SessionId, Snapshot> {
    map id | id in sessions :: SnapshotOf(sessions[id], maxTables, c.maxRows)
  }

  /** session_entry_mut: the entry found, or a new one, unless the session limit forbids it. */
  function EntryFor(found: Option<Entry>, full: bool, later: nat): Option<Entry> {
    if found.Some? then found else if full then None else Some(Entry(later, 0, 0))
  }

  /** The calls that read and write one entry. */
  predicate Updates(call: Call) {
    Opens(call) || call.Touch? || call.Reserve? || call.Rollback?
  }

  /** Those that create the entry when there is none. */
  predicate Opens(call: Call) { call.Ensure? || call.NoteCreated? || call.NoteRows? || call.NoteDropped? }

  /** The entry a call writes, if it writes one, and its answer. */
  datatype Effect = Effect(entry: Option<Entry>, reply: Reply)

  function Stored(c: Config, e: Entry, maxTables: nat): Effect {
    Effect(Some(e), Info(SnapshotOf(e, maxTables, c.maxRows)))
  }

  function EffectOf(c: Config, found: Option<Entry>, full: bool, maxTables: nat, later: nat, call: Call): Effect
    requires Updates(call)
  {
    if Opens(call) then
      match EntryFor(found, full, later)
      case None => Effect(None, Failed(SessionsExceeded))
      case Some(e) => OpenedEffect(c, e, maxTables, later, call)
    else match found
      case None => Effect(None, if call.Rollback? then Empty else Failed(SessionNotFound))
      case Some(e) => FoundEffect(c, e, maxTables, later, call)
  }

  function OpenedEffect(c: Config, e: Entry, maxTables: nat, later: nat, call: Call): Effect
    requires Opens(call)
  {
    match call
    case Ensure(_) => Effect(Some(e.(lastTouched := later)), Empty)
    case NoteCreated(_) =>
      if e.tablesUsed >= maxTables then Effect(Some(e), Failed(TablesExceeded))
      else Stored(c, Entry(later, e.tablesUsed + 1, e.rowsUsed), maxTables)
    case NoteRows(_, rows) =>
      var next := SaturatingAdd(e.rowsUsed, rows);
      if next > c.maxRows then Effect(Some(e), Failed(RowsExceeded))
      else Stored(c, Entry(later, e.tablesUsed, next), maxTables)
    case NoteDropped(_, rows) =>
      Stored(c, Entry(later, SaturatingSub(e.tablesUsed, 1), SaturatingSub(e.rowsUsed, rows)), maxTables)
  }

  function FoundEffect(c: Config, e: Entry, maxTables: nat, later: nat, call: Call): Effect
    requires Updates(call) && !Opens(call)
  {
    match call
    case Touch(_) => Stored(c, e.(lastTouched := later), maxTables)
    case Reserve(_, rows, create) =>
      var next := SaturatingAdd(e.rowsUsed, rows);
      if create && e.tablesUsed >= maxTables then Effect(None, Failed(TablesExceeded))
      else if next > c.maxRows then Effect(None, Failed(RowsExceeded))
      else Stored(c, Entry(later, if create then e.tablesUsed + 1 else e.tablesUsed, next), maxTables)
    case Rollback(_, rows, create) =>
      var tables := if create then SaturatingSub(e.tablesUsed, 1) else e.tablesUsed;
      Effect(Some(Entry(later, tables, SaturatingSub(e.rowsUsed, rows))), Empty)
  }

  /** The early returns of the source, which skip the deletion of the pruned sessions' files. */
  predicate LeavesEarly(call: Call, reply: Reply) {
    reply == Failed(SessionsExceeded) || (call.Reserve? && reply == Failed(SessionNotFound))
  }

  function Find(p: Ledger, id: SessionId): Option<Entry> { if id in p.sessions then Some(p.sessions[id]) else None }

  function IsFull(p: Ledger): bool { |p.sessions| >= p.maxSessions }

  /** The call proper, on the pruned ledger; `gone` are the sessions the prune removed. */
  function ApplyTo(c: Config, p: Ledger, later: nat, call: Call, gone: set<SessionId>): Outcome {
    if Updates(call) then
      var f := EffectOf(c, Find(p, call.id), IsFull(p), p.maxTables, later, call);
      Outcome(if f.entry.Some? then Put(p, call.id, f.entry.value) else p,
              f.reply, if LeavesEarly(call, f.reply) then {} else gone)
    else match call
      case CountActive => Outcome(p, Number(|p.sessions|), gone)
      case CleanupExpired => Outcome(p, Number(|gone|), gone)
      case ListSessions =>
        Outcome(p.(sessions := TouchAll(p.sessions, later)), Infos(SnapshotAll(c, p.sessions, p.maxTables)), gone)
      case Release(id) =>
        Outcome(p.(sessions := p.sessions - {id}), Flag(id in p.sessions),
                if id in p.sessions then gone + {id} else gone)
  }

  /** One locked call: `now` is the clock read by the prune, `later` the one read when touching. */
  function Apply(c: Config, l: Ledger, now: nat, later: nat, call: Call): Outcome {
    var p := Prune(c, l, now);
    ApplyTo(c, p, later, call, l.sessions.Keys - p.sessions.Keys)
  }

  // ---------- the manager ----------

  class ScratchpadSessionManager {
    const config: Config
    var sessions: map<SessionId, Entry>
    var runtimeMaxSessions: nat
    var runtimeMaxTablesPerSession: nat

    ghost function State(): Ledger
      reads this
    {
      Ledger(sessions, runtimeMaxSessions, runtimeMaxTablesPerSession)
    }

    constructor (config: Config, maxSessions: nat, maxTables: nat)
      requires ConfigOk(config) && maxSessions > 0 && maxTables > 0
      ensures this.config == config && State() == Ledger(map[], maxSessions, maxTables)
    {
      this.config := config;
      sessions := map[];
      runtimeMaxSessions := maxSessions;
      runtimeMaxTablesPerSession := maxTables;
    }

    /** False is the "must be greater than zero" error. */
    method SetMaxSessionsLimit(maxSessions: nat) returns (accepted: bool)
      modifies this
      ensures accepted == (maxSessions > 0)
      ensures State() == if accepted then old(State()).(maxSessions := maxSessions) else old(State())
    {
      if maxSessions == 0 { return false; }
      runtimeMaxSessions := maxSessions;
      return true;
    }

    method SetMaxTablesPerSessionLimit(maxTables: nat) returns (accepted: bool)
      modifies this
      ensures accepted == (maxTables > 0)
      ensures State() == if accepted then old(State()).(maxTables := maxTables) else old(State())
    {
      if maxTables == 0 { return false; }
      runtimeMaxTablesPerSession := maxTables;
      return true;
    }

    /** prune_expired_locked: collect the expired ids, then remove them one by one. */
    method PruneExpired(now: nat) returns (removed: seq<SessionId>)
      modifies this
      ensures State() == Prune(config, old(State()), now)
      ensures Distinct(removed)
      ensures forall id :: id in removed <==> id in old(sessions) && id !in sessions
    {
      var expired: seq<SessionId> := [];
      var todo := sessions.Keys;
      while todo != {}
        invariant todo <= sessions.Keys
        invariant Distinct(expired)
        invariant forall id :: id in expired <==>
                    id in sessions && id !in todo && Expired(sessions[id], now, config.sessionTtl)
        decreases todo
      {
        var id :| id in todo;
        if Expired(sessions[id], now, config.sessionTtl) {
          expired := expired + [id];
        }
        todo := todo - {id};
      }
      removed := [];
      var i := 0;
      while i < |expired|
        invariant 0 <= i <= |expired|
        invariant removed == expired[..i]
        invariant sessions == old(sessions) - (set id | id in expired[..i])
        invariant unchanged(`runtimeMaxSessions) && unchanged(`runtimeMaxTablesPerSession)
      {
        assert expired[i] in expired;
        assert expired[i] !in expired[..i];
        assert expired[..i + 1] == expired[..i] + [expired[i]];
        sessions := sessions - {expired[i]};
        removed := removed + [expired[i]];
        i := i + 1;
      }
      assert expired[..i] == expired;
      assert forall id :: id in sessions <==> id in old(sessions) && id !in expired;
    }

    /** The files of the removed sessions, as cleanup_paths receives them. */
    function Paths(removed: seq<SessionId>): set<SessionId> { set id | id in removed }

    method ActiveSessionCount(now: nat) returns (reply: Reply, deleted: set<SessionId>)
      modifies this
      ensures Outcome(State(), reply, deleted) == Apply(config, old(State()), now, now, CountActive)
    {
      var removed := PruneExpired(now);
      assert Paths(removed) == old(State()).sessions.Keys - State().sessions.Keys;
      return Number(|sessions|), Paths(removed);
    }

    method CleanupExpiredSessions(now: nat) returns (reply: Reply, deleted: set<SessionId>)
      modifies this
      ensures Outcome(State(), reply, deleted) == Apply(config, old(State()), now, now, CleanupExpired)
    {
      var removed := PruneExpired(now);
      assert Paths(removed) == old(State()).sessions.Keys - State().sessions.Keys;
      DistinctCount(removed);
      return Number(|removed|), Paths(removed);
    }

    /** The loop of list_sessions over the entries that the prune left. */
    method TouchEvery(later: nat) returns (infos: map<SessionId, Snapshot>)
      modifies this
      ensures State() == old(State()).(sessions := TouchAll(old(sessions), later))
      ensures infos == SnapshotAll(config, old(sessions), runtimeMaxTablesPerSession)
    {
      infos := map[];
      var todo := sessions.Keys;
      while todo != {}
        invariant todo <= sessions.Keys == old(sessions).Keys
        invariant infos.Keys == sessions.Keys - todo
        invariant forall id :: id in todo ==> sessions[id] == old(sessions)[id]
        invariant forall id :: id in infos ==>
                    sessions[id] == old(sessions)[id].(lastTouched := later)
                    && infos[id] == SnapshotOf(old(sessions)[id], runtimeMaxTablesPerSession, config.maxRows)
        invariant unchanged(`runtimeMaxSessions) && unchanged(`runtimeMaxTablesPerSession)
        decreases todo
      {
        var id :| id in todo;
        sessions := sessions[id := sessions[id].(lastTouched := later)];
        infos := infos[id := SnapshotOf(sessions[id], runtimeMaxTablesPerSession, config.maxRows)];
        todo := todo - {id};
      }
    }

    method ListAllSessions(now: nat, later: nat) returns (reply: Reply, deleted: set<SessionId>)
      modifies this
      ensures Outcome(State(), reply, deleted) == Apply(config, old(State()), now, later, ListSessions)
    {
      var removed := PruneExpired(now);
      assert Paths(removed) == old(State()).sessions.Keys - State().sessions.Keys;
      var infos := TouchEvery(later);
      return Infos(infos), Paths(removed);
    }

    method TouchSession(id: SessionId, now: nat, later: nat) returns (reply: Reply, deleted: set<SessionId>)
      modifies this
      ensures Outcome(State(), reply, deleted) == Apply(config, old(State()), now, later, Touch(id))
    {
      var removed := PruneExpired(now);
      assert Paths(removed) == old(State()).sessions.Keys - State().sessions.Keys;
      if id !in sessions { return Failed(SessionNotFound), Paths(removed); }
      sessions := sessions[id := sessions[id].(lastTouched := later)];
      return Info(SnapshotOf(sessions[id], runtimeMaxTablesPerSession, config.maxRows)), Paths(removed);
    }

    method ReleaseSession(id: SessionId, now: nat) returns (reply: Reply, deleted: set<SessionId>)
      modifies this
      ensures Outcome(State(), reply, deleted) == Apply(config, old(State()), now, now, Release(id))
    {
      var removed := PruneExpired(now);
      assert Paths(removed) == old(State()).sessions.Keys - State().sessions.Keys;
      deleted := Paths(removed);
      if id in sessions {
        sessions := sessions - {id};
        return Flag(true), deleted + {id};
      }
      assert sessions - {id} == sessions;
      return Flag(false), deleted;
    }

    method SessionEntry(id: SessionId, later: nat) returns (ok: bool)
      modifies this
      ensures ok == EntryFor(Find(old(State()), id), IsFull(old(State())), later).Some?
      ensures State() == if ok then Put(old(State()), id, EntryFor(Find(old(State()), id), IsFull(old(State())), later).value) else old(State())
    {
      if id !in sessions && |sessions| >= runtimeMaxSessions { return false; }
      if id !in sessions { sessions := sessions[id := Entry(later, 0, 0)]; }
      assert sessions == old(sessions)[id := sessions[id]];
      return true;
    }

    method EnsureSession(id: SessionId, now: nat, later: nat) returns (reply: Reply, deleted: set<SessionId>)
      modifies this
      ensures Outcome(State(), reply, deleted) == Apply(config, old(State()), now, later, Ensure(id))
    {
      var removed := PruneExpired(now);
      assert Paths(removed) == old(State()).sessions.Keys - State().sessions.Keys;
      ghost var pruned := sessions;
      var ok := SessionEntry(id, later);
      if !ok { return Failed(SessionsExceeded), {}; }
      sessions := sessions[id := sessions[id].(lastTouched := later)];
      assert sessions == pruned[id := sessions[id]];
      return Empty, Paths(removed);
    }

    method ReserveIngestCapacity(id: SessionId, rows: nat, create: bool, now: nat, later: nat)
      returns (reply: Reply, deleted: set<SessionId>)
      modifies this
      ensures Outcome(State(), reply, deleted) == Apply(config, old(State()), now, later, Reserve(id, rows, create))
    {
      var removed := PruneExpired(now);
      assert Paths(removed) == old(State()).sessions.Keys - State().sessions.Keys;
      if id !in sessions { return Failed(SessionNotFound), {}; }
      var entry := sessions[id];
      if create && entry.tablesUsed >= runtimeMaxTablesPerSession {
        return Failed(TablesExceeded), Paths(removed);
      }
      var nextRows := SaturatingAdd(entry.rowsUsed, rows);
      if nextRows > config.maxRows {
        return Failed(RowsExceeded), Paths(removed);
      }
      if create { entry := entry.(tablesUsed := entry.tablesUsed + 1); }
      entry := entry.(rowsUsed := nextRows);
      entry := entry.(lastTouched := later);
      sessions := sessions[id := entry];
      return Info(SnapshotOf(entry, runtimeMaxTablesPerSession, config.maxRows)), Paths(removed);
    }

    method RollbackIngestCapacity(id: SessionId, rows: nat, create: bool, now: nat, later: nat)
      returns (reply: Reply, deleted: set<SessionId>)
      modifies this
      ensures Outcome(State(), reply, deleted) == Apply(config, old(State()), now, later, Rollback(id, rows, create))
    {
      var removed := PruneExpired(now);
      assert Paths(removed) == old(State()).sessions.Keys - State().sessions.Keys;
      if id in sessions {
        var entry := sessions[id];
        if create { entry := entry.(tablesUsed := SaturatingSub(entry.tablesUsed, 1)); }
        entry := entry.(rowsUsed := SaturatingSub(entry.rowsUsed, rows));
        entry := entry.(lastTouched := later);
        sessions := sessions[id := entry];
      }
      return Empty, Paths(removed);
    }

    method NoteTableCreated(id: SessionId, now: nat, later: nat) returns (reply: Reply, deleted: set<SessionId>)
      modifies this
      ensures Outcome(State(), reply, deleted) == Apply(config, old(State()), now, later, NoteCreated(id))
    {
      var removed := PruneExpired(now);
      assert Paths(removed) == old(State()).sessions.Keys - State().sessions.Keys;
      ghost var pruned := sessions;
      var ok := SessionEntry(id, later);
      if !ok { return Failed(SessionsExceeded), {}; }
      var entry := sessions[id];
      if entry.tablesUsed >= runtimeMaxTablesPerSession { return Failed(TablesExceeded), Paths(removed); }
      entry := Entry(later, entry.tablesUsed + 1, entry.rowsUsed);
      sessions := sessions[id := entry];
      assert sessions == pruned[id := entry];
      return Info(SnapshotOf(entry, runtimeMaxTablesPerSession, config.maxRows)), Paths(removed);
    }

    method NoteRowsIngested(id: SessionId, rows: nat, now: nat, later: nat)
      returns (reply: Reply, deleted: set<SessionId>)
      modifies this
      ensures Outcome(State(), reply, deleted) == Apply(config, old(State()), now, later, NoteRows(id, rows))
    {
      var removed := PruneExpired(now);
      assert Paths(removed) == old(State()).sessions.Keys - State().sessions.Keys;
      ghost var pruned := sessions;
      var ok := SessionEntry(id, later);
      if !ok { return Failed(SessionsExceeded), {}; }
      var entry := sessions[id];
      var nextRows := SaturatingAdd(entry.rowsUsed, rows);
      if nextRows > config.maxRows { return Failed(RowsExceeded), Paths(removed); }
      entry := Entry(later, entry.tablesUsed, nextRows);
      sessions := sessions[id := entry];
      assert sessions == pruned[id := entry];
      return Info(SnapshotOf(entry, runtimeMaxTablesPerSession, config.maxRows)), Paths(removed);
    }

    method NoteTableDropped(id: SessionId, rows: nat, now: nat, later: nat)
      returns (reply: Reply, deleted: set<SessionId>)
      modifies this
      ensures Outcome(State(), reply, deleted) == Apply(config, old(State()), now, later, NoteDropped(id, rows))
    {
      var removed := PruneExpired(now);
      assert Paths(removed) == old(State()).sessions.Keys - State().sessions.Keys;
      ghost var pruned := sessions;
      var ok := SessionEntry(id, later);
      if !ok { return Failed(SessionsExceeded), {}; }
      var entry := sessions[id];
      entry := Entry(later, SaturatingSub(entry.tablesUsed, 1), SaturatingSub(entry.rowsUsed, rows));
      sessions := sessions[id := entry];
      assert sessions == pruned[id := entry];
      return Info(SnapshotOf(entry, runtimeMaxTablesPerSession, config.maxRows)), Paths(removed);
    }
  }

  lemma {:induction false} DistinctCount(s: seq<SessionId>)
    requires Distinct(s)
    ensures |set id | id in s| == |s|
  {
    if s != [] {
      var n := |s| - 1;
      DistinctCount(s[..n]);
      assert s == s[..n] + [s[n]];
      assert s[n] !in s[..n];
      assert (set id | id in s) == (set id | id in s[..n]) + {s[n]};
    } else {
      assert (set id | id in s) == {};
    }
  }
}
