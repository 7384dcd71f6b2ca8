/** Every interleaving of scratchpad calls: the ledger, the database files, pending file deletions,
    operations in flight and a clock, advanced one atomic step at a time. */
module Interleaving {
  import opened Basics
  import opened Scratchpad

  type Tables = map<string, nat>   // table name -> committed rows

  /** How far an operation has got. `Counted` and `Dropped` carry the row count the drop read. */
  datatype Stage = Reserved | Aborted | Asked | Counted(n: nat) | Dropped(n: nat) | Finished

  datatype Op =
    | Ingest(id: SessionId, table: string, rows: nat, create: bool, stage: Stage)
    | Drop(id: SessionId, table: string, stage: Stage)

  datatype Sys = Sys(ledger: Ledger, db: map<SessionId, Tables>, deleting: multiset<SessionId>, ops: seq<Op>, clock: nat)

  datatype Event =
    | Locked(call: Call, now: nat, later: nat)
    | SetMaxSessions(n: nat)
    | SetMaxTables(n: nat)
    | BeginIngest(id: SessionId, table: string, rows: nat, create: bool, now: nat, later: nat)
    | Commit(i: nat)
    | Abort(i: nat)
    | RollBack(i: nat, now: nat, later: nat)
    | BeginDrop(id: SessionId, table: string, now: nat, later: nat)
    | CountRows(i: nat)
    | DropTable(i: nat)
    | GiveUp(i: nat)
    | NoteDrop(i: nat, now: nat, later: nat)
    | DeleteFile(id: SessionId)

  function TablesOf(db: map<SessionId, Tables>, id: SessionId): Tables { if id in db then db[id] else map[] }

  /** The locked call an event makes, if any. */
  function CallOf(s: Sys, e: Event): Option<Call> {
    match e
    case Locked(call, _, _) => Some(call)
    case BeginIngest(id, _, rows, create, _, _) => Some(Reserve(id, rows, create))
    case BeginDrop(id, _, _, _) => Some(Touch(id))
    case RollBack(i, _, _) =>
      if i < |s.ops| && s.ops[i].Ingest? then Some(Rollback(s.ops[i].id, s.ops[i].rows, s.ops[i].create)) else None
    case NoteDrop(i, _, _) =>
      if i < |s.ops| && s.ops[i].stage.Dropped? then Some(NoteDropped(s.ops[i].id, s.ops[i].stage.n)) else None
    case _ => None
  }

  predicate HasClock(e: Event) {
    e.Locked? || e.BeginIngest? || e.BeginDrop? || e.RollBack? || e.NoteDrop?
  }

  /** The step can be taken: what the source checks, what the database allows, and a clock that never runs back. */
  predicate Enabled(s: Sys, e: Event) {
    && (HasClock(e) ==> s.clock <= e.now <= e.later)
    && match e
       case Locked(call, _, _) => !call.Reserve? && !call.Rollback? && !call.NoteDropped?
       case SetMaxSessions(n) => n > 0
       case SetMaxTables(n) => n > 0
       case BeginIngest(_, _, _, _, _, _) => true
       case BeginDrop(_, _, _, _) => true
       case Commit(i) => i < |s.ops| && s.ops[i].Ingest? && s.ops[i].stage == Reserved
                         && (s.ops[i].create <==> s.ops[i].table !in TablesOf(s.db, s.ops[i].id))
       case Abort(i) => i < |s.ops| && s.ops[i].Ingest? && s.ops[i].stage == Reserved
       case RollBack(i, _, _) => i < |s.ops| && s.ops[i].Ingest? && s.ops[i].stage == Aborted
       case CountRows(i) => i < |s.ops| && s.ops[i].Drop? && s.ops[i].stage == Asked
                            && s.ops[i].table in TablesOf(s.db, s.ops[i].id)
       case DropTable(i) => i < |s.ops| && s.ops[i].Drop? && s.ops[i].stage.Counted?
                            && s.ops[i].table in TablesOf(s.db, s.ops[i].id)
       case GiveUp(i) => i < |s.ops| && s.ops[i].Drop? && (s.ops[i].stage == Asked || s.ops[i].stage.Counted?)
       case NoteDrop(i, _, _) => i < |s.ops| && s.ops[i].Drop? && s.ops[i].stage.Dropped?
       case DeleteFile(id) => id in s.deleting
  }

  function SetStage(s: Sys, i: nat, stage: Stage): Sys
    requires i < |s.ops|
  {
    s.(ops := s.ops[i := s.ops[i].(stage := stage)])
  }

  function SetTables(s: Sys, id: SessionId, t: Tables): Sys { s.(db := s.db[id := t]) }

  function LockedCall(c: Config, s: Sys, now: nat, later: nat, call: Call): Sys {
    var o := Apply(c, s.ledger, now, later, call);
    s.(ledger := o.ledger, deleting := s.deleting + multiset(o.deleted), clock := later)
  }

  function Post(c: Config, s: Sys, e: Event): Sys
    requires Enabled(s, e)
  {
    match e
    case Locked(call, now, later) => LockedCall(c, s, now, later, call)
    case SetMaxSessions(n) => s.(ledger := s.ledger.(maxSessions := n))
    case SetMaxTables(n) => s.(ledger := s.ledger.(maxTables := n))
    case BeginIngest(id, table, rows, create, now, later) =>
      var t := LockedCall(c, s, now, later, Reserve(id, rows, create));
      if Apply(c, s.ledger, now, later, Reserve(id, rows, create)).reply.Failed? then t
      else t.(ops := t.ops + [Ingest(id, table, rows, create, Reserved)])
    case BeginDrop(id, table, now, later) =>
      var t := LockedCall(c, s, now, later, Touch(id));
      if Apply(c, s.ledger, now, later, Touch(id)).reply.Failed? then t
      else t.(ops := t.ops + [Drop(id, table, Asked)])
    case Commit(i) =>
      var op := s.ops[i];
      var t := TablesOf(s.db, op.id);
      var before := if op.create then 0 else t[op.table];
      SetTables(SetStage(s, i, Finished), op.id, t[op.table := before + op.rows])
    case Abort(i) => SetStage(s, i, Aborted)
    case RollBack(i, now, later) =>
      SetStage(LockedCall(c, s, now, later, Rollback(s.ops[i].id, s.ops[i].rows, s.ops[i].create)), i, Finished)
    case CountRows(i) => SetStage(s, i, Counted(TablesOf(s.db, s.ops[i].id)[s.ops[i].table]))
    case DropTable(i) =>
      var op := s.ops[i];
      SetTables(SetStage(s, i, Dropped(op.stage.n)), op.id, TablesOf(s.db, op.id) - {op.table})
    case GiveUp(i) => SetStage(s, i, Finished)
    case NoteDrop(i, now, later) =>
      SetStage(LockedCall(c, s, now, later, NoteDropped(s.ops[i].id, s.ops[i].stage.n)), i, Finished)
    case DeleteFile(id) => s.(db := s.db - {id}, deleting := s.deleting - multiset{id})
  }

  /** A run: states and the events between them. */
  ghost predicate Run(c: Config, states: seq<Sys>, events: seq<Event>) {
    && ConfigOk(c)
    && |states| == |events| + 1
    && states[0].ledger.sessions == map[] && states[0].ops == []
    && forall i | 0 <= i < |events| :: Enabled(states[i], events[i]) && states[i + 1] == Post(c, states[i], events[i])
  }
}
