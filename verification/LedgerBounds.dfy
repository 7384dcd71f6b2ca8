/** What the ledger keeps in every interleaving, whatever the callers do: row and table quotas, the
    session count, and which sessions are there at all. */
module LedgerBounds {
  import opened Basics
  import opened Scratchpad
  import opened Interleaving

  // ---------- one locked call ----------

  lemma LiveCount(sessions: map<SessionId, Entry>, now: nat, ttl: nat)
    ensures |Live(sessions, now, ttl)| <= |sessions|
  {
    SubsetCount(Live(sessions, now, ttl).Keys, sessions.Keys);
  }

  lemma {:induction false} SubsetCount(a: set<SessionId>, b: set<SessionId>)
    requires a <= b
    ensures |a| <= |b|
  {
    if a != {} {
      var x :| x in a;
      SubsetCount(a - {x}, b - {x});
    }
  }

  lemma PutCount(sessions: map<SessionId, Entry>, id: SessionId, e: Entry)
    ensures |sessions[id := e]| == |sessions| + if id in sessions then 0 else 1
  {
    assert sessions[id := e].Keys == sessions.Keys + {id};
  }

  lemma EffectBounds(c: Config, found: Option<Entry>, full: bool, maxTables: nat, later: nat, call: Call)
    requires Updates(call) && (found.Some? ==> found.value.rowsUsed <= c.maxRows)
    ensures var f := EffectOf(c, found, full, maxTables, later, call);
            && (f.entry.Some? ==>
                  && f.entry.value.rowsUsed <= c.maxRows
                  && (f.entry.value.tablesUsed <= maxTables
                      || (found.Some? && f.entry.value.tablesUsed <= found.value.tablesUsed))
                  && (found.Some? || (Opens(call) && !full)))
            && !f.reply.Infos?
            && (f.reply.Info? ==> f.reply.snapshot.rowsUsed + f.reply.snapshot.rowsRemaining == c.maxRows)
            && (Opens(call) ==> (f.entry.Some? <==> f.reply != Failed(SessionsExceeded)))
  {}

  lemma EntryBounds(c: Config, p: Ledger, later: nat, call: Call, gone: set<SessionId>)
    requires forall id | id in p.sessions :: p.sessions[id].rowsUsed <= c.maxRows
    ensures var after := ApplyTo(c, p, later, call, gone).ledger;
            && (forall id | id in after.sessions :: after.sessions[id].rowsUsed <= c.maxRows)
            && (forall id | id in after.sessions ::
                  after.sessions[id].tablesUsed <= p.maxTables
                  || (id in p.sessions && after.sessions[id].tablesUsed <= p.sessions[id].tablesUsed))
            && after.maxSessions == p.maxSessions && after.maxTables == p.maxTables
  {
    hide EffectOf;
    if Updates(call) { EffectBounds(c, Find(p, call.id), IsFull(p), p.maxTables, later, call); }
  }

  lemma CountBound(c: Config, p: Ledger, later: nat, call: Call, gone: set<SessionId>)
    requires forall id | id in p.sessions :: p.sessions[id].rowsUsed <= c.maxRows
    ensures var after := ApplyTo(c, p, later, call, gone).ledger;
            |after.sessions| <= |p.sessions| || |after.sessions| <= p.maxSessions
  {
    hide EffectOf;
    var after := ApplyTo(c, p, later, call, gone).ledger;
    if Updates(call) {
      EffectBounds(c, Find(p, call.id), IsFull(p), p.maxTables, later, call);
      if after != p { PutCount(p.sessions, call.id, after.sessions[call.id]); }
    } else {
      SubsetCount(after.sessions.Keys, p.sessions.Keys);
    }
  }

  /** Every quota is kept by every call: rows never pass the maximum, a table count or the session
      count only grows to at most the limit in force. */
  lemma CallKeepsQuotas(c: Config, l: Ledger, now: nat, later: nat, call: Call)
    requires forall id | id in l.sessions :: l.sessions[id].rowsUsed <= c.maxRows
    ensures var after := Apply(c, l, now, later, call).ledger;
            && (forall id | id in after.sessions :: after.sessions[id].rowsUsed <= c.maxRows)
            && (forall id | id in after.sessions ::
                  after.sessions[id].tablesUsed <= l.maxTables
                  || (id in l.sessions && after.sessions[id].tablesUsed <= l.sessions[id].tablesUsed))
            && (|after.sessions| <= |l.sessions| || |after.sessions| <= l.maxSessions)
            && after.maxSessions == l.maxSessions && after.maxTables == l.maxTables
  {
    hide ApplyTo;
    LiveCount(l.sessions, now, c.sessionTtl);
    var p := Prune(c, l, now);
    EntryBounds(c, p, later, call, l.sessions.Keys - p.sessions.Keys);
    CountBound(c, p, later, call, l.sessions.Keys - p.sessions.Keys);
  }

  /** The rows a snapshot reports as used and as remaining always add up to the maximum. */
  lemma SnapshotAddsUp(c: Config, l: Ledger, now: nat, later: nat, call: Call)
    requires forall id | id in l.sessions :: l.sessions[id].rowsUsed <= c.maxRows
    ensures var r := Apply(c, l, now, later, call).reply;
            && (r.Info? ==> r.snapshot.rowsUsed + r.snapshot.rowsRemaining == c.maxRows)
            && (r.Infos? ==> forall id | id in r.all :: r.all[id].rowsUsed + r.all[id].rowsRemaining == c.maxRows)
  {
    hide EffectOf;
    var p := Prune(c, l, now);
    assert forall id | id in p.sessions :: p.sessions[id].rowsUsed <= c.maxRows;
    if Updates(call) { EffectBounds(c, Find(p, call.id), IsFull(p), p.maxTables, later, call); }
  }

  /** The numbers of one session: what its entry has used, and what the limits leave. */
  ghost predicate Reports(snapshot: Snapshot, e: Entry, maxTables: nat, maxRows: nat) {
    && snapshot.rowsUsed == e.rowsUsed && snapshot.tablesUsed == e.tablesUsed
    && snapshot.rowsRemaining == maxRows - e.rowsUsed
    && snapshot.tablesRemaining == if e.tablesUsed >= maxTables then 0 else maxTables - e.tablesUsed
  }

  lemma StoredReports(c: Config, found: Option<Entry>, full: bool, maxTables: nat, later: nat, call: Call)
    requires Updates(call) && (found.Some? ==> found.value.rowsUsed <= c.maxRows)
    ensures var f := EffectOf(c, found, full, maxTables, later, call);
            f.reply.Info? ==> f.entry.Some? && Reports(f.reply.snapshot, f.entry.value, maxTables, c.maxRows)
  {
    EffectBounds(c, found, full, maxTables, later, call);
  }

  lemma ListedReport(c: Config, p: Ledger, later: nat)
    requires forall id | id in p.sessions :: p.sessions[id].rowsUsed <= c.maxRows
    ensures var all, after := SnapshotAll(c, p.sessions, p.maxTables), TouchAll(p.sessions, later);
            all.Keys == after.Keys && forall id | id in all :: Reports(all[id], after[id], p.maxTables, c.maxRows)
  {}

  /** What a call reports of a session is what the ledger holds of it after the call; a listing reports every session. */
  lemma RepliesReport(c: Config, l: Ledger, now: nat, later: nat, call: Call)
    requires forall id | id in l.sessions :: l.sessions[id].rowsUsed <= c.maxRows
    ensures var o := Apply(c, l, now, later, call);
            var after := o.ledger.sessions;
            && (o.reply.Info? ==>
                  Updates(call) && call.id in after && Reports(o.reply.snapshot, after[call.id], l.maxTables, c.maxRows))
            && (o.reply.Infos? ==>
                  o.reply.all.Keys == after.Keys
                  && forall id | id in after :: Reports(o.reply.all[id], after[id], l.maxTables, c.maxRows))
  {
    hide EffectOf, SnapshotAll, TouchAll, Reports;
    var p := Prune(c, l, now);
    if Updates(call) {
      StoredReports(c, Find(p, call.id), IsFull(p), p.maxTables, later, call);
      EffectBounds(c, Find(p, call.id), IsFull(p), p.maxTables, later, call);
    } else {
      ListedReport(c, p, later);
    }
  }

  lemma WrittenLater(c: Config, found: Option<Entry>, full: bool, maxTables: nat, later: nat, call: Call)
    requires Updates(call)
    ensures var f := EffectOf(c, found, full, maxTables, later, call);
            && (found.Some? && !f.reply.Failed? ==> f.entry.Some? && f.entry.value.lastTouched == later)
            && (found.Some? && f.reply.Failed? ==> f.entry == found || f.entry == None)
            && (found.None? && f.entry.Some? ==> f.entry.value.lastTouched == later)
  {}

  /** A call that names a live session counts as a touch of it exactly when it is accepted; a refused one leaves the
      entry as it is. A session that a call opens starts out touched. */
  lemma AcceptedCallsTouch(c: Config, l: Ledger, now: nat, later: nat, call: Call)
    requires Updates(call)
    ensures var o, live := Apply(c, l, now, later, call), Live(l.sessions, now, c.sessionTtl);
            && (call.id in live ==>
                  call.id in o.ledger.sessions
                  && if o.reply.Failed? then o.ledger.sessions[call.id] == l.sessions[call.id]
                     else o.ledger.sessions[call.id].lastTouched == later)
            && (call.id !in live && call.id in o.ledger.sessions ==> o.ledger.sessions[call.id].lastTouched == later)
  {
    hide EffectOf;
    var p := Prune(c, l, now);
    WrittenLater(c, Find(p, call.id), IsFull(p), p.maxTables, later, call);
  }

  /** The session a call opens or finds open, given its answer, and the one it releases. */
  function Opened(call: Call, reply: Reply): set<SessionId> {
    if Opens(call) && reply != Failed(SessionsExceeded) then {call.id} else {}
  }

  function Released(call: Call): set<SessionId> { if call.Release? then {call.id} else {} }

  lemma OpensUnlessFull(c: Config, found: Option<Entry>, full: bool, maxTables: nat, later: nat, call: Call)
    requires Updates(call)
    ensures var f := EffectOf(c, found, full, maxTables, later, call);
            if Opens(call) then f.entry.Some? <==> f.reply != Failed(SessionsExceeded)
            else f.entry.Some? ==> found.Some?
  {}

  lemma PutKeys(p: Ledger, id: SessionId, e: Entry)
    ensures Put(p, id, e).sessions.Keys == p.sessions.Keys + {id}
  {}

  lemma KeysAfterUpdate(c: Config, p: Ledger, later: nat, call: Call, gone: set<SessionId>)
    requires Updates(call)
    ensures var o := ApplyTo(c, p, later, call, gone);
            o.ledger.sessions.Keys == p.sessions.Keys + Opened(call, o.reply)
  {
    hide EffectOf, IsFull, Put;
    var f := EffectOf(c, Find(p, call.id), IsFull(p), p.maxTables, later, call);
    OpensUnlessFull(c, Find(p, call.id), IsFull(p), p.maxTables, later, call);
    if f.entry.Some? { PutKeys(p, call.id, f.entry.value); }
  }

  lemma KeysAfter(c: Config, p: Ledger, later: nat, call: Call, gone: set<SessionId>)
    ensures var o := ApplyTo(c, p, later, call, gone);
            o.ledger.sessions.Keys == (p.sessions.Keys + Opened(call, o.reply)) - Released(call)
  {
    hide EffectOf;
    if Updates(call) {
      hide ApplyTo;
      KeysAfterUpdate(c, p, later, call, gone);
    } else if call.ListSessions? {
      assert TouchAll(p.sessions, later).Keys == p.sessions.Keys;
    }
  }

  /** After a call the ledger holds exactly the sessions touched less than the time to live ago, with
      the one the call opened and without the one it released. */
  lemma CallKeepsExactlyTheLive(c: Config, l: Ledger, now: nat, later: nat, call: Call)
    requires ConfigOk(c)
    ensures var o := Apply(c, l, now, later, call);
            o.ledger.sessions.Keys ==
            ((set id | id in l.sessions && now < l.sessions[id].lastTouched + c.sessionTtl) + Opened(call, o.reply))
            - Released(call)
  {
    hide ApplyTo;
    var p := Prune(c, l, now);
    assert p.sessions.Keys == set id | id in l.sessions && now < l.sessions[id].lastTouched + c.sessionTtl;
    KeysAfter(c, p, later, call, l.sessions.Keys - p.sessions.Keys);
  }

  /** Listing extends every live session, shown or not: none expires before a whole time to live has passed. */
  lemma ListExtendsAll(c: Config, l: Ledger, now: nat, later: nat, t: nat)
    requires ConfigOk(c) && t < later + c.sessionTtl
    ensures var after := Apply(c, l, now, later, ListSessions).ledger;
            Live(after.sessions, t, c.sessionTtl) == after.sessions
            && after.sessions.Keys == Live(l.sessions, now, c.sessionTtl).Keys
  {}

  /** A pruned session's file is not handed over for deletion in exactly two cases: the call has to open a session
      and there is no room for one, or it reserves capacity in a session that is not there. */
  lemma PrunedFilesSurvive(c: Config, l: Ledger, now: nat, later: nat, call: Call)
    ensures var o, live := Apply(c, l, now, later, call), Live(l.sessions, now, c.sessionTtl);
            var gone := l.sessions.Keys - live.Keys;
            var survive := (Opens(call) && call.id !in live && |live| >= l.maxSessions)
                           || (call.Reserve? && call.id !in live);
            && (gone <= o.deleted <==> gone == {} || !survive)
            && (survive ==> o.deleted == {})
  {
    hide EffectOf;
    var p := Prune(c, l, now);
    if Updates(call) { EarlyIff(c, Find(p, call.id), IsFull(p), p.maxTables, later, call); }
  }

  lemma EarlyIff(c: Config, found: Option<Entry>, full: bool, maxTables: nat, later: nat, call: Call)
    requires Updates(call)
    ensures LeavesEarly(call, EffectOf(c, found, full, maxTables, later, call).reply) <==>
            found.None? && ((Opens(call) && full) || call.Reserve?)
  {}

  // ---------- every run ----------

  ghost predicate RowsBounded(c: Config, s: Sys) {
    forall id | id in s.ledger.sessions :: s.ledger.sessions[id].rowsUsed <= c.maxRows
  }

  lemma StepKeepsQuotas(c: Config, s: Sys, e: Event)
    requires Enabled(s, e) && RowsBounded(c, s)
    ensures var t := Post(c, s, e);
            && RowsBounded(c, t)
            && (forall id | id in t.ledger.sessions ::
                  t.ledger.sessions[id].tablesUsed <= s.ledger.maxTables
                  || (id in s.ledger.sessions
                      && t.ledger.sessions[id].tablesUsed <= s.ledger.sessions[id].tablesUsed))
            && (|t.ledger.sessions| <= |s.ledger.sessions| || |t.ledger.sessions| <= s.ledger.maxSessions)
  {
    hide Apply;
    if HasClock(e) { CallKeepsQuotas(c, s.ledger, e.now, e.later, CallOf(s, e).value); }
  }

  /** In every state of every run: rows within the maximum; a table count, and the number of sessions,
      at most a limit that was in force at some earlier moment. */
  lemma {:induction false} QuotasHold(c: Config, states: seq<Sys>, events: seq<Event>, i: nat)
    requires Run(c, states, events) && i < |states|
    ensures RowsBounded(c, states[i])
    ensures forall id | id in states[i].ledger.sessions ::
              exists j | 0 <= j <= i :: states[i].ledger.sessions[id].tablesUsed <= states[j].ledger.maxTables
    ensures states[i].ledger.sessions != map[] ==>
              exists j | 0 <= j <= i :: |states[i].ledger.sessions| <= states[j].ledger.maxSessions
  {
    hide Post, Enabled;
    if i > 0 {
      var s, t := states[i - 1], states[i];
      assert Enabled(states[i - 1], events[i - 1]) && states[i - 1 + 1] == Post(c, states[i - 1], events[i - 1]);
      QuotasHold(c, states, events, i - 1);
      StepKeepsQuotas(c, s, events[i - 1]);
      forall id | id in t.ledger.sessions
        ensures exists j | 0 <= j <= i :: t.ledger.sessions[id].tablesUsed <= states[j].ledger.maxTables
      {
        if t.ledger.sessions[id].tablesUsed <= s.ledger.maxTables {
          assert states[i - 1].ledger.maxTables == s.ledger.maxTables;
        } else {
          var j :| 0 <= j <= i - 1 && s.ledger.sessions[id].tablesUsed <= states[j].ledger.maxTables;
          assert t.ledger.sessions[id].tablesUsed <= states[j].ledger.maxTables;
        }
      }
      if |t.ledger.sessions| <= s.ledger.maxSessions {
        assert |t.ledger.sessions| <= states[i - 1].ledger.maxSessions;
      } else if s.ledger.sessions != map[] {
        var j :| 0 <= j <= i - 1 && |s.ledger.sessions| <= states[j].ledger.maxSessions;
        assert |t.ledger.sessions| <= states[j].ledger.maxSessions;
      }
    }
  }

  /** While the session count is at or above the limit in force it cannot rise: after the limit is
      lowered, no session is opened until enough have gone. */
  lemma {:induction false} LoweredLimitHolds(c: Config, states: seq<Sys>, events: seq<Event>, i: nat, k: nat)
    requires Run(c, states, events) && i <= k < |states|
    requires forall j | i <= j < k :: |states[j].ledger.sessions| >= states[j].ledger.maxSessions
    ensures |states[k].ledger.sessions| <= |states[i].ledger.sessions|
    decreases k
  {
    hide Post, Enabled;
    if i < k {
      LoweredLimitHolds(c, states, events, i, k - 1);
      QuotasHold(c, states, events, k - 1);
      assert Enabled(states[k - 1], events[k - 1]) && states[k - 1 + 1] == Post(c, states[k - 1], events[k - 1]);
      StepKeepsQuotas(c, states[k - 1], events[k - 1]);
    }
  }
}
