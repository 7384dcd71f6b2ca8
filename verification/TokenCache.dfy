/** The OAuth token cache (src/ga_client.rs): any number of callers, a read/write lock, a check under
    the read lock and a second one under the write lock, which stays held during the refresh. A caller
    may go away at any point; its lock goes with it. */
module TokenCache {
  import opened Basics

  type Caller = nat

  // Instants and spans are in nanoseconds, token lifetimes in seconds.
  const SECOND: nat := 1_000_000_000

  datatype Token = Token(value: nat, refreshAfter: nat)

  datatype Phase = WaitRead | Reading | WaitWrite | Checking | Refreshing | Served(value: nat) | Failed

  datatype State = State(clock: nat, cache: Option<Token>, callers: map<Caller, Phase>)

  datatype Event =
    | Tick(d: nat)
    | Arrive(k: Caller)
    | LockRead(k: Caller)
    | CheckRead(k: Caller)
    | LockWrite(k: Caller)
    | CheckWrite(k: Caller)
    | RefreshOk(k: Caller, value: nat, expiresIn: nat)
    | RefreshFails(k: Caller)
    | Vanish(k: Caller)

  function PhaseOf(s: State, k: Caller): Option<Phase> { if k in s.callers then Some(s.callers[k]) else None }

  predicate HoldsRead(p: Phase) { p.Reading? }

  predicate HoldsWrite(p: Phase) { p.Checking? || p.Refreshing? }

  predicate Fresh(s: State) { s.cache.Some? && s.clock < s.cache.value.refreshAfter }

  /** How long a token is served: its lifetime less a minute, one second at the least. */
  function RefreshIn(expiresIn: nat): nat { Max(SaturatingSub(expiresIn, 60), 1) }

  ghost predicate Enabled(s: State, e: Event) {
    match e
    case Tick(_) => true
    case Arrive(k) => k !in s.callers
    case LockRead(k) => PhaseOf(s, k) == Some(WaitRead) && forall j | j in s.callers :: !HoldsWrite(s.callers[j])
    case CheckRead(k) => PhaseOf(s, k) == Some(Reading)
    case LockWrite(k) =>
      PhaseOf(s, k) == Some(WaitWrite)
      && forall j | j in s.callers :: !HoldsWrite(s.callers[j]) && !HoldsRead(s.callers[j])
    case CheckWrite(k) => PhaseOf(s, k) == Some(Checking)
    case RefreshOk(k, _, _) => PhaseOf(s, k) == Some(Refreshing)
    case RefreshFails(k) => PhaseOf(s, k) == Some(Refreshing)
    case Vanish(k) => k in s.callers
  }

  function Set(s: State, k: Caller, p: Phase): State { s.(callers := s.callers[k := p]) }

  function Post(s: State, e: Event): State {
    match e
    case Tick(d) => s.(clock := s.clock + d)
    case Arrive(k) => Set(s, k, WaitRead)
    case LockRead(k) => Set(s, k, Reading)
    case CheckRead(k) => Set(s, k, if Fresh(s) then Served(s.cache.value.value) else WaitWrite)
    case LockWrite(k) => Set(s, k, Checking)
    case CheckWrite(k) => Set(s, k, if Fresh(s) then Served(s.cache.value.value) else Refreshing)
    case RefreshOk(k, value, expiresIn) =>
      Set(s, k, Served(value)).(cache := Some(Token(value, s.clock + RefreshIn(expiresIn) * SECOND)))
    case RefreshFails(k) => Set(s, k, Failed)
    case Vanish(k) => s.(callers := s.callers - {k})
  }

  ghost predicate Run(states: seq<State>, events: seq<Event>) {
    && |states| == |events| + 1
    && states[0].cache == None && states[0].callers == map[]
    && forall i | 0 <= i < |events| :: Enabled(states[i], events[i]) && states[i + 1] == Post(states[i], events[i])
  }

  /** A refresh starts when the second check finds no fresh token. */
  predicate StartsRefresh(s: State, e: Event) { e.CheckWrite? && !Fresh(s) }

  /** A caller is handed the cached token at one of the two checks. */
  predicate ServesCache(s: State, e: Event) { (e.CheckRead? || e.CheckWrite?) && Fresh(s) }

  // ---------- the lock ----------

  /** A writer shares the lock with nobody, and while one refreshes the token it found stale stays. */
  ghost predicate Inv(s: State) {
    && (forall j, k | j in s.callers && k in s.callers && j != k ::
          HoldsWrite(s.callers[j]) ==> !HoldsWrite(s.callers[k]) && !HoldsRead(s.callers[k]))
    && (forall k | k in s.callers && s.callers[k].Refreshing? :: !Fresh(s))
  }

  lemma StepKeeps(s: State, e: Event)
    requires Inv(s) && Enabled(s, e)
    ensures Inv(Post(s, e))
  {}

  lemma {:induction false} InvHolds(states: seq<State>, events: seq<Event>, i: nat)
    requires Run(states, events) && i < |states|
    ensures Inv(states[i])
  {
    if i > 0 {
      hide Post, Enabled, Inv;
      InvHolds(states, events, i - 1);
      assert Enabled(states[i - 1], events[i - 1]) && states[i - 1 + 1] == Post(states[i - 1], events[i - 1]);
      StepKeeps(states[i - 1], events[i - 1]);
    }
  }

  /** Refreshes never overlap, and nobody reads the cache during one. */
  lemma RefreshesExclude(states: seq<State>, events: seq<Event>, i: nat, j: Caller, k: Caller)
    requires Run(states, events) && i < |states|
    requires PhaseOf(states[i], j) == Some(Refreshing)
    requires PhaseOf(states[i], k) == Some(Refreshing) || PhaseOf(states[i], k) == Some(Reading)
    ensures j == k
  {
    InvHolds(states, events, i);
  }

  // ---------- how long a token lasts ----------

  /** When a token obtained at `t` with this lifetime goes stale: a minute before it expires, but not within a second. */
  function StaleAt(t: nat, expiresIn: nat): nat { t + (if expiresIn > 61 then expiresIn - 60 else 1) * SECOND }

  /** The cached token is never replaced by one that goes stale sooner. */
  lemma CacheAdvances(s: State, e: Event)
    requires Inv(s) && Enabled(s, e) && s.cache.Some?
    ensures Post(s, e).cache.Some? && Post(s, e).cache.value.refreshAfter >= s.cache.value.refreshAfter
    ensures Post(s, e).clock >= s.clock
  {}

  lemma {:induction false} CacheOutlasts(states: seq<State>, events: seq<Event>, i: nat, j: nat)
    requires Run(states, events) && i < j < |states| && events[i].RefreshOk?
    ensures states[j].cache.Some?
    ensures states[j].cache.value.refreshAfter >= states[i].clock + RefreshIn(events[i].expiresIn) * SECOND
    decreases j
  {
    hide Inv, Fresh, Enabled;
    assert Enabled(states[j - 1], events[j - 1]) && states[j - 1 + 1] == Post(states[j - 1], events[j - 1]);
    if j - 1 > i {
      CacheOutlasts(states, events, i, j - 1);
      InvHolds(states, events, j - 1);
      CacheAdvances(states[j - 1], events[j - 1]);
    }
  }

  /** After a refresh that ends well at time t with lifetime e, no other starts before t + (e - 60) seconds, or
      t + 1 second if e is at most 61. */
  lemma RefreshesAreSpaced(states: seq<State>, events: seq<Event>, i: nat, j: nat)
    requires Run(states, events) && i < j < |events|
    requires events[i].RefreshOk? && StartsRefresh(states[j], events[j])
    ensures states[j].clock >= states[i].clock + (if events[i].expiresIn > 61 then events[i].expiresIn - 60 else 1) * SECOND
  {
    CacheOutlasts(states, events, i, j);
  }

  /** The cache holds what the last successful refresh before it brought. */
  lemma {:induction false} CacheOrigin(states: seq<State>, events: seq<Event>, j: nat) returns (i: nat)
    requires Run(states, events) && j < |states| && states[j].cache.Some?
    ensures i < j && events[i].RefreshOk?
    ensures states[j].cache == Some(Token(events[i].value, StaleAt(states[i].clock, events[i].expiresIn)))
    ensures forall m | i < m < j :: !events[m].RefreshOk?
  {
    hide Enabled, Fresh;
    assert j > 0;
    assert Enabled(states[j - 1], events[j - 1]) && states[j - 1 + 1] == Post(states[j - 1], events[j - 1]);
    if events[j - 1].RefreshOk? {
      i := j - 1;
    } else {
      i := CacheOrigin(states, events, j - 1);
    }
  }

  lemma {:induction false} NoCacheYet(states: seq<State>, events: seq<Event>, j: nat)
    requires Run(states, events) && j < |states| && forall m | 0 <= m < j :: !events[m].RefreshOk?
    ensures states[j].cache == None
  {
    hide Enabled, Fresh;
    if j > 0 {
      NoCacheYet(states, events, j - 1);
      assert Enabled(states[j - 1], events[j - 1]) && states[j - 1 + 1] == Post(states[j - 1], events[j - 1]);
    }
  }

  /** At either check, the newest token is served exactly until it goes stale; at the second check a refresh starts
      exactly when none is served. */
  lemma ServedExactly(states: seq<State>, events: seq<Event>, i: nat, j: nat)
    requires Run(states, events) && i < j < |events| && (events[j].CheckRead? || events[j].CheckWrite?)
    requires events[i].RefreshOk? && forall m | i < m < j :: !events[m].RefreshOk?
    ensures var serves := states[j].clock < StaleAt(states[i].clock, events[i].expiresIn);
            && (PhaseOf(states[j + 1], events[j].k) == Some(Served(events[i].value)) <==> serves)
            && (!serves ==>
                  PhaseOf(states[j + 1], events[j].k) == Some(if events[j].CheckWrite? then Refreshing else WaitWrite))
            && states[j + 1].cache == states[j].cache
  {
    CacheOutlasts(states, events, i, j);
    var n := CacheOrigin(states, events, j);
    assert n == i;
    assert states[j + 1] == Post(states[j], events[j]);
  }

  /** Before any refresh nothing is served. */
  lemma NothingServedYet(states: seq<State>, events: seq<Event>, j: nat)
    requires Run(states, events) && j < |events| && (events[j].CheckRead? || events[j].CheckWrite?)
    requires forall m | 0 <= m < j :: !events[m].RefreshOk?
    ensures PhaseOf(states[j + 1], events[j].k) == Some(if events[j].CheckWrite? then Refreshing else WaitWrite)
  {
    NoCacheYet(states, events, j);
    assert states[j + 1] == Post(states[j], events[j]);
  }

  lemma {:induction false} ClockRises(states: seq<State>, events: seq<Event>, i: nat, j: nat)
    requires Run(states, events) && i <= j < |states|
    ensures states[i].clock <= states[j].clock
    decreases j
  {
    hide Enabled, Fresh;
    if i < j {
      ClockRises(states, events, i, j - 1);
      assert Enabled(states[j - 1], events[j - 1]) && states[j - 1 + 1] == Post(states[j - 1], events[j - 1]);
    }
  }

  /** A token served from the cache is the newest one, obtained less than its serving time ago. It has not expired
      if its lifetime was at least a second, and it has if the upstream gave it none. */
  lemma ServedIsFresh(states: seq<State>, events: seq<Event>, j: nat) returns (i: nat)
    requires Run(states, events) && j < |events| && ServesCache(states[j], events[j])
    ensures i < j && events[i].RefreshOk? && forall m | i < m < j :: !events[m].RefreshOk?
    ensures PhaseOf(states[j + 1], events[j].k) == Some(Served(events[i].value))
    ensures states[j].clock < StaleAt(states[i].clock, events[i].expiresIn)
    ensures states[j].clock < states[i].clock + events[i].expiresIn * SECOND <==> events[i].expiresIn >= 1
  {
    i := CacheOrigin(states, events, j);
    assert states[j + 1] == Post(states[j], events[j]);
    ClockRises(states, events, i, j);
    ServedNoLonger(events[i].expiresIn);
  }

  /** Only a lifetime of zero is shorter than the serving time. */
  lemma ServedNoLonger(expiresIn: nat)
    ensures RefreshIn(expiresIn) <= expiresIn <==> expiresIn >= 1
    ensures expiresIn >= 1 ==> RefreshIn(expiresIn) * SECOND <= expiresIn * SECOND
  {}

  /** A token that came with no lifetime is served from the cache half a second later. */
  function ExpiredStates(): seq<State> {
    [State(0, None, map[]), State(0, None, map[1 := WaitRead]), State(0, None, map[1 := Reading]),
     State(0, None, map[1 := WaitWrite]), State(0, None, map[1 := Checking]), State(0, None, map[1 := Refreshing]),
     State(0, Some(Token(7, SECOND)), map[1 := Served(7)]),
     State(SECOND / 2, Some(Token(7, SECOND)), map[1 := Served(7)]),
     State(SECOND / 2, Some(Token(7, SECOND)), map[1 := Served(7), 2 := WaitRead]),
     State(SECOND / 2, Some(Token(7, SECOND)), map[1 := Served(7), 2 := Reading]),
     State(SECOND / 2, Some(Token(7, SECOND)), map[1 := Served(7), 2 := Served(7)])]
  }

  function ExpiredEvents(): seq<Event> {
    [Arrive(1), LockRead(1), CheckRead(1), LockWrite(1), CheckWrite(1), RefreshOk(1, 7, 0), Tick(SECOND / 2), Arrive(2),
     LockRead(2), CheckRead(2)]
  }

  lemma ExpiredIsServed()
    ensures Run(ExpiredStates(), ExpiredEvents())
    ensures ExpiredEvents()[5].expiresIn == 0 && ServesCache(ExpiredStates()[9], ExpiredEvents()[9])
    ensures ExpiredStates()[9].clock > ExpiredStates()[5].clock + ExpiredEvents()[5].expiresIn * SECOND
  {
    var states, events := ExpiredStates(), ExpiredEvents();
    forall i | 0 <= i < |events| ensures Enabled(states[i], events[i]) && states[i + 1] == Post(states[i], events[i]) {
    }
  }
}
