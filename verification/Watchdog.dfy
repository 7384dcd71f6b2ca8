/** The guarded query (src/scratchpad.rs): a caller thread that executes, raises a stop flag and joins,
    and a watcher thread that polls for the flag, a cancellation and the deadline. Each step below is one
    read, write or call of one thread; the threads, the clock and the canceller interleave freely. */
module Watchdog {
  import opened Basics

  /** A timeout of zero means none. */
  datatype Hooks = Hooks(timeout: nat, hasToken: bool)

  datatype Reason = TimedOut | WasCancelled

  datatype Answer = Value | ExecutionError | TimeoutError | CancelledError | NotStarted

  datatype Caller =
    | Entering
    | Opening
    | Executing
    | Executed(ok: bool)
    | Joining(ok: bool)
    | Deciding(ok: bool, reason: Option<Reason>)
    | CheckingClock(ok: bool)
    | Returned(answer: Answer)

  datatype Watcher =
    | Absent
    | Spawned
    | AtStop
    | AtCancel
    | AtDeadline
    | Interrupting(why: Reason)
    | Sleeping
    | Ended(reason: Option<Reason>)

  datatype State = State(
    clock: nat, cancelled: bool, stop: bool, caller: Caller, watcher: Watcher,
    started: nat,         // the caller's clock reading before the query
    watcherStarted: nat,  // the watcher's own reading
    finished: nat,        // when the execution ended
    interrupts: nat)

  predicate Watched(h: Hooks) { h.timeout > 0 || h.hasToken }

  predicate Init(s: State) {
    s.caller == Entering && s.watcher == Absent && !s.stop && s.interrupts == 0 && s.started == 0
  }

  /** What is open to the caller: whether the SQL check, which comes first, and the opening succeed, and how the
      execution ends. */
  predicate CallerStep(h: Hooks, s: State, t: State) {
    match s.caller
    case Entering =>
      || t == s.(caller := Returned(NotStarted))
      || t == s.(caller := if h.hasToken && s.cancelled then Returned(CancelledError) else Opening)
    case Opening =>
      || t == s.(caller := Returned(NotStarted))
      || t == s.(caller := Executing, started := s.clock, watcher := if Watched(h) then Spawned else Absent)
    case Executing =>
      || t == s.(caller := Executed(true), finished := s.clock)
      || t == s.(caller := Executed(false), finished := s.clock)
    case Executed(ok) => t == s.(caller := Joining(ok), stop := true)
    case Joining(ok) =>
      || (s.watcher.Absent? && t == s.(caller := Deciding(ok, None)))
      || (s.watcher.Ended? && t == s.(caller := Deciding(ok, s.watcher.reason)))
    case Deciding(ok, reason) =>
      t == s.(caller := match reason
                        case Some(TimedOut) => Returned(TimeoutError)
                        case Some(WasCancelled) => Returned(CancelledError)
                        case None => CheckingClock(ok))
    case CheckingClock(ok) =>
      t == s.(caller := Returned(if h.timeout > 0 && s.clock - s.started > h.timeout then TimeoutError
                                 else if ok then Value else ExecutionError))
    case Returned(_) => false
  }

  predicate WatcherStep(h: Hooks, s: State, t: State) {
    match s.watcher
    case Absent => false
    case Spawned => t == s.(watcher := AtStop, watcherStarted := s.clock)
    case AtStop => t == s.(watcher := if s.stop then Ended(None) else AtCancel)
    case AtCancel => t == s.(watcher := if h.hasToken && s.cancelled then Interrupting(WasCancelled) else AtDeadline)
    case AtDeadline =>
      t == s.(watcher := if h.timeout > 0 && s.clock - s.watcherStarted >= h.timeout then Interrupting(TimedOut)
                         else Sleeping)
    case Interrupting(why) => t == s.(interrupts := s.interrupts + 1, watcher := Ended(Some(why)))
    case Sleeping => t == s.(watcher := AtStop)
    case Ended(_) => false
  }

  predicate WorldStep(s: State, t: State) {
    t == s.(cancelled := true) || (t == s.(clock := t.clock) && s.clock <= t.clock)
  }

  predicate Next(h: Hooks, s: State, t: State) { CallerStep(h, s, t) || WatcherStep(h, s, t) || WorldStep(s, t) }

  ghost predicate Run(h: Hooks, run: seq<State>) {
    run != [] && Init(run[0]) && forall i | 0 <= i < |run| - 1 :: Next(h, run[i], run[i + 1])
  }

  // ---------- the invariant ----------

  predicate BeforeQuery(c: Caller) { c.Entering? || c.Opening? }

  predicate Running(c: Caller) { c.Executing? || c.Executed? || c.Joining? }

  /** The reason the watcher ended with, if it issued an interrupt. */
  function Interrupted(w: Watcher): Option<Reason> { if w.Ended? then w.reason else Option.None }

  ghost predicate Inv(h: Hooks, s: State) {
    // one interrupt exactly when the watcher ended with a reason
    && s.interrupts == (if Interrupted(s.watcher).Some? then 1 else 0)
    && (BeforeQuery(s.caller) ==> s.watcher == Absent && !s.stop)
    && (s.caller.Executing? || s.caller.Executed? ==> !s.stop)
    && (Running(s.caller) ==> (s.watcher == Absent <==> !Watched(h)))
    // clock readings are in order
    && s.started <= s.clock
    && (s.watcher != Absent && s.watcher != Spawned ==> s.started <= s.watcherStarted <= s.clock)
    && (s.caller.Joining? || s.caller.Executed? || s.caller.Deciding? || s.caller.CheckingClock? ==>
          s.started <= s.finished <= s.clock)
    // a reason is never given without its cause
    && (s.watcher == Interrupting(TimedOut) || s.watcher == Ended(Some(TimedOut)) ==>
          0 < h.timeout <= s.clock - s.started)
    && (s.watcher == Interrupting(WasCancelled) || s.watcher == Ended(Some(WasCancelled)) ==> h.hasToken && s.cancelled)
    // past the join the watcher is over and its reason is the caller's
    && (s.caller.Deciding? ==> s.watcher == Absent || s.watcher == Ended(s.caller.reason))
    && (s.caller.Deciding? && s.watcher == Absent ==> s.caller.reason == None)
    && (s.caller.CheckingClock? ==> s.watcher == Absent || s.watcher == Ended(None))
    && (s.caller.Returned? ==> (s.watcher == Absent || s.watcher.Ended?) && AnswerOk(h, s, s.caller.answer))
  }

  ghost predicate AnswerOk(h: Hooks, s: State, a: Answer) {
    && (Interrupted(s.watcher) == Some(TimedOut) ==> a == TimeoutError)
    && (Interrupted(s.watcher) == Some(WasCancelled) ==> a == CancelledError)
    && (a == TimeoutError ==> 0 < h.timeout <= s.clock - s.started)
    && (a == CancelledError ==> h.hasToken && s.cancelled)
    && (a == Value || a == ExecutionError ==> s.started <= s.finished && (h.timeout > 0 ==> s.finished - s.started <= h.timeout))
  }

  lemma CallerBeginsKeeps(h: Hooks, s: State, t: State)
    requires Inv(h, s) && CallerStep(h, s, t) && BeforeQuery(s.caller)
    ensures Inv(h, t)
  {}

  lemma CallerRunsKeeps(h: Hooks, s: State, t: State)
    requires Inv(h, s) && CallerStep(h, s, t) && Running(s.caller)
    ensures Inv(h, t)
  {}

  lemma CallerEndsKeeps(h: Hooks, s: State, t: State)
    requires Inv(h, s) && CallerStep(h, s, t) && !BeforeQuery(s.caller) && !Running(s.caller)
    ensures Inv(h, t)
  {}

  lemma CallerKeeps(h: Hooks, s: State, t: State)
    requires Inv(h, s) && CallerStep(h, s, t)
    ensures Inv(h, t)
  {
    hide Inv, CallerStep;
    if BeforeQuery(s.caller) { CallerBeginsKeeps(h, s, t); }
    else if Running(s.caller) { CallerRunsKeeps(h, s, t); }
    else { CallerEndsKeeps(h, s, t); }
  }

  lemma WatcherKeeps(h: Hooks, s: State, t: State)
    requires Inv(h, s) && WatcherStep(h, s, t)
    ensures Inv(h, t)
  {}

  lemma WorldKeeps(h: Hooks, s: State, t: State)
    requires Inv(h, s) && WorldStep(s, t)
    ensures Inv(h, t)
  {}

  lemma NextKeeps(h: Hooks, s: State, t: State)
    requires Inv(h, s) && Next(h, s, t)
    ensures Inv(h, t)
  {
    hide Inv, CallerStep, WatcherStep, WorldStep;
    if CallerStep(h, s, t) { CallerKeeps(h, s, t); }
    else if WatcherStep(h, s, t) { WatcherKeeps(h, s, t); }
    else { WorldKeeps(h, s, t); }
  }

  lemma StartsOk(h: Hooks, run: seq<State>)
    requires Run(h, run)
    ensures Inv(h, run[0])
  {}

  lemma {:induction false} InvHolds(h: Hooks, run: seq<State>, k: nat)
    requires Run(h, run) && k < |run|
    ensures Inv(h, run[k])
  {
    if k > 0 {
      hide Inv, Next, Run;
      InvHolds(h, run, k - 1);
      RunStep(h, run, k - 1);
      NextKeeps(h, run[k - 1], run[k]);
    } else {
      hide Run;
      StartsOk(h, run);
    }
  }

  // ---------- what it gives ----------

  /** At most one interrupt; if there was one the caller's answer is the error for its reason; an answer
      of the query itself is given only if it ended within the timeout; an error names a real cause. */
  lemma AnswerIsRight(h: Hooks, run: seq<State>, k: nat)
    requires Run(h, run) && k < |run|
    ensures run[k].interrupts <= 1
    ensures run[k].caller.Returned? ==>
              var s, a := run[k], run[k].caller.answer;
              && (s.interrupts == 1 ==> s.watcher == Ended(Some(if a == TimeoutError then TimedOut else WasCancelled))
                                        && (a == TimeoutError || a == CancelledError))
              && (a == Value || a == ExecutionError ==> h.timeout == 0 || s.finished - s.started <= h.timeout)
              && (a == TimeoutError ==> 0 < h.timeout <= s.clock - s.started)
              && (a == CancelledError ==> h.hasToken && s.cancelled)
  {
    InvHolds(h, run, k);
    var s := run[k];
    if s.caller.Returned? && s.interrupts == 1 {
      var r := s.watcher.reason.value;
      assert r == TimedOut || r == WasCancelled;
    }
  }

  /** An execution that ends after the timeout never yields its value, whatever the watcher did. */
  lemma LateIsNeverOk(h: Hooks, run: seq<State>, k: nat)
    requires Run(h, run) && k < |run| && h.timeout > 0
    requires run[k].caller.Returned? && run[k].finished - run[k].started > h.timeout
    ensures run[k].caller.answer != Value
  {
    InvHolds(h, run, k);
  }

  // ---------- what the query answers ----------

  /** From the end of the execution on the caller carries how it ended, and answers accordingly. */
  predicate Carries(c: Caller, ok: bool) {
    match c
    case Executed(b) => b == ok
    case Joining(b) => b == ok
    case Deciding(b, _) => b == ok
    case CheckingClock(b) => b == ok
    case Returned(a) => (a == Value ==> ok) && (a == ExecutionError ==> !ok) && a != NotStarted
    case _ => false
  }

  lemma CarriesOn(h: Hooks, s: State, t: State, ok: bool)
    requires Next(h, s, t) && Carries(s.caller, ok)
    ensures Carries(t.caller, ok)
  {}

  /** A value is answered only for an execution that ended well, its error only for one that did not. */
  lemma {:induction false} AnswerIsOfTheQuery(h: Hooks, run: seq<State>, k: nat, m: nat, ok: bool)
    requires Run(h, run) && k <= m < |run| && run[k].caller == Executed(ok)
    ensures Carries(run[m].caller, ok)
    ensures run[m].caller == Returned(Value) ==> ok
    ensures run[m].caller == Returned(ExecutionError) ==> !ok
    decreases m
  {
    hide Run, Next;
    if k < m {
      AnswerIsOfTheQuery(h, run, k, m - 1, ok);
      RunStep(h, run, m - 1);
      CarriesOn(h, run[m - 1], run[m], ok);
    }
  }

  lemma CheckAnswers(h: Hooks, s: State, t: State, ok: bool)
    requires Inv(h, s) && Next(h, s, t) && Carries(s.caller, ok) && t.caller.Returned? && t.interrupts == 0
    ensures s.caller == t.caller
            || (s.caller == CheckingClock(ok)
                && t.caller.answer == if h.timeout > 0 && s.clock > s.started + h.timeout then TimeoutError
                                      else if ok then Value else ExecutionError)
  {}

  lemma QuietBefore(h: Hooks, s: State, t: State)
    requires Next(h, s, t) && t.interrupts == 0
    ensures s.interrupts == 0
  {}

  /** Without an interrupt the caller answers at its check of the clock: the timeout error if more than the timeout has
      passed since the start, and otherwise exactly what the execution gave. */
  lemma {:induction false} UninterruptedAnswer(h: Hooks, run: seq<State>, k: nat, m: nat, ok: bool) returns (c: nat)
    requires Run(h, run) && k < m < |run| && run[k].caller == Executed(ok)
    requires run[m].caller.Returned? && run[m].interrupts == 0
    ensures k < c < m && run[c].caller == CheckingClock(ok) && run[c + 1].caller == run[m].caller
    ensures run[m].caller.answer == if h.timeout > 0 && run[c].clock > run[c].started + h.timeout then TimeoutError
                                    else if ok then Value else ExecutionError
    decreases m
  {
    hide Run, Next, Inv;
    AnswerIsOfTheQuery(h, run, k, m - 1, ok);
    InvHolds(h, run, m - 1);
    RunStep(h, run, m - 1);
    CheckAnswers(h, run[m - 1], run[m], ok);
    if run[m - 1].caller == run[m].caller {
      QuietBefore(h, run[m - 1], run[m]);
      c := UninterruptedAnswer(h, run, k, m - 1, ok);
    } else {
      c := m - 1;
    }
  }

  /** The watcher overlooks nothing: it goes to sleep only before the deadline, passes its check of the token only when
      that is not cancelled, and ends without an interrupt only after the stop flag. */
  lemma NothingOverlooked(h: Hooks, run: seq<State>, k: nat)
    requires Run(h, run) && k + 1 < |run| && run[k].watcher != run[k + 1].watcher
    ensures var s, w := run[k], run[k + 1].watcher;
            && (w == Sleeping ==> h.timeout == 0 || s.clock < s.watcherStarted + h.timeout)
            && (w == AtDeadline ==> !h.hasToken || !s.cancelled)
            && (w == Ended(Option.None) ==> s.stop)
            && (s.watcher == Sleeping ==> w == AtStop) && (s.watcher == AtStop ==> w == AtCancel || s.stop)
  {
    hide Run;
    InvHolds(h, run, k);
    RunStep(h, run, k);
  }

  /** A query whose token is cancelled already is not even opened. */
  lemma CancelledAtEntry(h: Hooks, run: seq<State>, k: nat)
    requires Run(h, run) && k + 1 < |run| && run[k].caller == Entering && h.hasToken && run[k].cancelled
    ensures run[k + 1].caller in {Entering, Returned(CancelledError), Returned(NotStarted)}
  {
    hide Run;
    InvHolds(h, run, k);
    RunStep(h, run, k);
  }

  /** The clock readings are what they are named for: the start of the query, the start of the watcher, the end of the
      execution. */
  lemma ClockReadings(h: Hooks, run: seq<State>, k: nat)
    requires Run(h, run) && k + 1 < |run|
    ensures var s, t := run[k], run[k + 1];
            && (s.caller.Opening? && t.caller.Executing? ==> t.started == s.clock && t.watcher == if Watched(h) then Spawned else Absent)
            && (s.watcher == Spawned && t.watcher == AtStop ==> t.watcherStarted == s.clock)
            && (s.caller.Executing? && t.caller.Executed? ==> t.finished == s.clock)
            && (s.caller.Executed? && t.caller.Joining? ==> t.stop)
            && (!s.caller.Opening? ==> t.started == s.started) && (!s.caller.Executing? ==> t.finished == s.finished)
  {
    hide Run;
    InvHolds(h, run, k);
    RunStep(h, run, k);
  }

  /** Once the caller has returned no interrupt is issued any more: none can hit a later query. */
  lemma {:induction false} QuietAfterReturn(h: Hooks, run: seq<State>, k: nat, m: nat)
    requires Run(h, run) && k <= m < |run| && run[k].caller.Returned?
    ensures run[m].caller == run[k].caller && run[m].interrupts == run[k].interrupts
    decreases m
  {
    hide Inv, Next, Run;
    if k < m {
      QuietAfterReturn(h, run, k, m - 1);
      InvHolds(h, run, m - 1);
      RunStep(h, run, m - 1);
      ReturnedStays(h, run[m - 1], run[m]);
    }
  }

  lemma RunStep(h: Hooks, run: seq<State>, i: nat)
    requires Run(h, run) && i + 1 < |run|
    ensures Next(h, run[i], run[i + 1])
  {
    hide Next;
  }

  lemma ReturnedStays(h: Hooks, s: State, t: State)
    requires Inv(h, s) && Next(h, s, t) && s.caller.Returned?
    ensures t.caller == s.caller && t.interrupts == s.interrupts
  {}

  /** Steps the watcher has left once the stop flag is up. */
  function StepsLeft(w: Watcher): nat {
    match w
    case AtCancel => 4
    case AtDeadline => 3
    case Sleeping => 2
    case Spawned => 2
    case AtStop => 1
    case Interrupting(_) => 1
    case _ => 0
  }

  ghost function WatcherSteps(h: Hooks, run: seq<State>): nat {
    if |run| < 2 then 0
    else WatcherSteps(h, run[..|run| - 1]) + if run[|run| - 2].watcher != run[|run| - 1].watcher then 1 else 0
  }

  /** After the stop flag the watcher takes at most four more steps, so the join comes to an end. */
  lemma {:induction false} WatcherStops(h: Hooks, run: seq<State>)
    requires run != [] && (forall i | 0 <= i < |run| - 1 :: Next(h, run[i], run[i + 1]))
    requires run[0].stop && Inv(h, run[0])
    ensures run[|run| - 1].stop && Inv(h, run[|run| - 1])
    ensures WatcherSteps(h, run) + StepsLeft(run[|run| - 1].watcher) <= StepsLeft(run[0].watcher) <= 4
  {
    var n := |run| - 1;
    if n > 0 {
      var before := run[..n];
      forall i | 0 <= i < |before| - 1 ensures Next(h, before[i], before[i + 1]) { assert Next(h, run[i], run[i + 1]); }
      WatcherStops(h, before);
      StopStays(h, run[n - 1], run[n]);
      assert Next(h, run[n - 1], run[n - 1 + 1]);
    }
  }

  lemma StopStays(h: Hooks, s: State, t: State)
    requires Next(h, s, t) && s.stop && Inv(h, s)
    ensures t.stop && Inv(h, t)
    ensures t.watcher == s.watcher || StepsLeft(t.watcher) < StepsLeft(s.watcher)
  {
    NextKeeps(h, s, t);
  }

  /** While it waits the caller is never stuck: the watcher has a step to take or the join goes through. */
  lemma JoinGoesOn(h: Hooks, s: State)
    requires Inv(h, s) && s.caller.Joining?
    ensures exists t :: CallerStep(h, s, t) || WatcherStep(h, s, t)
  {
    var ok := s.caller.ok;
    match s.watcher
    case Absent => assert CallerStep(h, s, s.(caller := Deciding(ok, None)));
    case Ended(reason) => assert CallerStep(h, s, s.(caller := Deciding(ok, reason)));
    case Spawned => assert WatcherStep(h, s, s.(watcher := AtStop, watcherStarted := s.clock));
    case AtStop => assert WatcherStep(h, s, s.(watcher := if s.stop then Ended(None) else AtCancel));
    case AtCancel =>
      assert WatcherStep(h, s, s.(watcher := if h.hasToken && s.cancelled then Interrupting(WasCancelled) else AtDeadline));
    case AtDeadline =>
      var late := h.timeout > 0 && s.clock - s.watcherStarted >= h.timeout;
      assert WatcherStep(h, s, s.(watcher := if late then Interrupting(TimedOut) else Sleeping));
    case Interrupting(why) =>
      assert WatcherStep(h, s, s.(interrupts := s.interrupts + 1, watcher := Ended(Some(why))));
    case Sleeping => assert WatcherStep(h, s, s.(watcher := AtStop));
  }
}
