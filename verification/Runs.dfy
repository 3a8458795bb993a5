/** Whole runs of an engine: any sequence of evaluations, passes, loops, waits and pauses,
    from the moment it is created. */
module Runs {
  import opened TimerHistory
  import opened Options
  import opened TimerTable
  import opened Intervals
  import opened Passes
  import opened EventLoop
  import opened PendingJobs
  import Await
  import Ownership

  datatype Action =
    | Eval(timeout: int, fuel: nat)         // eval, call or load: the script and the jobs it leaves
    | ThrowingEval(timeout: int)            // the same, if the script throws
    | Convert                               // JavaScript runs to convert a value (toJSON, toString)
    | Process                               // process_timers
    | ExecuteOne                            // one pending job
    | Drain(fuel: nat)                      // drain_jobs
    | Loop(maxWait: int, fuel: nat)         // run_event_loop
    | Wait(timeout: int, rounds: nat)       // awaitPromise or evalAsync
    | Pause(ms: int)

  function Perform(host: Host, w: World, a: Action): World {
    match a
    case Eval(timeout, fuel) => Evaluated(host, w, timeout, fuel).world
    case ThrowingEval(timeout) => Scripted(host, w, timeout)
    case Convert => Turn(host, w)
    case Process => ProcessTimers(host, w)
    case ExecuteOne => ExecuteJob(host, w)
    case Drain(fuel) => DrainJobs(host, w, fuel, fuel).world
    case Loop(maxWait, fuel) => RunEventLoop(host, w, maxWait, fuel).world
    case Wait(timeout, rounds) =>
      Await.AwaitPromise(host, Turn(host, w.(promise := Pending)), timeout, rounds).world
    case Pause(ms) => Sleep(w, ms)
  }

  function Execute(host: Host, w: World, actions: seq<Action>): World {
    if actions == [] then w
    else Perform(host, Execute(host, w, actions[..|actions| - 1]), actions[|actions| - 1])
  }

  /** What every step keeps, an action keeps, and a run. */
  lemma PerformKeeps(host: Host, P: World -> bool, w: World, a: Action)
    requires StepsKeep(host, P) && P(w)
    ensures P(Perform(host, w, a))
  {
    hide StepsKeep, Turn, ProcessTimers, ExecuteJob, DrainJobs, EventRounds, Await.AwaitLoop, Sleep, ReadClock, RunPending;
    StepKept(host, P, w);
    match a
    case Eval(timeout, fuel) =>
      StepKept(host, P, Started(host, w, timeout));
      PendingKeeps(host, P, Scripted(host, w, timeout), DeadlineFrom(Started(host, w, timeout), timeout), fuel);
    case ThrowingEval(timeout) => StepKept(host, P, Started(host, w, timeout));
    case Convert =>
    case Process =>
    case ExecuteOne =>
    case Drain(fuel) => DrainKeeps(host, P, w, fuel, fuel);
    case Loop(maxWait, fuel) =>
      var n := ReadClock(host, w);
      EventRoundsKeep(host, P, n, n.clock, maxWait, fuel, fuel);
    case Wait(timeout, rounds) =>
      var p := w.(promise := Pending);
      StepKept(host, P, p);
      var v := Turn(host, p);
      StepKept(host, P, v);
      var n := ReadClock(host, v);
      Await.AwaitKeeps(host, P, n, n.clock + timeout, rounds);
      Await.AwaitKeeps(host, P, v, 0, rounds);
    case Pause(ms) =>
  }

  lemma {:induction false} ExecuteKeeps(host: Host, P: World -> bool, w: World, actions: seq<Action>)
    requires StepsKeep(host, P) && P(w)
    ensures P(Execute(host, w, actions))
  {
    hide StepsKeep, Perform;
    if actions != [] {
      var before := actions[..|actions| - 1];
      ExecuteKeeps(host, P, w, before);
      PerformKeeps(host, P, Execute(host, w, before), actions[|actions| - 1]);
    }
  }

  lemma ExecuteFollows(host: Host, w: World, actions: seq<Action>)
    requires AtRest(w)
    ensures Follows(w, Execute(host, w, actions))
  {
    hide AtRest, Execute;
    StepsFollow(host, w);
    ExecuteKeeps(host, v => Follows(w, v), w, actions);
  }

  /** The refinement, over every run: the history of events is legal, and the table holds
      exactly the timers that the history leaves live. */
  lemma EveryRunRefines(host: Host, clock: int, actions: seq<Action>)
    ensures var v := Execute(host, Fresh(clock), actions);
            Legal(v.log) && Holds(v.slots, Now(v.log).live) && Now(v.log).phase.Resting?
  {
    hide Legal, At, SlotsWellFormed, Owned, Holds, Execute;
    FreshIsValid(clock);
    ExecuteFollows(host, Fresh(clock), actions);
  }

  // ---- references ---------------------------------------------------------------------

  lemma {:induction false} OwnedCount(slots: seq<Timer>)
    requires forall i :: 0 <= i < |slots| ==> (slots[i].active <==> slots[i].callback.Function?)
    ensures |Owned(slots)| == ActiveCount(slots)
  {
    if slots != [] {
      OwnedCount(slots[..|slots| - 1]);
      Ownership.OwnedLast(slots, TIMER_REFS);
    }
  }

  /** Reference conservation over every run, whatever callbacks set and clear: references
      taken are references released plus one for each active slot, and closing the engine
      releases exactly what is left. */
  lemma ReferencesConserved(host: Host, clock: int, actions: seq<Action>)
    ensures var v := Execute(host, Fresh(clock), actions);
            && v.taken == v.released + Owned(v.slots)
            && |v.taken| == |v.released| + ActiveCount(v.slots)
            && FreeAll(v).taken == FreeAll(v).released == v.taken
  {
    hide Legal, At, Execute, Holds, Owned, FreeAll;
    FreshIsValid(clock);
    ExecuteFollows(host, Fresh(clock), actions);
    var v := Execute(host, Fresh(clock), actions);
    OwnedCount(v.slots);
    FreeAllReleases(v);
  }

  /** Closing releases what is left. */
  lemma FreeAllReleases(w: World)
    requires AtRest(w)
    ensures FreeAll(w).taken == FreeAll(w).released == w.taken
  {
    hide Legal, At, Holds, Owned, FreeTo;
    var v := FreeAll(w);
    FreeKeepsValid(w, |w.slots|);
    FreeTakesNothing(w, |w.slots|);
    NothingOwned(v.slots);
    assert v.released + Owned(v.slots) == v.released;
  }

  lemma {:induction false} FreeTakesNothing(w: World, k: nat)
    requires k <= |w.slots|
    ensures FreeTo(w, k).taken == w.taken
  {
    if k > 0 { FreeTakesNothing(w, k - 1); }
  }

  // ---- the table as a map -------------------------------------------------------------

  /** The ids in the first `k` slots. */
  ghost function Ids(slots: seq<Timer>, k: nat): set<int>
    requires k <= |slots|
  {
    set i | 0 <= i < k && slots[i].active :: slots[i].id
  }

  lemma {:induction false} IdsCounted(slots: seq<Timer>, live: map<int, Entry>, k: nat)
    requires Holds(slots, live) && k <= |slots|
    ensures |Ids(slots, k)| == ActiveCount(slots[..k])
  {
    hide Holds, Ids;
    if k == 0 {
      NoIds(slots);
    } else {
      IdsCounted(slots, live, k - 1);
      OneMoreId(slots, live, k - 1);
      assert slots[..k][..k - 1] == slots[..k - 1];
    }
  }

  lemma NoIds(slots: seq<Timer>)
    ensures Ids(slots, 0) == {}
  {
  }

  lemma OneMoreId(slots: seq<Timer>, live: map<int, Entry>, k: nat)
    requires Holds(slots, live) && k < |slots|
    ensures slots[k].active ==> slots[k].id !in Ids(slots, k) && Ids(slots, k + 1) == Ids(slots, k) + {slots[k].id}
    ensures !slots[k].active ==> Ids(slots, k + 1) == Ids(slots, k)
  {
  }

  /** The live timers are as many as the active slots, at most 256, and setting a function
      fails only when there are 256. */
  lemma FullIffTooMany(w: World, fn: JSValue)
    requires Valid(w)
    ensures |Now(w.log).live| == ActiveCount(w.slots) <= MAX_TIMERS
    ensures fn.Function? ==> (CanSet(w, fn) <==> |Now(w.log).live| < MAX_TIMERS)
  {
    hide Legal, At, Owned;
    var live := Now(w.log).live;
    var n := |w.slots|;
    IdsCounted(w.slots, live, n);
    assert w.slots[..n] == w.slots;
    forall id | id in live ensures id in Ids(w.slots, n) {
      assert w.slots[live[id].slot].id == id;
    }
    assert Ids(w.slots, n) == live.Keys;
    CountBelow(w.slots);
  }

  lemma {:induction false} CountBelow(slots: seq<Timer>)
    ensures ActiveCount(slots) <= |slots|
    ensures ActiveCount(slots) == |slots| <==> forall i :: 0 <= i < |slots| ==> slots[i].active
  {
    if slots != [] { CountBelow(slots[..|slots| - 1]); }
  }

  /** Setting adds one entry, in the lowest free slot, under an id never used before, due its
      delay (zero if negative) after the clock is read. Clearing removes exactly its id, and
      clearing an id that is not live does nothing. */
  lemma SetAndClearOnTheMap(host: Host, w: World, fn: JSValue, delay: int, repeat: bool, id: int)
    requires Valid(w)
    ensures CanSet(w, fn) ==>
              var v := Schedule(host, w, fn, delay, repeat);
              var setAt := w.clock + host.lag(w.ticks);
              var d := if delay < 0 then 0 else delay;
              && w.nextId !in Now(w.log).live && Now(v.log).issued == w.nextId + 1
              && Now(v.log).live == Now(w.log).live[w.nextId :=
                   Entry(FirstFree(w.slots), fn.callback, d, repeat, setAt, setAt + d)]
    ensures var v := Cancel(w, Some(id));
            Now(v.log).live == Now(w.log).live - {id}
    ensures !CanSet(w, fn) ==> Schedule(host, w, fn, delay, repeat) == w
    ensures id !in Now(w.log).live ==> Cancel(w, Some(id)) == w
    ensures Cancel(w, None) == w
  {
    hide Legal, At, Owned, SlotsWellFormed;
    AlwaysSound(w.log, |w.log|);
    if CanSet(w, fn) {
      var v := Schedule(host, w, fn, delay, repeat);
      SetKeepsValid(host, w, fn, delay, repeat);
      LastEvent(w.log, v.log);
    }
    CancelOnTheMap(w, id);
  }

  lemma CancelOnTheMap(w: World, id: int)
    requires Valid(w)
    ensures id !in Now(w.log).live ==> Cancel(w, Some(id)) == w
    ensures Now(Cancel(w, Some(id)).log).live == Now(w.log).live - {id}
  {
    hide Legal, At, Owned, SlotsWellFormed;
    var v := Cancel(w, Some(id));
    if id in Now(w.log).live { LiveIsFound(w, id); }
    if FindActive(w.slots, id) < |w.slots| { LastEvent(w.log, v.log); }
  }

  lemma LiveIsFound(w: World, id: int)
    requires Valid(w) && id in Now(w.log).live
    ensures FindActive(w.slots, id) < |w.slots|
  {
    hide Legal, At, Owned, SlotsWellFormed;
    var i := Now(w.log).live[id].slot;
    assert w.slots[i].active && w.slots[i].id == id;
  }

  lemma LastEvent(log: seq<Event>, more: seq<Event>)
    requires |more| == |log| + 1 && log <= more
    ensures Now(more) == Apply(Now(log), more[|log|])
  {
    hide Apply;
    AtPrefix(log, more, |log|);
  }

  /** Over every run: once an id has been cleared, or has been retired after its one firing,
      it never fires again, and no one-shot fires twice. */
  lemma NothingFiresAgain(host: Host, clock: int, actions: seq<Action>, i: nat, j: nat)
    requires i < j < |Execute(host, Fresh(clock), actions).log|
    requires Execute(host, Fresh(clock), actions).log[j].Fired?
    ensures var log := Execute(host, Fresh(clock), actions).log;
            && (log[i].Cleared? || log[i].Retired? ==> log[j].id != log[i].id)
            && (FiresOneShot(log, i) ==> log[j].id != log[i].id)
  {
    hide Legal, At, Execute, Holds, Allowed, Apply;
    EveryRunRefines(host, clock, actions);
    var log := Execute(host, Fresh(clock), actions).log;
    if log[i].Cleared? || log[i].Retired? { NeverAgain(log, i, j); }
    if FiresOneShot(log, i) { OneShotFiresOnce(log, i, j); }
  }

  ghost predicate FiresOneShot(log: seq<Event>, i: nat)
    requires i < |log|
  {
    log[i].Fired? && log[i].id in At(log, i).live && !At(log, i).live[log[i].id].repeat
  }
}
