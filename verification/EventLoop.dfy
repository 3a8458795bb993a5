/** The loops that interleave the job queue with passes over the timer table: drain_jobs,
    run_event_loop and the await loops. A loop that need not end is run for at most `fuel`
    rounds of each `while`, and says `Running` when that was not enough. */
module EventLoop {
  import opened TimerHistory
  import opened TimerTable
  import opened Intervals
  import opened Passes

  // ---- jobs ---------------------------------------------------------------------------

  /** JS_ExecutePendingJob. */
  function ExecuteJob(host: Host, w: World): World {
    if w.jobs == 0 then w else Turn(host, w.(jobs := w.jobs - 1, jobsRun := w.jobsRun + 1))
  }

  predicate JobThrows(host: Host, w: World) { w.jobs > 0 && host.jobThrows(w.jobsRun) }

  datatype Outcome =
    | Returned(world: World)    // 0
    | Failed(world: World)      // -1: a job threw
    | Running(world: World)     // out of fuel

  /** The inner loop: jobs until there are none. */
  function RunJobs(host: Host, w: World, fuel: nat): Outcome
    decreases fuel
  {
    if fuel == 0 then Running(w)
    else if w.jobs == 0 then Returned(w)
    else if JobThrows(host, w) then Failed(ExecuteJob(host, w))
    else RunJobs(host, ExecuteJob(host, w), fuel - 1)
  }

  // ---- drain_jobs ---------------------------------------------------------------------

  function DrainJobs(host: Host, w: World, fuel: nat, rounds: nat): Outcome
    decreases rounds
  {
    if rounds == 0 then Running(w)
    else
      var j := RunJobs(host, w, fuel);
      if !j.Returned? then j
      else
        var v := ProcessTimers(host, j.world);
        if v.turns == w.turns then Returned(v) else DrainJobs(host, v, fuel, rounds - 1)
  }

  // ---- run_event_loop -----------------------------------------------------------------

  predicate HasActive(slots: seq<Timer>) { exists i :: 0 <= i < |slots| && slots[i].active }

  /** engine_sleep_ms: the clock advances by at least one. */
  function Sleep(w: World, ms: int): World { w.(clock := w.clock + if ms < 1 then 1 else ms) }

  function EventRounds(host: Host, w: World, start: int, maxWait: int, fuel: nat, rounds: nat): Outcome
    decreases rounds
  {
    if rounds == 0 then Running(w)
    else
      var j := RunJobs(host, w, fuel);
      if !j.Returned? then j
      else
        var v := ProcessTimers(host, j.world);
        var idle := v.turns == w.turns;
        if idle && !HasActive(v.slots) then Returned(v)
        else
          var u := if maxWait > 0 then ReadClock(host, v) else v;
          if maxWait > 0 && u.clock - start >= maxWait then Returned(u)
          else EventRounds(host, if idle then Sleep(u, 1) else u, start, maxWait, fuel, rounds - 1)
  }

  function RunEventLoop(host: Host, w: World, maxWait: int, fuel: nat): Outcome {
    var n := ReadClock(host, w);
    EventRounds(host, n, n.clock, maxWait, fuel, fuel)
  }

  // ---- validity -----------------------------------------------------------------------

  /** What every piece of a run keeps. */
  ghost predicate Follows(w: World, v: World) {
    AtRest(v) && w.log <= v.log && w.samples <= v.samples && w.clock <= v.clock && w.turns <= v.turns
  }

  lemma ReadClockFollows(host: Host, w: World)
    requires AtRest(w)
    ensures Follows(w, ReadClock(host, w))
  {
    hide Legal, At, SlotsWellFormed, Owned, Holds;
    ReadClockKeepsValid(host, w);
  }

  lemma SleepFollows(w: World, ms: int)
    requires AtRest(w)
    ensures Follows(w, Sleep(w, ms)) && w.clock < Sleep(w, ms).clock
  {
    hide Legal, At, SlotsWellFormed, Owned, Holds;
  }

  lemma TurnFollows(host: Host, w: World)
    requires AtRest(w)
    ensures Follows(w, Turn(host, w)) && Turn(host, w).turns == w.turns + 1
  {
    hide Legal, At, SlotsWellFormed, Owned, Holds, Turn;
    TurnKeepsValid(host, w);
    TurnEffect(host, w);
  }

  lemma JobFollows(host: Host, w: World)
    requires AtRest(w)
    ensures Follows(w, ExecuteJob(host, w))
    ensures w.jobs > 0 ==> ExecuteJob(host, w).turns == w.turns + 1
  {
    hide Legal, At, SlotsWellFormed, Owned, Holds, Turn;
    if w.jobs > 0 { TurnFollows(host, w.(jobs := w.jobs - 1, jobsRun := w.jobsRun + 1)); }
  }

  lemma {:induction false} RunJobsFollows(host: Host, w: World, fuel: nat)
    requires AtRest(w)
    ensures Follows(w, RunJobs(host, w, fuel).world)
    ensures RunJobs(host, w, fuel).Returned? ==> RunJobs(host, w, fuel).world.jobs == 0
    ensures RunJobs(host, w, fuel).Returned? && RunJobs(host, w, fuel).world.turns == w.turns ==>
              RunJobs(host, w, fuel).world == w
    decreases fuel
  {
    hide AtRest, ExecuteJob;
    if fuel > 0 && w.jobs > 0 {
      JobFollows(host, w);
      if !JobThrows(host, w) { RunJobsFollows(host, ExecuteJob(host, w), fuel - 1); }
    }
  }

  /** A pass either calls nothing and changes nothing, because nothing is due, or it calls. */
  lemma {:induction false} PassTurns(host: Host, w: World, now: int, k: nat)
    requires k <= |w.slots|
    ensures var v := PassTo(host, w, now, k);
            && w.turns <= v.turns && w.clock <= v.clock && v.samples == w.samples
            && (v.turns == w.turns ==> v == w && forall i :: 0 <= i < k ==> !Due(w.slots[i], now))
  {
    hide Visit;
    if k > 0 {
      PassTurns(host, w, now, k - 1);
      VisitTurns(host, PassTo(host, w, now, k - 1), k - 1, now);
    }
  }

  /** As long as nothing is due, a pass calls nothing and changes nothing. */
  lemma {:induction false} IdlePass(host: Host, w: World, now: int, k: nat)
    requires k <= |w.slots| && forall i :: 0 <= i < k ==> !Due(w.slots[i], now)
    ensures PassTo(host, w, now, k) == w
  {
    if k > 0 { IdlePass(host, w, now, k - 1); }
  }

  lemma VisitTurns(host: Host, w: World, i: nat, now: int)
    requires i < |w.slots|
    ensures var v := Visit(host, w, i, now);
            && v.samples == w.samples
            && if Due(w.slots[i], now) then v.turns == w.turns + 1 && w.clock <= v.clock else v == w
  {
    hide Turn, AfterCall;
    if Due(w.slots[i], now) {
      var c := w.(log := w.log + [Fired(w.slots[i].id, now)]);
      TurnEffect(host, c);
      AfterCallEffect(Turn(host, c), i, now);
    }
  }

  lemma ProcessFollows(host: Host, w: World)
    requires AtRest(w)
    ensures var v := ProcessTimers(host, w);
            && Follows(w, v)
            && (v.turns == w.turns ==>
                  && v == Sampled(host, w)
                  && forall i :: 0 <= i < |v.slots| && v.slots[i].active ==> v.slots[i].fireTime > v.clock)
  {
    hide Legal, At, SlotsWellFormed, Owned, Holds, PassTo;
    var n := Sampled(host, w);
    ReadClockFollows(host, w);
    PassKeepsValid(host, n, n.clock, |n.slots|);
    PassTurns(host, n, n.clock, |n.slots|);
  }

  // ---- what every step keeps, every run keeps -----------------------------------------

  /** The steps that runs are made of. */
  ghost predicate EachStepKeeps(host: Host, P: World -> bool, w: World) {
    && P(ReadClock(host, w)) && P(Turn(host, w)) && P(ExecuteJob(host, w)) && P(ProcessTimers(host, w))
    && P(w.(promise := Pending)) && (forall ms :: P(Sleep(w, ms)))
  }

  ghost predicate StepsKeep(host: Host, P: World -> bool) {
    forall w {:trigger EachStepKeeps(host, P, w)} :: P(w) ==> EachStepKeeps(host, P, w)
  }

  lemma StepKept(host: Host, P: World -> bool, w: World)
    requires StepsKeep(host, P) && P(w)
    ensures P(ReadClock(host, w)) && P(Turn(host, w)) && P(ExecuteJob(host, w)) && P(ProcessTimers(host, w))
    ensures P(w.(promise := Pending)) && forall ms :: P(Sleep(w, ms))
  {
    assert EachStepKeeps(host, P, w);
  }

  lemma {:induction false} RunJobsKeep(host: Host, P: World -> bool, w: World, fuel: nat)
    requires StepsKeep(host, P) && P(w)
    ensures P(RunJobs(host, w, fuel).world)
    decreases fuel
  {
    hide StepsKeep, ExecuteJob;
    if fuel > 0 && w.jobs > 0 {
      StepKept(host, P, w);
      if !JobThrows(host, w) { RunJobsKeep(host, P, ExecuteJob(host, w), fuel - 1); }
    }
  }

  lemma {:induction false} DrainKeeps(host: Host, P: World -> bool, w: World, fuel: nat, rounds: nat)
    requires StepsKeep(host, P) && P(w)
    ensures P(DrainJobs(host, w, fuel, rounds).world)
    decreases rounds
  {
    hide StepsKeep, RunJobs, ProcessTimers;
    if rounds > 0 {
      var j := RunJobs(host, w, fuel);
      RunJobsKeep(host, P, w, fuel);
      StepKept(host, P, j.world);
      if j.Returned? { DrainKeeps(host, P, ProcessTimers(host, j.world), fuel, rounds - 1); }
    }
  }

  lemma {:induction false} EventRoundsKeep(host: Host, P: World -> bool, w: World, start: int, maxWait: int, fuel: nat, rounds: nat)
    requires StepsKeep(host, P) && P(w)
    ensures P(EventRounds(host, w, start, maxWait, fuel, rounds).world)
    decreases rounds
  {
    hide StepsKeep, RunJobs, ProcessTimers, Sleep, ReadClock, HasActive;
    if rounds > 0 {
      var j := RunJobs(host, w, fuel);
      RunJobsKeep(host, P, w, fuel);
      if j.Returned? {
        StepKept(host, P, j.world);
        var v := ProcessTimers(host, j.world);
        StepKept(host, P, v);
        var u := if maxWait > 0 then ReadClock(host, v) else v;
        StepKept(host, P, u);
        EventRoundsKeep(host, P, if v.turns == w.turns then Sleep(u, 1) else u, start, maxWait, fuel, rounds - 1);
      }
    }
  }

  /** Each step follows what came before it. */
  lemma StepsFollow(host: Host, w: World)
    ensures StepsKeep(host, v => Follows(w, v))
  {
    hide AtRest, ReadClock, Turn, ExecuteJob, ProcessTimers, Sleep;
    var P := v => Follows(w, v);
    forall v | P(v) ensures EachStepKeeps(host, P, v) {
      ReadClockFollows(host, v);
      TurnFollows(host, v);
      JobFollows(host, v);
      ProcessFollows(host, v);
      AnyPromise(v, Pending);
      forall ms ensures P(Sleep(v, ms)) { SleepFollows(v, ms); }
    }
  }

  lemma EventRoundsFollow(host: Host, w: World, start: int, maxWait: int, fuel: nat, rounds: nat)
    requires AtRest(w)
    ensures Follows(w, EventRounds(host, w, start, maxWait, fuel, rounds).world)
  {
    hide AtRest, EventRounds;
    StepsFollow(host, w);
    EventRoundsKeep(host, v => Follows(w, v), w, start, maxWait, fuel, rounds);
  }

  lemma AnyPromise(w: World, promise: Promise)
    requires AtRest(w)
    ensures AtRest(w.(promise := promise))
  {
    hide Legal, At, SlotsWellFormed, Owned, Holds;
  }

  // ---- quiescence ---------------------------------------------------------------------

  /** When drain_jobs returns 0 there is no job left, and every timer is due after the clock. */
  lemma {:induction false} DrainedIsQuiescent(host: Host, w: World, fuel: nat, rounds: nat)
    requires AtRest(w) && DrainJobs(host, w, fuel, rounds).Returned?
    ensures var v := DrainJobs(host, w, fuel, rounds).world;
            && v.jobs == 0
            && forall i :: 0 <= i < |v.slots| && v.slots[i].active ==> v.slots[i].fireTime > v.clock
    decreases rounds
  {
    hide AtRest, RunJobs, ProcessTimers;
    var j := RunJobs(host, w, fuel);
    RunJobsFollows(host, w, fuel);
    var v := ProcessTimers(host, j.world);
    ProcessFollows(host, j.world);
    if v.turns != w.turns { DrainedIsQuiescent(host, v, fuel, rounds - 1); }
  }

  /** When run_event_loop returns 0, nothing is left to do or its positive limit has passed. */
  lemma EventLoopIsQuiescent(host: Host, w: World, maxWait: int, fuel: nat)
    requires AtRest(w) && RunEventLoop(host, w, maxWait, fuel).Returned?
    ensures var v := RunEventLoop(host, w, maxWait, fuel).world;
            || (v.jobs == 0 && !HasActive(v.slots))
            || (maxWait > 0 && v.clock - ReadClock(host, w).clock >= maxWait)
  {
    hide AtRest, EventRounds, HasActive;
    var n := ReadClock(host, w);
    ReadClockFollows(host, w);
    EventLoopReturns(host, n, n.clock, maxWait, fuel, fuel);
  }

  lemma {:induction false} EventLoopReturns(host: Host, w: World, start: int, maxWait: int, fuel: nat, rounds: nat)
    requires AtRest(w) && EventRounds(host, w, start, maxWait, fuel, rounds).Returned?
    ensures var v := EventRounds(host, w, start, maxWait, fuel, rounds).world;
            || (v.jobs == 0 && !HasActive(v.slots))
            || (maxWait > 0 && v.clock - start >= maxWait)
    decreases rounds
  {
    hide AtRest, RunJobs, ProcessTimers, Sleep, ReadClock, HasActive;
    var j := RunJobs(host, w, fuel);
    RunJobsFollows(host, w, fuel);
    var v := ProcessTimers(host, j.world);
    ProcessFollows(host, j.world);
    var u := if maxWait > 0 then ReadClock(host, v) else v;
    ReadClockFollows(host, v);
    SleepFollows(u, 1);
    ReadClockKeepsJobs(host, j.world);
    var idle := v.turns == w.turns;
    if !(idle && !HasActive(v.slots)) && !(maxWait > 0 && u.clock - start >= maxWait) {
      EventLoopReturns(host, if idle then Sleep(u, 1) else u, start, maxWait, fuel, rounds - 1);
    }
  }

  lemma ReadClockKeepsJobs(host: Host, w: World)
    ensures Sampled(host, w).jobs == ReadClock(host, w).jobs == w.jobs
  {
  }
}
