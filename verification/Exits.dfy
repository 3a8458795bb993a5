/** What each loop finally answers, and when, for any callbacks and jobs and any clock: that it
    fails exactly when a job threw, how it keeps to its limit or deadline, that timers wait for
    jobs, and when it sleeps. */
module Exits {
  import opened TimerHistory
  import opened TimerTable
  import opened Passes
  import opened EventLoop
  import opened Liveness
  import opened PendingJobs
  import opened Await

  // ---- jobs that throw ----------------------------------------------------------------

  /** A loop that ran the jobs from the `a`-th up to the `b`-th fails if and only if one of them
      throws; it is then the last one. */
  ghost predicate FailsIff(host: Host, a: nat, b: nat, failed: bool) {
    && a <= b && (failed ==> a < b)
    && forall n :: a <= n < b ==> (host.jobThrows(n) <==> failed && n == b - 1)
  }

  ghost predicate NoneThrew(host: Host, a: nat, b: nat) {
    a <= b && forall n :: a <= n < b ==> !host.jobThrows(n)
  }

  /** `v` is what a job that threw left behind, and nothing since. */
  ghost predicate LeftByThrower(host: Host, v: World) {
    exists x :: JobThrows(host, x) && v == ExecuteJob(host, x)
  }

  lemma ThenFails(host: Host, a: nat, b: nat, c: nat, failed: bool)
    requires NoneThrew(host, a, b) && FailsIff(host, b, c, failed)
    ensures FailsIff(host, a, c, failed)
  {
  }

  lemma OneJob(host: Host, w: World)
    requires w.jobs > 0
    ensures FailsIff(host, w.jobsRun, ExecuteJob(host, w).jobsRun, JobThrows(host, w))
    ensures JobThrows(host, w) ==> LeftByThrower(host, ExecuteJob(host, w))
  {
    hide ExecuteJob;
    JobCounts(host, w);
  }

  lemma {:induction false} RunJobsFailIff(host: Host, w: World, fuel: nat)
    ensures var r := RunJobs(host, w, fuel);
            && FailsIff(host, w.jobsRun, r.world.jobsRun, r.Failed?)
            && (r.Failed? ==> LeftByThrower(host, r.world))
    decreases fuel
  {
    hide ExecuteJob, FailsIff, LeftByThrower;
    NoJobs(host, w.jobsRun);
    if fuel > 0 && w.jobs > 0 {
      var u := ExecuteJob(host, w);
      OneJob(host, w);
      if !JobThrows(host, w) {
        RunJobsFailIff(host, u, fuel - 1);
        assert NoneThrew(host, w.jobsRun, u.jobsRun) by { NotFailed(host, w.jobsRun, u.jobsRun); }
        ThenFails(host, w.jobsRun, u.jobsRun, RunJobs(host, w, fuel).world.jobsRun, RunJobs(host, w, fuel).Failed?);
      }
    }
  }

  lemma NoJobs(host: Host, a: nat)
    ensures FailsIff(host, a, a, false) && NoneThrew(host, a, a)
  {
  }

  lemma NotFailed(host: Host, a: nat, b: nat)
    requires FailsIff(host, a, b, false)
    ensures NoneThrew(host, a, b)
  {
  }

  lemma SomeThrew(host: Host, a: nat, b: nat)
    requires FailsIff(host, a, b, true)
    ensures !NoneThrew(host, a, b)
  {
    assert host.jobThrows(b - 1);
  }

  /** drain_jobs fails if and only if one of the jobs it ran threw, and then at once. */
  lemma {:induction false} DrainFailsIff(host: Host, w: World, fuel: nat, rounds: nat)
    ensures var r := DrainJobs(host, w, fuel, rounds);
            && FailsIff(host, w.jobsRun, r.world.jobsRun, r.Failed?)
            && (r.Failed? ==> LeftByThrower(host, r.world))
    decreases rounds
  {
    hide RunJobs, ProcessTimers, FailsIff, LeftByThrower, NoneThrew;
    NoJobs(host, w.jobsRun);
    if rounds > 0 {
      var j := RunJobs(host, w, fuel);
      RunJobsFailIff(host, w, fuel);
      if j.Returned? {
        var v := ProcessTimers(host, j.world);
        PassCounts(host, j.world);
        NotFailed(host, w.jobsRun, v.jobsRun);
        if v.turns != w.turns {
          var r := DrainJobs(host, v, fuel, rounds - 1);
          DrainFailsIff(host, v, fuel, rounds - 1);
          ThenFails(host, w.jobsRun, v.jobsRun, r.world.jobsRun, r.Failed?);
        }
      }
    }
  }

  /** So does run_event_loop. */
  lemma EventLoopFailsIff(host: Host, w: World, maxWait: int, fuel: nat)
    ensures var r := RunEventLoop(host, w, maxWait, fuel);
            && FailsIff(host, w.jobsRun, r.world.jobsRun, r.Failed?)
            && (r.Failed? ==> LeftByThrower(host, r.world))
  {
    hide EventRounds;
    var n := ReadClock(host, w);
    EventRoundsFailIff(host, n, n.clock, maxWait, fuel, fuel);
  }

  lemma {:induction false} EventRoundsFailIff(host: Host, w: World, start: int, maxWait: int, fuel: nat, rounds: nat)
    ensures var r := EventRounds(host, w, start, maxWait, fuel, rounds);
            && FailsIff(host, w.jobsRun, r.world.jobsRun, r.Failed?)
            && (r.Failed? ==> LeftByThrower(host, r.world))
    decreases rounds
  {
    hide RunJobs, ProcessTimers, HasActive, FailsIff, LeftByThrower, NoneThrew;
    NoJobs(host, w.jobsRun);
    if rounds > 0 {
      var j := RunJobs(host, w, fuel);
      RunJobsFailIff(host, w, fuel);
      if j.Returned? {
        var v := ProcessTimers(host, j.world);
        PassCounts(host, j.world);
        NotFailed(host, w.jobsRun, v.jobsRun);
        var u := if maxWait > 0 then ReadClock(host, v) else v;
        var x := if v.turns == w.turns then Sleep(u, 1) else u;
        var r := EventRounds(host, x, start, maxWait, fuel, rounds - 1);
        EventRoundsFailIff(host, x, start, maxWait, fuel, rounds - 1);
        ThenFails(host, w.jobsRun, x.jobsRun, r.world.jobsRun, r.Failed?);
      }
    }
  }

  /** And the await loops. */
  lemma {:induction false} AwaitFailsIff(host: Host, w: World, deadline: int, rounds: nat)
    ensures var r := AwaitLoop(host, w, deadline, rounds);
            && FailsIff(host, w.jobsRun, r.world.jobsRun, r.JobFailed?)
            && (r.JobFailed? ==> LeftByThrower(host, r.world))
    decreases rounds
  {
    hide ProcessTimers, ExecuteJob, FailsIff, LeftByThrower, NoneThrew;
    NoJobs(host, w.jobsRun);
    if w.promise.Pending? && rounds > 0 {
      var v := ProcessTimers(host, w);
      PassCounts(host, w);
      if v.jobs > 0 {
        var x := ExecuteJob(host, v);
        OneJob(host, v);
        if !JobThrows(host, v) {
          var r := AwaitLoop(host, x, deadline, rounds - 1);
          NotFailed(host, w.jobsRun, x.jobsRun);
          AwaitFailsIff(host, x, deadline, rounds - 1);
          ThenFails(host, w.jobsRun, x.jobsRun, r.world.jobsRun, r.JobFailed?);
        }
      } else {
        var x := Sleep(if deadline > 0 then ReadClock(host, v) else v, 1);
        AwaitFailsIff(host, x, deadline, rounds - 1);
      }
    }
  }

  /** And run_pending_jobs, but for its interruptions. */
  lemma {:induction false} PendingThrowsIff(host: Host, w: World, deadline: int, fuel: nat)
    ensures var r := RunPending(host, w, deadline, fuel);
            && FailsIff(host, w.jobsRun, r.world.jobsRun, r.Threw?)
            && (r.Threw? ==> LeftByThrower(host, r.world))
    decreases fuel
  {
    hide ExecuteJob, FailsIff, LeftByThrower, NoneThrew;
    NoJobs(host, w.jobsRun);
    if fuel > 0 && w.jobs > 0 {
      var v := ExecuteJob(host, w);
      OneJob(host, w);
      if !JobThrows(host, w) {
        NotFailed(host, w.jobsRun, v.jobsRun);
        var u := if deadline > 0 then ReadClock(host, v) else v;
        var r := RunPending(host, u, deadline, fuel - 1);
        PendingThrowsIff(host, u, deadline, fuel - 1);
        ThenFails(host, w.jobsRun, u.jobsRun, r.world.jobsRun, r.Threw?);
      }
    }
  }

  // ---- the limit of run_event_loop ----------------------------------------------------

  /** A limit is kept, however busy the loop is: as long as its jobs come to an end, it is never
      found running later than the limit after its start. */
  lemma LimitIsKept(host: Host, w: World, maxWait: int, fuel: nat)
    requires maxWait > 0
    ensures var r := RunEventLoop(host, w, maxWait, fuel);
            r.Running? && r.world.jobsRun < w.jobsRun + fuel ==>
              r.world.clock <= ReadClock(host, w).clock + maxWait
  {
    hide EventRounds;
    var n := ReadClock(host, w);
    var r := RunEventLoop(host, w, maxWait, fuel);
    EventRoundsCount(host, n, n.clock, maxWait, fuel, fuel);
    if r.Running? && r.world.jobsRun < w.jobsRun + fuel {
      RoundsKeepLimit(host, n, n.clock, maxWait, fuel, fuel);
    }
  }

  lemma {:induction false} RoundsKeepLimit(host: Host, w: World, start: int, maxWait: int, fuel: nat, rounds: nat)
    requires maxWait > 0 && rounds > 0 && EventRounds(host, w, start, maxWait, fuel, rounds).Running?
    requires EventRounds(host, w, start, maxWait, fuel, rounds).world.jobsRun < w.jobsRun + fuel
    ensures EventRounds(host, w, start, maxWait, fuel, rounds).world.clock <= start + maxWait
    decreases rounds
  {
    hide RunJobs, ProcessTimers, HasActive;
    var j := RunJobs(host, w, fuel).world;
    RunJobsCounts(host, w, fuel);
    PassCounts(host, j);
    var v := ProcessTimers(host, j);
    var u := ReadClock(host, v);
    if rounds > 1 {
      RoundsKeepLimit(host, if v.turns == w.turns then Sleep(u, 1) else u, start, maxWait, fuel, rounds - 1);
    }
  }

  /** At a clock that advances by a millisecond or more between two looks, a limited loop ends
      within limit + 1 rounds, whatever the callbacks do, unless jobs without end keep it. */
  lemma OnlyJobsOutlastTheLimit(host: Host, w: World, maxWait: int, fuel: nat)
    requires maxWait > 0 && fuel > maxWait && forall n :: host.lag(n) >= 1
    ensures var r := RunEventLoop(host, w, maxWait, fuel);
            r.Running? ==> r.world.jobsRun >= w.jobsRun + fuel
  {
    hide EventRounds;
    var n := ReadClock(host, w);
    var r := RunEventLoop(host, w, maxWait, fuel);
    if r.Running? && r.world.jobsRun < w.jobsRun + fuel {
      RoundsKeepLimit(host, n, n.clock, maxWait, fuel, fuel);
      RoundsTakeTime(host, n, n.clock, maxWait, fuel, fuel);
    }
  }

  lemma {:induction false} RoundsTakeTime(host: Host, w: World, start: int, maxWait: int, fuel: nat, rounds: nat)
    requires maxWait > 0 && forall n :: host.lag(n) >= 1
    requires EventRounds(host, w, start, maxWait, fuel, rounds).Running?
    requires EventRounds(host, w, start, maxWait, fuel, rounds).world.jobsRun < w.jobsRun + fuel
    ensures EventRounds(host, w, start, maxWait, fuel, rounds).world.clock >= w.clock + rounds
    decreases rounds
  {
    hide RunJobs, ProcessTimers, HasActive;
    if rounds > 0 {
      var j := RunJobs(host, w, fuel).world;
      RunJobsCounts(host, w, fuel);
      PassCounts(host, j);
      var v := ProcessTimers(host, j);
      var u := ReadClock(host, v);
      RoundsTakeTime(host, if v.turns == w.turns then Sleep(u, 1) else u, start, maxWait, fuel, rounds - 1);
    }
  }

  // ---- jobs without end ---------------------------------------------------------------

  /** Every job queues another and none throws. */
  ghost predicate JobsForEver(host: Host) {
    forall n :: !host.jobThrows(n) && EnqueueJob in host.script(n)
  }

  lemma JobQueuesJob(host: Host, w: World)
    requires JobsForEver(host) && w.jobs > 0
    ensures ExecuteJob(host, w).jobs >= w.jobs && !JobThrows(host, w)
  {
    hide Run;
    var c := w.(jobs := w.jobs - 1, jobsRun := w.jobsRun + 1, turns := w.turns + 1);
    RunQueues(host, c, host.script(w.turns));
  }

  lemma {:induction false} RunJobsForEver(host: Host, w: World, fuel: nat)
    requires JobsForEver(host) && w.jobs > 0
    ensures RunJobs(host, w, fuel).Running?
    decreases fuel
  {
    hide JobsForEver, ExecuteJob;
    if fuel > 0 {
      JobQueuesJob(host, w);
      RunJobsForEver(host, ExecuteJob(host, w), fuel - 1);
    }
  }

  /** Neither the limit of run_event_loop, nor the deadline of a wait, is looked at while there
      are jobs: if each job queues another, drain_jobs and run_event_loop never return, whatever
      the limit, and a wait whose promise stays pending never times out. */
  lemma JobsOutlastLimits(host: Host, w: World, maxWait: int, deadline: int, fuel: nat)
    requires JobsForEver(host) && w.jobs > 0
    ensures DrainJobs(host, w, fuel, fuel).Running? && RunEventLoop(host, w, maxWait, fuel).Running?
    ensures w.promise.Pending? && (forall n :: !SettlesPromise(host.script(n))) ==>
              AwaitLoop(host, w, deadline, fuel).Waiting?
  {
    hide JobsForEver, RunJobs, SettlesPromise;
    RunJobsForEver(host, w, fuel);
    RunJobsForEver(host, ReadClock(host, w), fuel);
    if w.promise.Pending? && forall n :: !SettlesPromise(host.script(n)) {
      WaitsForEver(host, w, deadline, fuel);
    }
  }

  lemma {:induction false} WaitsForEver(host: Host, w: World, deadline: int, rounds: nat)
    requires JobsForEver(host) && w.jobs > 0 && w.promise.Pending?
    requires forall n :: !SettlesPromise(host.script(n))
    ensures AwaitLoop(host, w, deadline, rounds).Waiting?
    decreases rounds
  {
    hide JobsForEver, ProcessTimers, ExecuteJob, SettlesPromise;
    if rounds > 0 {
      var v := ProcessTimers(host, w);
      ProcessSettles(host, w);
      ProcessKeepsJobs(host, w);
      JobQueuesJob(host, v);
      JobSettles(host, v);
      WaitsForEver(host, ExecuteJob(host, v), deadline, rounds - 1);
    }
  }

  lemma ProcessKeepsJobs(host: Host, w: World)
    ensures w.jobs <= ProcessTimers(host, w).jobs
  {
    hide PassTo;
    var n := Sampled(host, w);
    PassKeepsJobs(host, n, n.clock, |n.slots|);
  }

  lemma {:induction false} PassKeepsJobs(host: Host, w: World, now: int, k: nat)
    requires k <= |w.slots|
    ensures w.jobs <= PassTo(host, w, now, k).jobs
  {
    hide Visit;
    if k > 0 {
      PassKeepsJobs(host, w, now, k - 1);
      VisitQueues(host, PassTo(host, w, now, k - 1), k - 1, now);
    }
  }

  // ---- the timeout of a wait ----------------------------------------------------------

  /** A wait is not given up before its timeout has passed since it began, and never without one;
      and when it is still waiting after a round that ran no job, the timeout is not over. */
  lemma TimeoutIsKept(host: Host, w: World, timeout: int, rounds: nat)
    requires w.promise.Pending?
    ensures var r := AwaitPromise(host, w, timeout, rounds);
            r.TimedOut? ==> timeout > 0 && r.world.clock >= ReadClock(host, w).clock + timeout
    ensures rounds > 0 && w.clock >= 0 ==>
              var r := AwaitPromise(host, w, timeout, rounds);
              var q := AwaitPromise(host, w, timeout, rounds - 1);
              r.Waiting? && timeout > 0 && r.world.jobsRun == q.world.jobsRun ==>
                r.world.clock <= ReadClock(host, w).clock + timeout
  {
    hide AwaitLoop, SettledBetween;
    var n := if timeout > 0 then ReadClock(host, w) else w;
    var deadline := if timeout > 0 then n.clock + timeout else 0;
    AwaitExits(host, n, deadline, rounds);
    if rounds > 0 && deadline > 0 { WaitKeepsDeadline(host, n, deadline, rounds); }
  }

  lemma {:induction false} WaitKeepsDeadline(host: Host, w: World, deadline: int, rounds: nat)
    requires rounds > 0 && deadline > 0
    ensures var r := AwaitLoop(host, w, deadline, rounds);
            var q := AwaitLoop(host, w, deadline, rounds - 1);
            r.Waiting? && r.world.jobsRun == q.world.jobsRun ==> r.world.clock <= deadline
    decreases rounds
  {
    hide ProcessTimers, ExecuteJob;
    if w.promise.Pending? {
      var v := ProcessTimers(host, w);
      RoundJobs(host, w);
      if rounds > 1 {
        WaitKeepsDeadline(host, if v.jobs > 0 then ExecuteJob(host, v) else Sleep(ReadClock(host, v), 1), deadline, rounds - 1);
      }
    }
  }

  // ---- the timeout of eval ------------------------------------------------------------

  /** The jobs after a script are interrupted if and only if there is a timeout, and it has
      passed, counted from before the script ran, when a job is done; whatever the script and
      the jobs do, short of a job that throws. */
  lemma InterruptedIff(host: Host, w: World, timeout: int, fuel: nat)
    requires w.clock >= 0 && !Evaluated(host, w, timeout, fuel).Threw?
    ensures var r := Evaluated(host, w, timeout, fuel);
            r.Interrupted? <==> timeout > 0 && r.world.jobsRun > w.jobsRun
                                && r.world.clock >= ReadClock(host, w).clock + timeout
  {
    hide RunPending, Turn;
    var n := Started(host, w, timeout);
    TurnKeepsJobsRun(host, n);
    DeadlineIff(host, Turn(host, n), DeadlineFrom(n, timeout), fuel);
  }

  lemma {:induction false} DeadlineIff(host: Host, w: World, deadline: int, fuel: nat)
    requires !RunPending(host, w, deadline, fuel).Threw?
    ensures var r := RunPending(host, w, deadline, fuel);
            && w.jobsRun <= r.world.jobsRun && (r.world.jobsRun == w.jobsRun ==> r.world == w)
            && (r.Interrupted? <==> deadline > 0 && r.world.jobsRun > w.jobsRun && r.world.clock >= deadline)
    decreases fuel
  {
    hide ExecuteJob;
    if fuel > 0 && w.jobs > 0 {
      var v := ExecuteJob(host, w);
      JobCounts(host, w);
      if deadline <= 0 { DeadlineIff(host, v, deadline, fuel - 1); }
      else if ReadClock(host, v).clock < deadline { DeadlineIff(host, ReadClock(host, v), deadline, fuel - 1); }
    }
  }

  // ---- timers wait for jobs -----------------------------------------------------------

  /** Every pass since `w` began with an empty queue. */
  predicate PassesFoundNoJob(w: World, v: World) {
    && w.backlog <= v.backlog
    && forall k :: |w.backlog| <= k < |v.backlog| ==> v.backlog[k] == 0
  }

  lemma {:induction false} RunKeepsBacklog(host: Host, w: World, ops: seq<Op>)
    ensures Run(host, w, ops).backlog == w.backlog
  {
    if ops != [] { RunKeepsBacklog(host, w, ops[..|ops| - 1]); }
  }

  lemma TurnKeepsBacklog(host: Host, w: World)
    ensures Turn(host, w).backlog == w.backlog
  {
    RunKeepsBacklog(host, w.(turns := w.turns + 1), host.script(w.turns));
  }

  lemma {:induction false} RunJobsKeepsBacklog(host: Host, w: World, fuel: nat)
    ensures RunJobs(host, w, fuel).world.backlog == w.backlog
    ensures RunJobs(host, w, fuel).Returned? ==> RunJobs(host, w, fuel).world.jobs == 0
    decreases fuel
  {
    hide Turn;
    if fuel > 0 && w.jobs > 0 {
      TurnKeepsBacklog(host, w.(jobs := w.jobs - 1, jobsRun := w.jobsRun + 1));
      if !JobThrows(host, w) { RunJobsKeepsBacklog(host, ExecuteJob(host, w), fuel - 1); }
    }
  }

  lemma {:induction false} PassKeepsBacklog(host: Host, w: World, now: int, k: nat)
    requires k <= |w.slots|
    ensures PassTo(host, w, now, k).backlog == w.backlog
  {
    hide Turn;
    if k > 0 {
      var u := PassTo(host, w, now, k - 1);
      PassKeepsBacklog(host, w, now, k - 1);
      TurnKeepsBacklog(host, u.(log := u.log + [Fired(u.slots[k - 1].id, now)]));
    }
  }

  lemma ProcessNotes(host: Host, w: World)
    ensures var v := ProcessTimers(host, w);
            v.backlog == w.backlog + [w.jobs] && |v.samples| == |w.samples| + 1
  {
    hide PassTo;
    var n := Sampled(host, w);
    PassKeepsBacklog(host, n, n.clock, |n.slots|);
    PassTurns(host, n, n.clock, |n.slots|);
  }

  /** In drain_jobs and run_event_loop no timer fires while a job is queued from before: every
      pass begins with an empty queue. */
  lemma TimersWaitForJobs(host: Host, w: World, maxWait: int, fuel: nat)
    ensures PassesFoundNoJob(w, DrainJobs(host, w, fuel, fuel).world)
    ensures PassesFoundNoJob(w, RunEventLoop(host, w, maxWait, fuel).world)
  {
    hide EventRounds, PassesFoundNoJob;
    var n := ReadClock(host, w);
    DrainWaits(host, w, fuel, fuel);
    EventRoundsWait(host, n, n.clock, maxWait, fuel, fuel);
    assert PassesFoundNoJob(w, RunEventLoop(host, w, maxWait, fuel).world) by { SameBacklog(w, n, RunEventLoop(host, w, maxWait, fuel).world); }
  }

  lemma SameBacklog(w: World, n: World, v: World)
    requires n.backlog == w.backlog && PassesFoundNoJob(n, v)
    ensures PassesFoundNoJob(w, v)
  {
  }

  lemma {:induction false} DrainWaits(host: Host, w: World, fuel: nat, rounds: nat)
    ensures PassesFoundNoJob(w, DrainJobs(host, w, fuel, rounds).world)
    decreases rounds
  {
    hide RunJobs, ProcessTimers;
    if rounds > 0 {
      var j := RunJobs(host, w, fuel);
      RunJobsKeepsBacklog(host, w, fuel);
      ProcessNotes(host, j.world);
      DrainWaits(host, ProcessTimers(host, j.world), fuel, rounds - 1);
    }
  }

  lemma {:induction false} EventRoundsWait(host: Host, w: World, start: int, maxWait: int, fuel: nat, rounds: nat)
    ensures PassesFoundNoJob(w, EventRounds(host, w, start, maxWait, fuel, rounds).world)
    decreases rounds
  {
    hide RunJobs, ProcessTimers, HasActive;
    if rounds > 0 {
      var j := RunJobs(host, w, fuel);
      RunJobsKeepsBacklog(host, w, fuel);
      ProcessNotes(host, j.world);
      var v := ProcessTimers(host, j.world);
      var u := if maxWait > 0 then ReadClock(host, v) else v;
      EventRoundsWait(host, if v.turns == w.turns then Sleep(u, 1) else u, start, maxWait, fuel, rounds - 1);
    }
  }

  // ---- the round that did nothing -----------------------------------------------------

  /** When drain_jobs returns, and run_event_loop without a limit, a whole round did nothing: if
      any job or callback ran at all, there was another pass after it. */
  lemma ReturnsAfterIdleRound(host: Host, w: World, maxWait: int, fuel: nat)
    requires maxWait <= 0
    ensures var r := DrainJobs(host, w, fuel, fuel);
            r.Returned? ==> (|r.world.samples| == |w.samples| + 1 <==> r.world.turns == w.turns)
    ensures var r := RunEventLoop(host, w, maxWait, fuel);
            r.Returned? && r.world.turns != w.turns ==> |r.world.samples| > |w.samples| + 1
  {
    hide EventRounds;
    var n := ReadClock(host, w);
    DrainPasses(host, w, fuel, fuel);
    EventRoundsPass(host, n, n.clock, maxWait, fuel, fuel);
  }

  lemma {:induction false} RunJobsKeepsSamples(host: Host, w: World, fuel: nat)
    ensures RunJobs(host, w, fuel).world.samples == w.samples
    decreases fuel
  {
    hide Turn;
    if fuel > 0 && w.jobs > 0 {
      TurnEffect(host, w.(jobs := w.jobs - 1, jobsRun := w.jobsRun + 1));
      if !JobThrows(host, w) { RunJobsKeepsSamples(host, ExecuteJob(host, w), fuel - 1); }
    }
  }

  lemma {:induction false} DrainPasses(host: Host, w: World, fuel: nat, rounds: nat)
    ensures var r := DrainJobs(host, w, fuel, rounds);
            && w.turns <= r.world.turns
            && (r.Returned? ==>
                  && |w.samples| < |r.world.samples|
                  && (|r.world.samples| == |w.samples| + 1 <==> r.world.turns == w.turns))
    decreases rounds
  {
    hide RunJobs, ProcessTimers;
    if rounds > 0 {
      var j := RunJobs(host, w, fuel).world;
      RunJobsCounts(host, w, fuel);
      RunJobsKeepsSamples(host, w, fuel);
      PassCounts(host, j);
      ProcessNotes(host, j);
      DrainPasses(host, ProcessTimers(host, j), fuel, rounds - 1);
    }
  }

  lemma {:induction false} EventRoundsPass(host: Host, w: World, start: int, maxWait: int, fuel: nat, rounds: nat)
    requires maxWait <= 0
    ensures var r := EventRounds(host, w, start, maxWait, fuel, rounds);
            && w.turns <= r.world.turns
            && (r.Returned? ==>
                  && |w.samples| < |r.world.samples|
                  && (r.world.turns != w.turns ==> |r.world.samples| > |w.samples| + 1))
    decreases rounds
  {
    hide RunJobs, ProcessTimers;
    if rounds > 0 {
      var j := RunJobs(host, w, fuel).world;
      RunJobsCounts(host, w, fuel);
      RunJobsKeepsSamples(host, w, fuel);
      PassCounts(host, j);
      ProcessNotes(host, j);
      var v := ProcessTimers(host, j);
      EventRoundsPass(host, if v.turns == w.turns then Sleep(v, 1) else v, start, maxWait, fuel, rounds - 1);
    }
  }

  // ---- when the loops sleep -----------------------------------------------------------

  lemma {:induction false} FrozenRun(host: Host, w: World, ops: seq<Op>)
    requires Frozen(host)
    ensures Run(host, w, ops).clock == w.clock
  {
    if ops != [] { FrozenRun(host, w, ops[..|ops| - 1]); }
  }

  lemma FrozenTurn(host: Host, w: World)
    requires Frozen(host)
    ensures Turn(host, w).clock == w.clock
  {
    FrozenRun(host, w.(turns := w.turns + 1), host.script(w.turns));
  }

  lemma {:induction false} FrozenJobs(host: Host, w: World, fuel: nat)
    requires Frozen(host)
    ensures RunJobs(host, w, fuel).world.clock == w.clock
    decreases fuel
  {
    hide Turn, Frozen;
    if fuel > 0 && w.jobs > 0 {
      FrozenTurn(host, w.(jobs := w.jobs - 1, jobsRun := w.jobsRun + 1));
      if !JobThrows(host, w) { FrozenJobs(host, ExecuteJob(host, w), fuel - 1); }
    }
  }

  lemma {:induction false} FrozenPass(host: Host, w: World, now: int, k: nat)
    requires Frozen(host) && k <= |w.slots|
    ensures PassTo(host, w, now, k).clock == w.clock
  {
    hide Turn, Frozen;
    if k > 0 {
      var u := PassTo(host, w, now, k - 1);
      FrozenPass(host, w, now, k - 1);
      FrozenTurn(host, u.(log := u.log + [Fired(u.slots[k - 1].id, now)]));
    }
  }

  lemma FrozenProcess(host: Host, w: World)
    requires Frozen(host)
    ensures ProcessTimers(host, w).clock == ReadClock(host, w).clock == w.clock
  {
    hide PassTo;
    var n := Sampled(host, w);
    FrozenPass(host, n, n.clock, |n.slots|);
  }

  /** run_event_loop sleeps a millisecond after each round that did nothing, and after no other:
      at a clock that only sleeping moves, it moves by at most one in a round, by one in every
      round that called no JavaScript, and by one in all of them only if none did. */
  lemma {:induction false} SleepsOnlyWhenIdle(host: Host, w: World, start: int, maxWait: int, fuel: nat, rounds: nat)
    requires Frozen(host) && EventRounds(host, w, start, maxWait, fuel, rounds).Running?
    requires EventRounds(host, w, start, maxWait, fuel, rounds).world.jobsRun < w.jobsRun + fuel
    ensures var v := EventRounds(host, w, start, maxWait, fuel, rounds).world;
            && rounds - (v.turns - w.turns) <= v.clock - w.clock <= rounds
            && (v.clock - w.clock == rounds <==> v.turns == w.turns)
    decreases rounds
  {
    hide RunJobs, ProcessTimers, HasActive, Frozen;
    if rounds > 0 {
      var j := RunJobs(host, w, fuel).world;
      RunJobsCounts(host, w, fuel);
      FrozenJobs(host, w, fuel);
      PassCounts(host, j);
      FrozenProcess(host, j);
      var v := ProcessTimers(host, j);
      FrozenLook(host, v);
      var u := if maxWait > 0 then ReadClock(host, v) else v;
      var x := if v.turns == w.turns then Sleep(u, 1) else u;
      SleepsOnlyWhenIdle(host, x, start, maxWait, fuel, rounds - 1);
      EventRoundsCount(host, x, start, maxWait, fuel, rounds - 1);
    }
  }

  lemma FrozenLook(host: Host, w: World)
    requires Frozen(host)
    ensures ReadClock(host, w).clock == w.clock
  {
  }

  /** The rounds of a wait: one pass in each, one job if there is one, and a millisecond of sleep
      if there is none. */
  lemma {:induction false} RoundsOfAWait(host: Host, w: World, deadline: int, rounds: nat)
    requires AwaitLoop(host, w, deadline, rounds).Waiting?
    ensures var v := AwaitLoop(host, w, deadline, rounds).world;
            && |v.samples| == |w.samples| + rounds
            && w.jobsRun <= v.jobsRun <= w.jobsRun + rounds
            && (rounds > 0 && w.jobs > 0 ==> v.jobsRun > w.jobsRun)
            && (Frozen(host) ==> v.clock == w.clock + rounds - (v.jobsRun - w.jobsRun))
    decreases rounds
  {
    hide ProcessTimers, Frozen, Turn;
    if rounds > 0 {
      var v := ProcessTimers(host, w);
      ProcessNotes(host, w);
      ProcessKeepsJobs(host, w);
      PassCounts(host, w);
      if Frozen(host) { FrozenProcess(host, w); FrozenLook(host, v); }
      if v.jobs > 0 {
        var c := v.(jobs := v.jobs - 1, jobsRun := v.jobsRun + 1);
        JobCounts(host, v);
        TurnEffect(host, c);
        if Frozen(host) { FrozenTurn(host, c); }
        RoundsOfAWait(host, ExecuteJob(host, v), deadline, rounds - 1);
      } else {
        RoundsOfAWait(host, Sleep(if deadline > 0 then ReadClock(host, v) else v, 1), deadline, rounds - 1);
      }
    }
  }
}
