/** run_pending_jobs: the job loop of eval, which checks a deadline after every job. */
module PendingJobs {
  import opened TimerHistory
  import opened TimerTable
  import opened Passes
  import opened EventLoop
  import Await

  datatype PendingEnd =
    | Emptied(world: World)        // 0
    | Interrupted(world: World)    // -1: the deadline had passed after a job
    | Threw(world: World)          // -1: a job threw
    | Unfinished(world: World)     // `fuel` jobs have run

  function RunPending(host: Host, w: World, deadline: int, fuel: nat): PendingEnd
    decreases fuel
  {
    if fuel == 0 then Unfinished(w)
    else if w.jobs == 0 then Emptied(w)
    else if JobThrows(host, w) then Threw(ExecuteJob(host, w))
    else
      var v := ExecuteJob(host, w);
      if deadline <= 0 then RunPending(host, v, deadline, fuel - 1)
      else
        var u := ReadClock(host, v);
        if u.clock >= deadline then Interrupted(u) else RunPending(host, u, deadline, fuel - 1)
  }

  /** A call that gets as far as running JavaScript: the clock is read for a deadline only if
      there is a timeout. */
  function Started(host: Host, w: World, timeout: int): World {
    if timeout > 0 then ReadClock(host, w) else w
  }

  function DeadlineFrom(n: World, timeout: int): int {
    if timeout > 0 then n.clock + timeout else 0
  }

  /** The turn of the script itself. */
  function Scripted(host: Host, w: World, timeout: int): World {
    Turn(host, Started(host, w, timeout))
  }

  /** If the script did not throw, the jobs run after it, under the deadline. */
  function Evaluated(host: Host, w: World, timeout: int, fuel: nat): PendingEnd {
    RunPending(host, Scripted(host, w, timeout), DeadlineFrom(Started(host, w, timeout), timeout), fuel)
  }

  lemma {:induction false} PendingKeeps(host: Host, P: World -> bool, w: World, deadline: int, fuel: nat)
    requires StepsKeep(host, P) && P(w)
    ensures P(RunPending(host, w, deadline, fuel).world)
    decreases fuel
  {
    hide StepsKeep, ExecuteJob, ReadClock;
    if fuel > 0 && w.jobs > 0 {
      var v := ExecuteJob(host, w);
      StepKept(host, P, w);
      StepKept(host, P, v);
      if !JobThrows(host, w) {
        if deadline <= 0 { PendingKeeps(host, P, v, deadline, fuel - 1); }
        else if ReadClock(host, v).clock < deadline {
          PendingKeeps(host, P, ReadClock(host, v), deadline, fuel - 1);
        }
      }
    }
  }

  lemma ExecuteJobEffect(host: Host, w: World)
    requires w.jobs > 0
    ensures ExecuteJob(host, w).jobsRun == w.jobsRun + 1 && w.clock <= ExecuteJob(host, w).clock
    ensures ExecuteJob(host, w).turns == w.turns + 1
  {
    hide Turn;
    var c := w.(jobs := w.jobs - 1, jobsRun := w.jobsRun + 1);
    Await.TurnKeepsJobsRun(host, c);
    TurnEffect(host, c);
  }

  /** What each result means: 0 is returned only with an empty queue, and an interruption only
      with a deadline that the clock has reached; without a deadline there is none. */
  lemma {:induction false} PendingExits(host: Host, w: World, deadline: int, fuel: nat)
    ensures var r := RunPending(host, w, deadline, fuel);
            && (r.Emptied? ==> r.world.jobs == 0)
            && (r.Interrupted? ==> 0 < deadline <= r.world.clock && r.world.jobsRun > w.jobsRun)
            && (r.Threw? ==> r.world.jobsRun > 0 && host.jobThrows(r.world.jobsRun - 1))
            && w.jobsRun <= r.world.jobsRun <= w.jobsRun + fuel
            && (r.Unfinished? && fuel > 0 && deadline > 0 ==> r.world.clock < deadline)
            && (r.Unfinished? ==> r.world.jobsRun == w.jobsRun + fuel)
    decreases fuel
  {
    hide ExecuteJob;
    if fuel > 0 && w.jobs > 0 {
      var v := ExecuteJob(host, w);
      ExecuteJobEffect(host, w);
      if !JobThrows(host, w) {
        if deadline <= 0 { PendingExits(host, v, deadline, fuel - 1); }
        else if ReadClock(host, v).clock < deadline {
          PendingExits(host, ReadClock(host, v), deadline, fuel - 1);
        }
      }
    }
  }

  /** Once the deadline has passed, at most one more job is started. */
  lemma NoJobAfterDeadline(host: Host, w: World, deadline: int, fuel: nat)
    requires 0 < deadline <= w.clock
    ensures RunPending(host, w, deadline, fuel).world.jobsRun <= w.jobsRun + 1
    ensures fuel > 1 ==> !RunPending(host, w, deadline, fuel).Unfinished?
  {
    hide ExecuteJob;
    if w.jobs > 0 { ExecuteJobEffect(host, w); }
  }
}
