/** The await loops of native_await_promise and native_eval_async, which are the same loop:
    one pass, at most one job, and a sleep when there was none. */
module Await {
  import opened TimerHistory
  import opened Options
  import opened TimerTable
  import opened Intervals
  import opened Passes
  import opened EventLoop
  import Ownership

  datatype End =
    | Settled(world: World)
    | JobFailed(world: World)
    | TimedOut(world: World)
    | Waiting(world: World)     // the body has run `rounds` times without leaving the loop

  function AwaitLoop(host: Host, w: World, deadline: int, rounds: nat): End
    decreases rounds
  {
    if !w.promise.Pending? then Settled(w)
    else if rounds == 0 then Waiting(w)
    else
      var v := ProcessTimers(host, w);
      if JobThrows(host, v) then JobFailed(ExecuteJob(host, v))
      else if v.jobs > 0 then AwaitLoop(host, ExecuteJob(host, v), deadline, rounds - 1)
      else
        var u := if deadline > 0 then ReadClock(host, v) else v;
        if deadline > 0 && u.clock >= deadline then TimedOut(u)
        else AwaitLoop(host, Sleep(u, 1), deadline, rounds - 1)
  }

  /** The deadline is taken from the clock when the wait begins. */
  function AwaitPromise(host: Host, w: World, timeout: int, rounds: nat): End {
    if timeout > 0 then
      var n := ReadClock(host, w);
      AwaitLoop(host, n, n.clock + timeout, rounds)
    else
      AwaitLoop(host, w, 0, rounds)
  }

  lemma {:induction false} AwaitKeeps(host: Host, P: World -> bool, w: World, deadline: int, rounds: nat)
    requires StepsKeep(host, P) && P(w)
    ensures P(AwaitLoop(host, w, deadline, rounds).world)
    decreases rounds
  {
    hide StepsKeep, ProcessTimers, ExecuteJob, ReadClock, Sleep;
    if w.promise.Pending? && rounds > 0 {
      var v := ProcessTimers(host, w);
      StepKept(host, P, w);
      StepKept(host, P, v);
      var u := if deadline > 0 then ReadClock(host, v) else v;
      StepKept(host, P, u);
      if !JobThrows(host, v) && v.jobs > 0 {
        AwaitKeeps(host, P, ExecuteJob(host, v), deadline, rounds - 1);
      } else if !JobThrows(host, v) && !(deadline > 0 && u.clock >= deadline) {
        AwaitKeeps(host, P, Sleep(u, 1), deadline, rounds - 1);
      }
    }
  }

  // ---- how many rounds ----------------------------------------------------------------

  lemma {:induction false} RunKeepsJobsRun(host: Host, w: World, ops: seq<Op>)
    ensures Run(host, w, ops).jobsRun == w.jobsRun
  {
    if ops != [] { RunKeepsJobsRun(host, w, ops[..|ops| - 1]); }
  }

  lemma TurnKeepsJobsRun(host: Host, w: World)
    ensures Turn(host, w).jobsRun == w.jobsRun
  {
    RunKeepsJobsRun(host, w.(turns := w.turns + 1), host.script(w.turns));
  }

  lemma {:induction false} PassKeepsJobsRun(host: Host, w: World, now: int, k: nat)
    requires k <= |w.slots|
    ensures PassTo(host, w, now, k).jobsRun == w.jobsRun
  {
    hide Turn;
    if k > 0 {
      var u := PassTo(host, w, now, k - 1);
      PassKeepsJobsRun(host, w, now, k - 1);
      if Due(u.slots[k - 1], now) {
        TurnKeepsJobsRun(host, u.(log := u.log + [Fired(u.slots[k - 1].id, now)]));
      }
    }
  }

  /** What a round costs: a pass runs no job, and an executed job counts. */
  lemma RoundJobs(host: Host, w: World)
    ensures var v := ProcessTimers(host, w);
            && v.jobsRun == w.jobsRun && w.clock <= v.clock
            && (v.jobs > 0 ==> ExecuteJob(host, v).jobsRun == w.jobsRun + 1)
            && ExecuteJob(host, v).clock >= v.clock
  {
    hide Turn, PassTo;
    var n := Sampled(host, w);
    PassKeepsJobsRun(host, n, n.clock, |n.slots|);
    PassTurns(host, n, n.clock, |n.slots|);
    var v := ProcessTimers(host, w);
    if v.jobs > 0 {
      var c := v.(jobs := v.jobs - 1, jobsRun := v.jobsRun + 1);
      TurnKeepsJobsRun(host, c);
      TurnEffect(host, c);
    }
  }

  /** Every round that stays in the loop has run a job or slept short of the deadline. */
  lemma {:induction false} RoundsAreBounded(host: Host, w: World, deadline: int, rounds: nat)
    requires deadline > 0 && AwaitLoop(host, w, deadline, rounds).Waiting?
    ensures var v := AwaitLoop(host, w, deadline, rounds).world;
            rounds <= v.jobsRun - w.jobsRun + Max(0, deadline - w.clock)
    decreases rounds
  {
    hide ProcessTimers, ExecuteJob;
    if rounds > 0 {
      var v := ProcessTimers(host, w);
      RoundJobs(host, w);
      if v.jobs > 0 {
        RoundsAreBounded(host, ExecuteJob(host, v), deadline, rounds - 1);
      } else {
        RoundsAreBounded(host, Sleep(ReadClock(host, v), 1), deadline, rounds - 1);
      }
    }
  }

  /** With a positive timeout, and at most `jobs` jobs executed however long it waits, the
      loop is left within jobs + timeout + 1 rounds. */
  lemma AwaitEnds(host: Host, w: World, timeout: int, jobs: nat)
    requires timeout > 0 && w.clock >= 0
    requires forall n: nat :: AwaitPromise(host, w, timeout, n).world.jobsRun <= w.jobsRun + jobs
    ensures !AwaitPromise(host, w, timeout, jobs + timeout + 1).Waiting?
  {
    hide AwaitLoop;
    var n := ReadClock(host, w);
    var rounds := jobs + timeout + 1;
    var r := AwaitPromise(host, w, timeout, rounds);
    if r.Waiting? {
      RoundsAreBounded(host, n, n.clock + timeout, rounds);
    }
  }

  // ---- how it is left -----------------------------------------------------------------

  predicate SettlesPromise(s: seq<Op>) { exists op :: op in s && op.Settle? }

  /** Some turn from the `a`-th up to the `b`-th settles the promise. */
  ghost predicate SettledBetween(host: Host, a: nat, b: nat) {
    exists n :: a <= n < b && SettlesPromise(host.script(n))
  }

  lemma {:induction false} RunSettles(host: Host, w: World, ops: seq<Op>)
    ensures Run(host, w, ops).promise.Pending? <==>
              w.promise.Pending? && forall op :: op in ops ==> !op.Settle?
  {
    hide Schedule, Cancel;
    if ops != [] {
      var n := |ops| - 1;
      RunSettles(host, w, ops[..n]);
      StepSettles(host, Run(host, w, ops[..n]), ops[n]);
      assert ops == ops[..n] + [ops[n]];
    }
  }

  lemma StepSettles(host: Host, w: World, op: Op)
    ensures Step(host, w, op).promise.Pending? <==> w.promise.Pending? && !op.Settle?
  {
  }

  lemma TurnSettles(host: Host, w: World)
    ensures Turn(host, w).promise.Pending? <==>
              w.promise.Pending? && !SettledBetween(host, w.turns, w.turns + 1)
    ensures Turn(host, w).turns == w.turns + 1
  {
    hide Run;
    RunSettles(host, w.(turns := w.turns + 1), host.script(w.turns));
    TurnEffect(host, w);
    assert SettlesPromise(host.script(w.turns)) ==> SettledBetween(host, w.turns, w.turns + 1);
  }

  lemma SettledAppend(host: Host, a: nat, b: nat, c: nat)
    requires a <= b <= c
    ensures SettledBetween(host, a, c) <==> SettledBetween(host, a, b) || SettledBetween(host, b, c)
  {
    hide SettlesPromise;
  }

  lemma {:induction false} PassSettles(host: Host, w: World, now: int, k: nat)
    requires k <= |w.slots|
    ensures var v := PassTo(host, w, now, k);
            && w.turns <= v.turns
            && (v.promise.Pending? <==> w.promise.Pending? && !SettledBetween(host, w.turns, v.turns))
  {
    hide Turn, SettledBetween;
    if k == 0 {
      NoTurnNoSettling(host, w.turns);
    } else {
      var u := PassTo(host, w, now, k - 1);
      PassSettles(host, w, now, k - 1);
      if Due(u.slots[k - 1], now) {
        var c := u.(log := u.log + [Fired(u.slots[k - 1].id, now)]);
        TurnSettles(host, c);
        SettledAppend(host, w.turns, u.turns, u.turns + 1);
      }
    }
  }

  lemma NoTurnNoSettling(host: Host, a: nat)
    ensures !SettledBetween(host, a, a)
  {
  }

  lemma ProcessSettles(host: Host, w: World)
    ensures var v := ProcessTimers(host, w);
            && w.turns <= v.turns
            && (v.promise.Pending? <==> w.promise.Pending? && !SettledBetween(host, w.turns, v.turns))
  {
    hide PassTo, SettledBetween;
    var n := Sampled(host, w);
    PassSettles(host, n, n.clock, |n.slots|);
  }

  lemma JobSettles(host: Host, w: World)
    requires w.jobs > 0
    ensures var v := ExecuteJob(host, w);
            && w.turns <= v.turns
            && (v.promise.Pending? <==> w.promise.Pending? && !SettledBetween(host, w.turns, v.turns))
  {
    hide Turn, SettledBetween;
    TurnSettles(host, w.(jobs := w.jobs - 1, jobsRun := w.jobsRun + 1));
  }

  /** The ways out of a wait that began at `w`: a settled promise, a job that threw, or an empty
      queue with the clock at or past the deadline. In each of them the promise is still
      pending exactly if no turn of the wait settled it, so a timeout need not mean that it is. */
  ghost predicate LeftWell(host: Host, w: World, deadline: int, r: End) {
    && w.turns <= r.world.turns
    && (r.Settled? ==> !r.world.promise.Pending?)
    && (r.Waiting? ==> r.world.promise.Pending?)
    && (r.JobFailed? ==> r.world.jobsRun > 0 && host.jobThrows(r.world.jobsRun - 1))
    && (r.TimedOut? ==> deadline > 0 && r.world.jobs == 0 && r.world.clock >= deadline)
    && (r.world.promise.Pending? <==> !SettledBetween(host, w.turns, r.world.turns))
  }

  lemma {:induction false} AwaitExits(host: Host, w: World, deadline: int, rounds: nat)
    requires w.promise.Pending?
    ensures LeftWell(host, w, deadline, AwaitLoop(host, w, deadline, rounds))
    decreases rounds, 0
  {
    hide ProcessTimers, SettledBetween, Turn;
    NoTurnNoSettling(host, w.turns);
    if rounds > 0 {
      var v := ProcessTimers(host, w);
      ProcessSettles(host, w);
      RoundJobs(host, w);
      if v.jobs > 0 {
        var x := ExecuteJob(host, v);
        JobSettles(host, v);
        SettledAppend(host, w.turns, v.turns, x.turns);
        if !JobThrows(host, v) { ExitsFrom(host, w, x, deadline, rounds - 1); }
      } else {
        var u := if deadline > 0 then ReadClock(host, v) else v;
        if !(deadline > 0 && u.clock >= deadline) { ExitsFrom(host, w, Sleep(u, 1), deadline, rounds - 1); }
      }
    }
  }

  /** The rest of the wait, told from its start. */
  lemma {:induction false} ExitsFrom(host: Host, w: World, x: World, deadline: int, rounds: nat)
    requires w.promise.Pending? && w.turns <= x.turns
    requires x.promise.Pending? <==> !SettledBetween(host, w.turns, x.turns)
    ensures LeftWell(host, w, deadline, AwaitLoop(host, x, deadline, rounds))
    decreases rounds, 1
  {
    hide SettledBetween;
    if x.promise.Pending? {
      AwaitExits(host, x, deadline, rounds);
      SettledAppend(host, w.turns, x.turns, AwaitLoop(host, x, deadline, rounds).world.turns);
    }
  }

  // ---- a settled promise that times out -----------------------------------------------

  /** The loop looks at the promise only before the pass. A round that begins with a pending
      promise reports a timeout for a settled one exactly when a timer callback of its pass
      settles the promise without queueing a job, and the deadline has passed. */
  lemma TimeoutOfSettled(host: Host, w: World, deadline: int)
    requires w.promise.Pending? && deadline > 0
    ensures var r := AwaitLoop(host, w, deadline, 1);
            var v := ProcessTimers(host, w);
            (r.TimedOut? && !r.world.promise.Pending?)
            <==> (SettledBetween(host, w.turns, v.turns) && v.jobs == 0
                  && ReadClock(host, v).clock >= deadline)
  {
    hide SettledBetween, ProcessTimers, ExecuteJob;
    ProcessSettles(host, w);
  }

  /** Where the loop comes to stand after one more round, and after `k`, if it stays. */
  function NextHead(host: Host, w: World, deadline: int): World {
    var v := ProcessTimers(host, w);
    if v.jobs > 0 then ExecuteJob(host, v)
    else Sleep(if deadline > 0 then ReadClock(host, v) else v, 1)
  }

  function Head(host: Host, w: World, deadline: int, k: nat): World
    decreases k
  {
    if k == 0 then w else Head(host, NextHead(host, w, deadline), deadline, k - 1)
  }

  /** Every timeout is that of some last round, which the wait reached and which began with the
      promise pending. */
  lemma {:induction false} LastRound(host: Host, w: World, deadline: int, rounds: nat) returns (k: nat)
    requires AwaitLoop(host, w, deadline, rounds).TimedOut?
    ensures k < rounds && deadline > 0 && Head(host, w, deadline, k).promise.Pending?
    ensures AwaitLoop(host, Head(host, w, deadline, k), deadline, 1) == AwaitLoop(host, w, deadline, rounds)
    decreases rounds
  {
    hide ProcessTimers, ExecuteJob;
    var v := ProcessTimers(host, w);
    var u := if deadline > 0 then ReadClock(host, v) else v;
    if v.jobs == 0 && deadline > 0 && u.clock >= deadline {
      k := 0;
    } else {
      var n := LastRound(host, NextHead(host, w, deadline), deadline, rounds - 1);
      k := n + 1;
    }
  }

  // ---- settling that queues a job ------------------------------------------------------

  /** Settling a promise that somebody waits on queues the job that tells them. */
  ghost predicate SettlingQueuesAJob(host: Host) {
    forall n :: SettlesPromise(host.script(n)) ==> EnqueueJob in host.script(n)
  }

  lemma {:induction false} RunQueues(host: Host, w: World, ops: seq<Op>)
    ensures w.jobs <= Run(host, w, ops).jobs
    ensures Run(host, w, ops).jobs > w.jobs <==> EnqueueJob in ops
  {
    hide Schedule, Cancel;
    if ops != [] {
      var n := |ops| - 1;
      RunQueues(host, w, ops[..n]);
      StepQueues(host, Run(host, w, ops[..n]), ops[n]);
      assert ops == ops[..n] + [ops[n]];
    }
  }

  lemma StepQueues(host: Host, w: World, op: Op)
    ensures Step(host, w, op).jobs == w.jobs + if op == EnqueueJob then 1 else 0
  {
  }

  lemma VisitQueues(host: Host, w: World, i: nat, now: int)
    requires i < |w.slots|
    ensures var v := Visit(host, w, i, now);
            && w.jobs <= v.jobs
            && (SettlingQueuesAJob(host) && w.promise.Pending? && !v.promise.Pending? ==> v.jobs > 0)
            && (EnqueueJob !in host.script(w.turns) ==> v.jobs == w.jobs)
  {
    hide Run, SettlingQueuesAJob;
    if Due(w.slots[i], now) {
      var c := w.(log := w.log + [Fired(w.slots[i].id, now)], turns := w.turns + 1);
      RunQueues(host, c, host.script(w.turns));
      RunSettles(host, c, host.script(w.turns));
      if SettlingQueuesAJob(host) { QueuedIfSettled(host, w.turns); }
    }
  }

  /** Where settling queues a job, a pass that settles leaves one. */
  lemma {:induction false} PassQueues(host: Host, w: World, now: int, k: nat)
    requires SettlingQueuesAJob(host) && k <= |w.slots|
    ensures var v := PassTo(host, w, now, k);
            w.jobs <= v.jobs && (w.promise.Pending? && !v.promise.Pending? ==> v.jobs > 0)
  {
    hide Visit, SettlingQueuesAJob;
    if k > 0 {
      PassQueues(host, w, now, k - 1);
      VisitQueues(host, PassTo(host, w, now, k - 1), k - 1, now);
    }
  }

  lemma QueuedIfSettled(host: Host, n: nat)
    requires SettlingQueuesAJob(host)
    ensures (exists op :: op in host.script(n) && op.Settle?) ==> EnqueueJob in host.script(n)
  {
    assert SettlesPromise(host.script(n)) <==> exists op :: op in host.script(n) && op.Settle?;
  }

  lemma {:induction false} HonestWhenQueued(host: Host, w: World, deadline: int, rounds: nat)
    requires SettlingQueuesAJob(host) && AwaitLoop(host, w, deadline, rounds).TimedOut?
    ensures AwaitLoop(host, w, deadline, rounds).world.promise.Pending?
  {
    hide SettlingQueuesAJob, PassTo;
    var k := LastRound(host, w, deadline, rounds);
    var x := Head(host, w, deadline, k);
    var n := Sampled(host, x);
    PassQueues(host, n, n.clock, |n.slots|);
  }

  // ---- a wait that does so ------------------------------------------------------------

  /** If only the first slot is active after it was visited, the rest of the pass is idle. */
  lemma {:induction false} RestIsIdle(host: Host, w: World, now: int, k: nat)
    requires 1 <= k <= |w.slots|
    requires forall j :: 1 <= j < |w.slots| ==> !Visit(host, w, 0, now).slots[j].active
    ensures PassTo(host, w, now, k) == Visit(host, w, 0, now)
  {
    hide Visit;
    if k > 1 {
      RestIsIdle(host, w, now, k - 1);
      VisitTurns(host, PassTo(host, w, now, k - 1), k - 1, now);
    } else {
      assert PassTo(host, w, now, 0) == w;
    }
  }

  /** Every callback resolves the promise, and each look at the clock takes a millisecond. */
  const RESOLVER := Host(_ => [Settle(false)], _ => false, _ => 1)

  /** `new Promise(resolve => setTimeout(resolve, 1))`, awaited for one millisecond: the
      promise is fulfilled in the round that reports the timeout. */
  lemma FulfilledYetTimedOut()
    ensures var w := Schedule(RESOLVER, Fresh(0), Function(7), 1, false);
            var r := AwaitPromise(RESOLVER, w, 1, 1);
            r.TimedOut? && r.world.promise.Fulfilled?
  {
    var empty := Fresh(0);
    FirstFreeIs(empty.slots, 0);
    var w := Schedule(RESOLVER, empty, Function(7), 1, false);
    assert w.slots[0] == Timer(0, Function(7), 1, false, 2, true);
    var n := ReadClock(RESOLVER, w);
    var p := Sampled(RESOLVER, n);
    assert p.clock == 3;
    var c := p.(log := p.log + [Fired(0, 3)]);
    var ops := [Settle(false)];
    assert ops[..0] == [];
    assert Run(RESOLVER, c.(turns := 1), ops) == Step(RESOLVER, Run(RESOLVER, c.(turns := 1), []), Settle(false));
    assert Turn(RESOLVER, c) == c.(turns := 1, promise := Fulfilled);
    var v := Visit(RESOLVER, p, 0, 3);
    RestIsIdle(RESOLVER, p, 3, |p.slots|);
    assert ProcessTimers(RESOLVER, n) == v;
    assert v.promise.Fulfilled? && v.jobs == 0 && v.clock == 3;
  }
}
