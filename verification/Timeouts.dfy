/** Which JavaScript can make a wait time out on a settled promise: exactly the JavaScript that
    can settle the promise in a turn that queues no job. */
module Timeouts {
  import opened TimerHistory
  import opened Options
  import opened TimerTable
  import opened Passes
  import opened EventLoop
  import opened Await
  import opened Runs

  /** What a wait reports that begins after a run: the script that makes the promise, then the
      loop. It is the run's next action. */
  function Waited(host: Host, clock: int, before: seq<Action>, timeout: int, rounds: nat): (r: End)
    ensures r.world == Execute(host, Fresh(clock), before + [Wait(timeout, rounds)])
  {
    hide Turn, AwaitLoop;
    var w := Execute(host, Fresh(clock), before);
    assert (before + [Wait(timeout, rounds)])[..|before|] == before;
    AwaitPromise(host, Turn(host, w.(promise := Pending)), timeout, rounds)
  }

  /** Every turn of JavaScript is one of `scripts`. */
  ghost predicate Draws(host: Host, scripts: iset<seq<Op>>) {
    forall n :: host.script(n) in scripts
  }

  /** In any run whose JavaScript is drawn from `scripts`, with any clock and any jobs that
      throw: a wait that times out leaves the promise pending. */
  ghost predicate TimeoutsAreHonest(scripts: iset<seq<Op>>) {
    forall host, clock, before, timeout, rounds ::
      Draws(host, scripts) && Waited(host, clock, before, timeout, rounds).TimedOut? ==>
        Waited(host, clock, before, timeout, rounds).world.promise.Pending?
  }

  /** Doing nothing, and setTimeout(f, 1). */
  const IDLE: seq<Op> := []
  const TIMEOUT: seq<Op> := [SetTimer(Function(7), 1, false)]

  /** Exactly which JavaScript can be waited on: of scripts that can at least do nothing and set
      a timer, no wait that a run can reach times out on a settled promise if and only if every
      one of them that settles the promise queues a job. */
  lemma TimeoutsHonestIff(scripts: iset<seq<Op>>)
    requires IDLE in scripts && TIMEOUT in scripts
    ensures TimeoutsAreHonest(scripts) <==>
              forall s :: s in scripts && SettlesPromise(s) ==> EnqueueJob in s
  {
    hide Waited, SettlesPromise;
    if s :| s in scripts && SettlesPromise(s) && EnqueueJob !in s {
      var h := Misleading(s);
      DishonestWait(s);
      assert Draws(h, scripts);
      assert !TimeoutsAreHonest(scripts);
    } else {
      forall host, clock, before, timeout, rounds
        | Draws(host, scripts) && Waited(host, clock, before, timeout, rounds).TimedOut?
        ensures Waited(host, clock, before, timeout, rounds).world.promise.Pending?
      {
        HonestWait(host, clock, before, timeout, rounds);
      }
    }
  }

  lemma HonestWait(host: Host, clock: int, before: seq<Action>, timeout: int, rounds: nat)
    requires SettlingQueuesAJob(host) && Waited(host, clock, before, timeout, rounds).TimedOut?
    ensures Waited(host, clock, before, timeout, rounds).world.promise.Pending?
  {
    hide SettlingQueuesAJob, Execute, AwaitLoop, Turn;
    var v := Turn(host, Execute(host, Fresh(clock), before).(promise := Pending));
    var n := ReadClock(host, v);
    if timeout > 0 { HonestWhenQueued(host, n, n.clock + timeout, rounds); }
    else { HonestWhenQueued(host, v, 0, rounds); }
  }

  // ---- a wait that is misled ----------------------------------------------------------

  /** The script sets a timer of 1 ms, whose callback is `s`; each look at the clock takes 1 ms. */
  function Misleading(s: seq<Op>): Host {
    Host(n => if n == 0 then TIMEOUT else if n == 1 then s else IDLE, _ => false, _ => 1)
  }

  /** Waiting for 1 ms on a promise that `s` settles. */
  lemma DishonestWait(s: seq<Op>)
    requires SettlesPromise(s) && EnqueueJob !in s
    ensures var r := Waited(Misleading(s), 0, [], 1, 1);
            r.TimedOut? && !r.world.promise.Pending?
  {
    hide SettlesPromise, ProcessTimers, AwaitLoop, SettledBetween, Turn;
    var h := Misleading(s);
    TimerSet(s);
    var v := Turn(h, Fresh(0));
    assert Fresh(0).(promise := Pending) == Fresh(0);
    var n := ReadClock(h, v);
    var x := ProcessTimers(h, n);
    ProcessFiresFirst(h, n);
    NothingQueued(h, n);
    assert SettledBetween(h, 1, x.turns) by { FirstTurnSettles(h, x.turns); }
    RoundJobs(h, n);
    TimeoutOfSettled(h, n, n.clock + 1);
  }

  lemma TimerSet(s: seq<Op>)
    ensures var v := Turn(Misleading(s), Fresh(0));
            && |v.slots| == MAX_TIMERS && v.slots[0] == Timer(0, Function(7), 1, false, 2, true)
            && v.turns == 1 && v.jobs == 0 && v.clock == 1 && v.promise.Pending?
  {
    var h := Misleading(s);
    var c := Fresh(0).(turns := 1);
    FirstFreeIs(c.slots, 0);
    assert TIMEOUT[..0] == [];
    assert Run(h, c, TIMEOUT) == Step(h, Run(h, c, []), TIMEOUT[0]);
  }

  /** A pass fires a timer that is due. */
  lemma ProcessFiresFirst(host: Host, w: World)
    requires w.slots != [] && w.slots[0].active && w.slots[0].fireTime <= w.clock
    ensures ProcessTimers(host, w).turns > w.turns
  {
    hide PassTo;
    var n := Sampled(host, w);
    PassTurns(host, n, n.clock, |n.slots|);
  }

  lemma FirstTurnSettles(host: Host, b: nat)
    requires SettlesPromise(host.script(1)) && 1 < b
    ensures SettledBetween(host, 1, b)
  {
  }

  /** If no turn from now on queues a job, a pass does not. */
  lemma NothingQueued(host: Host, w: World)
    requires forall n :: w.turns <= n ==> EnqueueJob !in host.script(n)
    ensures ProcessTimers(host, w).jobs == w.jobs
  {
    hide PassTo;
    var n := Sampled(host, w);
    PassQueuesNothing(host, n, n.clock, |n.slots|);
  }

  lemma {:induction false} PassQueuesNothing(host: Host, w: World, now: int, k: nat)
    requires k <= |w.slots| && forall n :: w.turns <= n ==> EnqueueJob !in host.script(n)
    ensures var v := PassTo(host, w, now, k);
            v.jobs == w.jobs && w.turns <= v.turns
  {
    hide Visit;
    if k > 0 {
      var u := PassTo(host, w, now, k - 1);
      PassQueuesNothing(host, w, now, k - 1);
      VisitQueues(host, u, k - 1, now);
      VisitTurns(host, u, k - 1, now);
    }
  }
}
