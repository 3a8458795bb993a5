/** When the loops end: the event loop without a limit and with one, and drain_jobs at a clock
    that stands still and at any other. */
module Liveness {
  import opened TimerHistory
  import opened Options
  import opened TimerTable
  import opened Intervals
  import opened Passes
  import opened EventLoop
  import Await

  /** Callbacks and jobs add no work and do not fail; they may clear any timer. */
  predicate AddsNothing(op: Op) { op.ClearTimer? || op.Settle? }

  ghost predicate Quiet(host: Host) {
    forall n :: !host.jobThrows(n) && forall op :: op in host.script(n) ==> AddsNothing(op)
  }

  // ---- what quiet turns do ------------------------------------------------------------

  /** Timers may be missing; whatever is active is unchanged. */
  ghost predicate Thinned(w: World, v: World) {
    && |v.slots| == |w.slots| && v.jobs == w.jobs && v.clock == w.clock && v.nextId == w.nextId
    && v.ticks == w.ticks
    && forall i :: 0 <= i < |w.slots| && v.slots[i].active ==> v.slots[i] == w.slots[i]
  }

  lemma {:induction false} RunThins(host: Host, w: World, ops: seq<Op>)
    requires forall op :: op in ops ==> AddsNothing(op)
    ensures Thinned(w, Run(host, w, ops))
  {
    hide Step;
    if ops != [] {
      var n := |ops| - 1;
      RunThins(host, w, ops[..n]);
      assert ops[n] in ops;
      StepThins(host, Run(host, w, ops[..n]), ops[n]);
    }
  }

  lemma StepThins(host: Host, w: World, op: Op)
    requires AddsNothing(op)
    ensures Thinned(w, Step(host, w, op))
  {
  }

  lemma TurnThins(host: Host, w: World)
    requires Quiet(host)
    ensures Thinned(w, Turn(host, w))
  {
    hide Run;
    RunThins(host, w.(turns := w.turns + 1), host.script(w.turns));
  }

  /** The slot of a timer that fired, if it is still active, holds the rearmed interval. */
  function AfterFiring(t: Timer, now: int): Timer { t.(fireTime := Max(t.fireTime + t.delay, now)) }

  ghost predicate Passed(w: World, v: World, now: int, k: nat) {
    && |v.slots| == |w.slots| && v.jobs == w.jobs && v.clock == w.clock && v.nextId == w.nextId
    && v.ticks == w.ticks
    && forall i :: 0 <= i < |w.slots| && v.slots[i].active ==>
         if i < k && Due(w.slots[i], now)
         then w.slots[i].repeat && v.slots[i] == AfterFiring(w.slots[i], now)
         else v.slots[i] == w.slots[i]
  }

  lemma {:induction false} PassPasses(host: Host, w: World, now: int, k: nat)
    requires Quiet(host) && k <= |w.slots|
    ensures Passed(w, PassTo(host, w, now, k), now, k)
  {
    hide Visit, Quiet;
    if k > 0 {
      PassPasses(host, w, now, k - 1);
      VisitPasses(host, PassTo(host, w, now, k - 1), k - 1, now);
    }
  }

  lemma VisitPasses(host: Host, w: World, i: nat, now: int)
    requires Quiet(host) && i < |w.slots|
    ensures var v := Visit(host, w, i, now);
            && |v.slots| == |w.slots| && v.jobs == w.jobs && v.clock == w.clock
            && v.nextId == w.nextId && v.ticks == w.ticks
            && (forall j :: 0 <= j < |w.slots| && j != i && v.slots[j].active ==> v.slots[j] == w.slots[j])
            && (v.slots[i].active ==>
                  if Due(w.slots[i], now)
                  then w.slots[i].repeat && v.slots[i] == AfterFiring(w.slots[i], now)
                  else v.slots[i] == w.slots[i])
  {
    hide Turn, Quiet;
    if Due(w.slots[i], now) {
      TurnThins(host, w.(log := w.log + [Fired(w.slots[i].id, now)]));
    }
  }

  lemma {:induction false} JobsEmpty(host: Host, w: World, fuel: nat)
    requires Quiet(host) && fuel > w.jobs
    ensures var j := RunJobs(host, w, fuel);
            && j.Returned? && j.world.jobs == 0 && w.turns <= j.world.turns
            && (w.jobs > 0 ==> w.turns < j.world.turns)
            && Thinned(w.(jobs := 0), j.world) && w.log <= j.world.log
    decreases fuel
  {
    hide Turn;
    if w.jobs > 0 {
      var v := w.(jobs := w.jobs - 1, jobsRun := w.jobsRun + 1);
      TurnThins(host, v);
      TurnEffect(host, v);
      JobsEmpty(host, ExecuteJob(host, w), fuel - 1);
    }
  }

  // ---- counting active slots ----------------------------------------------------------

  lemma {:induction false} CountThins(slots: seq<Timer>, fewer: seq<Timer>)
    requires |slots| == |fewer|
    requires forall i :: 0 <= i < |slots| && fewer[i].active ==> slots[i].active
    ensures ActiveCount(fewer) <= ActiveCount(slots)
    ensures (exists i :: 0 <= i < |slots| && slots[i].active && !fewer[i].active) ==>
              ActiveCount(fewer) < ActiveCount(slots)
  {
    if slots != [] {
      var n := |slots| - 1;
      CountThins(slots[..n], fewer[..n]);
      if i :| 0 <= i < |slots| && slots[i].active && !fewer[i].active {
        if i < n {
          assert slots[..n][i].active && !fewer[..n][i].active;
        }
      }
    }
  }

  // ---- the event loop -----------------------------------------------------------------

  predicate OneShots(slots: seq<Timer>) {
    forall i :: 0 <= i < |slots| && slots[i].active ==> !slots[i].repeat
  }

  /** No timer is due more than `d` after the clock. */
  predicate DueWithin(w: World, d: nat) {
    forall i :: 0 <= i < |w.slots| && w.slots[i].active ==> w.slots[i].fireTime <= w.clock + d
  }

  /** A pass that calls something leaves fewer one-shots. */
  lemma BusyPass(host: Host, w: World, now: int)
    requires Quiet(host) && OneShots(w.slots)
    ensures var v := Pass(host, w, now);
            && OneShots(v.slots) && v.jobs == w.jobs && v.clock == w.clock && v.nextId == w.nextId
            && (forall i :: 0 <= i < |v.slots| && v.slots[i].active ==> i < |w.slots| && v.slots[i] == w.slots[i])
            && ActiveCount(v.slots) <= ActiveCount(w.slots)
            && (v.turns != w.turns ==> ActiveCount(v.slots) < ActiveCount(w.slots))
  {
    hide PassTo, Quiet;
    var v := Pass(host, w, now);
    PassPasses(host, w, now, |w.slots|);
    CountThins(w.slots, v.slots);
    if forall i :: 0 <= i < |w.slots| ==> !Due(w.slots[i], now) {
      IdlePass(host, w, now, |w.slots|);
    }
  }

  /** One round of the event loop: the jobs, then a pass. */
  lemma QuietRound(host: Host, w: World, fuel: nat, d: nat)
    requires AtRest(w) && Quiet(host) && OneShots(w.slots) && DueWithin(w, d) && fuel > w.jobs
    ensures var j := RunJobs(host, w, fuel);
            var v := ProcessTimers(host, j.world);
            && j.Returned? && Follows(w, v) && v.jobs == 0 && v.nextId == w.nextId
            && OneShots(v.slots) && DueWithin(v, d)
            && (v.turns != w.turns ==>
                  ActiveCount(v.slots) < w.jobs + ActiveCount(w.slots))
            && (v.turns == w.turns ==>
                  && w.jobs == 0 && v.slots == w.slots
                  && forall i :: 0 <= i < |v.slots| && v.slots[i].active ==> v.slots[i].fireTime > v.clock)
  {
    hide AtRest, Quiet, RunJobs, Pass;
    var j := RunJobs(host, w, fuel);
    JobsEmpty(host, w, fuel);
    if w.jobs == 0 { NoJobs(host, w, fuel); }
    RunJobsFollows(host, w, fuel);
    ProcessFollows(host, j.world);
    CountThins(w.slots, j.world.slots);
    var n := Sampled(host, j.world);
    BusyPass(host, n, n.clock);
  }

  /** With one-shots only, and callbacks and jobs that add nothing, the event loop without a
      limit ends with nothing left, within a round for every job and timer and for every
      millisecond until the last is due. */
  lemma {:induction false} EventLoopEnds(host: Host, w: World, start: int, d: nat, fuel: nat, rounds: nat)
    requires AtRest(w) && Quiet(host) && OneShots(w.slots) && DueWithin(w, d) && fuel > w.jobs
    requires rounds >= w.jobs + ActiveCount(w.slots) + d + 1
    ensures var r := EventRounds(host, w, start, 0, fuel, rounds);
            r.Returned? && r.world.jobs == 0 && !HasActive(r.world.slots) && r.world.nextId == w.nextId
    decreases rounds
  {
    hide AtRest, Quiet, RunJobs, ProcessTimers, OneShots, ActiveCount;
    var v := ProcessTimers(host, RunJobs(host, w, fuel).world);
    QuietRound(host, w, fuel, d);
    if v.turns != w.turns {
      EventLoopEnds(host, v, start, d, fuel, rounds - 1);
    } else if HasActive(v.slots) {
      var u := Sleep(v, 1);
      SleepFollows(v, 1);
      EventLoopEnds(host, u, start, d - 1, fuel, rounds - 1);
    }
  }

  // ---- every timer fires --------------------------------------------------------------

  lemma {:induction false} FiringWitness(log: seq<Event>, id: int, j: nat, k: nat) returns (m: nat)
    requires j <= k <= |log| && Firings(log, id, k) > Firings(log, id, j)
    ensures j <= m < k && log[m].Fired? && log[m].id == id
    decreases k
  {
    if log[k - 1].Fired? && log[k - 1].id == id {
      m := k - 1;
    } else {
      m := FiringWitness(log, id, j, k - 1);
    }
  }

  lemma {:induction false} OneShotCount(log: seq<Event>, id: int, j: nat, k: nat)
    requires Legal(log) && j <= k <= |log| && id in At(log, j).live && !At(log, j).live[id].repeat
    ensures Firings(log, id, k) <= Firings(log, id, j) + 1
    decreases k
  {
    hide Allowed, Apply;
    if j < k {
      OneShotCount(log, id, j, k - 1);
      if log[k - 1].Fired? && log[k - 1].id == id && Firings(log, id, k - 1) > Firings(log, id, j) {
        var m := FiringWitness(log, id, j, k - 1);
        AlwaysSound(log, j);
        Issued(log, j, m);
        AlwaysSound(log, m);
        StepAt(log, m);
        StepNames(At(log, m), log[m]);
        EntryKept(log, id, j, m);
        OneShotFiresOnce(log, m, k - 1);
      }
    }
  }

  /** A one-shot that is gone after a stretch in which no timer was set has fired in it,
      once, or was cleared. */
  lemma GoneOneShot(w: World, v: World, id: int)
    requires AtRest(w) && AtRest(v) && w.log <= v.log && v.nextId == w.nextId
    requires id in Now(w.log).live && !Now(w.log).live[id].repeat && id !in Now(v.log).live
    ensures 0 <= FiredBetween(w, v, id) <= 1
    ensures FiredBetween(w, v, id) == 0 ==> Cleared(id) in v.log[|w.log|..]
  {
    hide At, Allowed, Apply, SlotsWellFormed, Owned, Holds;
    var n := |w.log|;
    AtPrefix(w.log, v.log, n);
    CountPrefix(w.log, v.log, id, n);
    FiringsGrow(v.log, id, n, |v.log|);
    OneShotCount(v.log, id, n, |v.log|);
    AlwaysSound(v.log, n);
    var m := LeftAt(v.log, id, n, |v.log|);
    if v.log[m].Cleared? {
      assert v.log[n..][m - n] == Cleared(id);
    } else {
      NoNewcomerRetired(v.log, n, m);
      var f := CallStart(v.log, m);
      CallBeganSince(v.log, n, f, m);
      FiringsGrow(v.log, id, n, f);
      FiringsGrow(v.log, id, f + 1, |v.log|);
    }
  }

  /** Where nothing was set, only the timer that was called is retired. */
  lemma NoNewcomerRetired(log: seq<Event>, n: nat, m: nat)
    requires Legal(log) && n <= m < |log| && log[m].Retired? && At(log, n).phase.Resting?
    requires Now(log).issued == At(log, n).issued
    ensures At(log, m).phase.Calling? && log[m].id == At(log, m).phase.id
  {
    hide Allowed, Apply;
    CallEnds(log, m);
    if log[m].id != At(log, m).phase.id {
      var f, c, s := UnfiredOnlyByTakingTheSlot(log, m);
      CallBeganSince(log, n, f, m);
      StepAt(log, s);
      StepIssues(At(log, s), log[s]);
      Issued(log, n, s);
      Issued(log, s + 1, |log|);
    }
  }

  lemma LiveIsActive(w: World, id: int)
    requires AtRest(w) && id in Now(w.log).live
    ensures HasActive(w.slots)
  {
    hide Legal, At, Owned;
    assert w.slots[Now(w.log).live[id].slot].active;
  }

  lemma EmptyTable(w: World, id: int)
    requires AtRest(w) && !HasActive(w.slots)
    ensures id !in Now(w.log).live
  {
    if id in Now(w.log).live { LiveIsActive(w, id); }
  }

  /** The liveness of run_event_loop: given only one-shots, and callbacks and jobs that add
      nothing and do not fail, it returns, with an empty queue and an empty table, and every
      timer has fired exactly once or was cleared without having fired. */
  lemma EventLoopLiveness(host: Host, w: World, d: nat, fuel: nat)
    requires AtRest(w) && Quiet(host) && OneShots(w.slots) && DueWithin(w, d)
    requires fuel >= w.jobs + ActiveCount(w.slots) + d + 1
    ensures var r := RunEventLoop(host, w, 0, fuel);
            && r.Returned? && w.log <= r.world.log
            && r.world.jobs == 0 && !HasActive(r.world.slots)
            && forall i :: 0 <= i < |w.slots| && w.slots[i].active ==>
                 && 0 <= FiredBetween(w, r.world, w.slots[i].id) <= 1
                 && (FiredBetween(w, r.world, w.slots[i].id) == 0 ==>
                       Cleared(w.slots[i].id) in r.world.log[|w.log|..])
  {
    hide Quiet, Legal, At, SlotsWellFormed, Owned, EventRounds, ActiveCount;
    var n := ReadClock(host, w);
    ReadClockFollows(host, w);
    EventLoopEnds(host, n, n.clock, d, fuel, fuel);
    EventRoundsFollow(host, n, n.clock, 0, fuel, fuel);
    var v := RunEventLoop(host, w, 0, fuel).world;
    forall i | 0 <= i < |w.slots| && w.slots[i].active
      ensures 0 <= FiredBetween(w, v, w.slots[i].id) <= 1
      ensures FiredBetween(w, v, w.slots[i].id) == 0 ==> Cleared(w.slots[i].id) in v.log[|w.log|..]
    {
      EmptyTable(v, w.slots[i].id);
      GoneOneShot(w, v, w.slots[i].id);
    }
  }

  // ---- drain_jobs at a standing clock -------------------------------------------------

  ghost predicate Frozen(host: Host) { forall n :: host.lag(n) == 0 }

  /** No interval that is due by `now` has a delay of zero. */
  predicate PositiveDelays(slots: seq<Timer>, now: int) {
    forall i :: 0 <= i < |slots| && Due(slots[i], now) && slots[i].repeat ==> slots[i].delay >= 1
  }

  /** Every active timer is due at `now` or later; strictly later. */
  predicate DueFrom(slots: seq<Timer>, now: int) {
    forall i :: 0 <= i < |slots| && slots[i].active ==> slots[i].fireTime >= now
  }

  predicate DueAfter(slots: seq<Timer>, now: int) {
    forall i :: 0 <= i < |slots| && slots[i].active ==> slots[i].fireTime > now
  }

  /** One round of drain_jobs: a late timer is clamped to the clock, one that is due exactly
      now moves past it, and one that is not due stays. */
  lemma DrainRound(host: Host, w: World, fuel: nat)
    requires AtRest(w) && Quiet(host) && Frozen(host) && PositiveDelays(w.slots, w.clock) && fuel > w.jobs
    ensures var j := RunJobs(host, w, fuel);
            var v := ProcessTimers(host, j.world);
            && j.Returned? && Follows(w, v) && v.jobs == 0 && v.clock == w.clock
            && PositiveDelays(v.slots, v.clock) && DueFrom(v.slots, w.clock)
            && (DueFrom(w.slots, w.clock) ==> DueAfter(v.slots, w.clock))
            && (DueAfter(w.slots, w.clock) && w.jobs == 0 ==> v.turns == w.turns && v.log == w.log)
            && forall id :: 0 <= FiredBetween(w, v, id) <= 1
  {
    hide Quiet, Legal, At, Owned, SlotsWellFormed, RunJobs, PassTo, Holds;
    var j := RunJobs(host, w, fuel);
    JobsEmpty(host, w, fuel);
    RunJobsFollows(host, w, fuel);
    ProcessFollows(host, j.world);
    var n := Sampled(host, j.world);
    ReadClockFollows(host, j.world);
    PassPasses(host, n, n.clock, |n.slots|);
    if DueAfter(w.slots, w.clock) { IdlePass(host, n, n.clock, |n.slots|); }
    if w.jobs == 0 { NoJobs(host, w, fuel); }
    forall id ensures 0 <= FiredBetween(w, ProcessTimers(host, j.world), id) <= 1 {
      AtMostOnceAPass(host, n, n.clock, |n.slots|, id);
      JobsFireNothing(host, w, fuel, id);
    }
  }

  lemma NoJobs(host: Host, w: World, fuel: nat)
    requires w.jobs == 0 && fuel > 0
    ensures RunJobs(host, w, fuel) == Returned(w)
  {
  }

  lemma {:induction false} JobsFireNothing(host: Host, w: World, fuel: nat, id: int)
    ensures FiredBetween(w, RunJobs(host, w, fuel).world, id) == 0
    decreases fuel
  {
    hide Turn;
    if fuel > 0 && w.jobs > 0 {
      var v := ExecuteJob(host, w);
      TurnEffect(host, w.(jobs := w.jobs - 1, jobsRun := w.jobsRun + 1));
      UnnamedNotFired(w, v, id);
      if !JobThrows(host, w) {
        JobsFireNothing(host, v, fuel - 1, id);
      }
    }
  }

  /** With callbacks and jobs that add nothing, no due interval of delay zero and a clock that
      stands still, drain_jobs ends within three rounds, and no timer fires more than
      twice in it. */
  lemma DrainEnds(host: Host, w: World, fuel: nat, rounds: nat)
    requires AtRest(w) && Quiet(host) && Frozen(host) && PositiveDelays(w.slots, w.clock)
    requires fuel > w.jobs && rounds >= 3
    ensures var r := DrainJobs(host, w, fuel, rounds);
            && r.Returned? && r.world.jobs == 0 && DueAfter(r.world.slots, r.world.clock)
            && forall id :: 0 <= FiredBetween(w, r.world, id) <= 2
  {
    hide AtRest, Quiet, Frozen, RunJobs, ProcessTimers, FiredBetween, PositiveDelays, DrainJobs;
    var v1 := ProcessTimers(host, RunJobs(host, w, fuel).world);
    DrainRound(host, w, fuel);
    DrainedIsQuiescentIf(host, w, fuel, rounds);
    DrainUnfolds(host, w, fuel, rounds);
    if v1.turns != w.turns {
      var v2 := ProcessTimers(host, RunJobs(host, v1, fuel).world);
      DrainRound(host, v1, fuel);
      DrainUnfolds(host, v1, fuel, rounds - 1);
      if v2.turns != v1.turns {
        var v3 := ProcessTimers(host, RunJobs(host, v2, fuel).world);
        DrainRound(host, v2, fuel);
        DrainUnfolds(host, v2, fuel, rounds - 2);
        forall id ensures FiredBetween(v2, v3, id) == 0 { SameLogNoFiring(v2, v3, id); }
        forall id { FiredBetweenAdds(v1, v2, v3, id); }
        forall id { FiredBetweenAdds(w, v1, v3, id); }
      } else {
        forall id { FiredBetweenAdds(w, v1, v2, id); }
      }
    }
  }

  lemma DrainUnfolds(host: Host, w: World, fuel: nat, rounds: nat)
    requires rounds > 0 && RunJobs(host, w, fuel).Returned?
    ensures var v := ProcessTimers(host, RunJobs(host, w, fuel).world);
            DrainJobs(host, w, fuel, rounds)
            == if v.turns == w.turns then Returned(v) else DrainJobs(host, v, fuel, rounds - 1)
  {
  }

  lemma SameLogNoFiring(w: World, v: World, id: int)
    requires v.log == w.log
    ensures FiredBetween(w, v, id) == 0
  {
  }

  lemma DrainedIsQuiescentIf(host: Host, w: World, fuel: nat, rounds: nat)
    requires AtRest(w)
    ensures var r := DrainJobs(host, w, fuel, rounds);
            r.Returned? ==> r.world.jobs == 0 && DueAfter(r.world.slots, r.world.clock)
  {
    hide AtRest, DrainJobs;
    if DrainJobs(host, w, fuel, rounds).Returned? { DrainedIsQuiescent(host, w, fuel, rounds); }
  }

  /** Callbacks and jobs that leave the timers alone altogether. */
  ghost predicate Inert(host: Host) {
    forall n :: !host.jobThrows(n) && forall op :: op in host.script(n) ==> op.Settle?
  }

  lemma {:induction false} InertRun(host: Host, w: World, ops: seq<Op>)
    requires forall op :: op in ops ==> op.Settle?
    ensures var v := Run(host, w, ops);
            v == w.(promise := v.promise)
  {
    if ops != [] {
      InertRun(host, w, ops[..|ops| - 1]);
      assert ops[|ops| - 1] in ops;
    }
  }

  // Where turns leave the timers alone, every timer goes its own way.

  /** What one pass makes of one timer. */
  function Advanced(t: Timer, now: int): Timer {
    if !Due(t, now) then t else if t.repeat then AfterFiring(t, now) else Vacant(t)
  }

  lemma InertVisit(host: Host, w: World, i: nat, now: int)
    requires Inert(host) && i < |w.slots|
    ensures var v := Visit(host, w, i, now);
            && v.slots == w.slots[i := Advanced(w.slots[i], now)]
            && v.clock == w.clock && v.ticks == w.ticks && v.jobs == w.jobs
            && v.turns == w.turns + if Due(w.slots[i], now) then 1 else 0
  {
    hide Run;
    if Due(w.slots[i], now) {
      var c := w.(log := w.log + [Fired(w.slots[i].id, now)]);
      InertRun(host, c.(turns := c.turns + 1), host.script(c.turns));
    }
  }

  lemma {:induction false} InertPass(host: Host, w: World, now: int, k: nat)
    requires Inert(host) && k <= |w.slots|
    ensures var v := PassTo(host, w, now, k);
            && v.clock == w.clock && v.ticks == w.ticks && v.jobs == w.jobs && v.turns >= w.turns
            && (v.turns == w.turns <==> forall i :: 0 <= i < k ==> !Due(w.slots[i], now))
            && forall i :: 0 <= i < |w.slots| ==>
                 v.slots[i] == if i < k then Advanced(w.slots[i], now) else w.slots[i]
  {
    hide Visit, Inert, Due;
    if k > 0 {
      InertPass(host, w, now, k - 1);
      InertVisit(host, PassTo(host, w, now, k - 1), k - 1, now);
    }
  }

  lemma {:induction false} InertJobs(host: Host, w: World, fuel: nat)
    requires Inert(host) && fuel > w.jobs
    ensures var j := RunJobs(host, w, fuel);
            && j.Returned? && j.world.jobs == 0 && j.world.slots == w.slots
            && j.world.clock == w.clock && j.world.ticks == w.ticks
            && j.world.turns == w.turns + w.jobs
    decreases fuel
  {
    hide Run;
    if w.jobs > 0 {
      var c := w.(jobs := w.jobs - 1, jobsRun := w.jobsRun + 1);
      InertRun(host, c.(turns := c.turns + 1), host.script(c.turns));
      InertJobs(host, ExecuteJob(host, w), fuel - 1);
    }
  }

  /** One round of either loop: the clock is read once, and every timer advances. */
  lemma InertRound(host: Host, w: World, fuel: nat)
    requires Inert(host) && fuel > w.jobs
    ensures var j := RunJobs(host, w, fuel);
            var v := ProcessTimers(host, j.world);
            var now := w.clock + host.lag(w.ticks);
            && j.Returned? && v.jobs == 0 && v.clock == now && v.ticks == w.ticks + 1
            && |v.slots| == |w.slots|
            && (forall i :: 0 <= i < |w.slots| ==> v.slots[i] == Advanced(w.slots[i], now))
            && (v.turns == w.turns <==> w.jobs == 0 && forall i :: 0 <= i < |w.slots| ==> !Due(w.slots[i], now))
  {
    hide Inert, RunJobs, PassTo, Due, Advanced;
    var j := RunJobs(host, w, fuel);
    InertJobs(host, w, fuel);
    var n := Sampled(host, j.world);
    InertPass(host, n, n.clock, |n.slots|);
  }

  /** The clock at the k-th sample, if each round reads it once. */
  function ClockAt(host: Host, clock: int, ticks: nat, k: nat): int
    decreases k
  {
    if k == 0 then clock else ClockAt(host, clock + host.lag(ticks), ticks + 1, k - 1)
  }

  /** One timer after `k` rounds, on its own. */
  function TimerAt(host: Host, clock: int, ticks: nat, t: Timer, k: nat): Timer
    decreases k
  {
    if k == 0 then t
    else
      var now := clock + host.lag(ticks);
      TimerAt(host, now, ticks + 1, Advanced(t, now), k - 1)
  }

  /** In the round after the k-th, no timer is due. */
  predicate NoneDueAt(host: Host, clock: int, ticks: nat, slots: seq<Timer>, k: nat) {
    forall i :: 0 <= i < |slots| ==>
      !Due(TimerAt(host, clock, ticks, slots[i], k), ClockAt(host, clock, ticks, k + 1))
  }

  /** Some round among `rounds` finds nothing to do: not the first, if there are jobs. */
  ghost predicate SomeRoundIsIdle(host: Host, w: World, rounds: nat) {
    exists k :: 0 <= k < rounds && (k == 0 ==> w.jobs == 0) && NoneDueAt(host, w.clock, w.ticks, w.slots, k)
  }

  /** Exactly when draining ends, for any clock. For callbacks and jobs that leave the timers
      alone, drain_jobs returns within `rounds` rounds if and only if in one of them no timer
      is due, where each timer is followed by itself from its entry and the readings of the
      clock, without the loop, the table or the other timers. */
  lemma {:induction false} DrainReturnsIff(host: Host, w: World, fuel: nat, rounds: nat)
    requires Inert(host) && fuel > w.jobs
    ensures DrainJobs(host, w, fuel, rounds).Returned? <==> SomeRoundIsIdle(host, w, rounds)
    ensures !DrainJobs(host, w, fuel, rounds).Failed?
    decreases rounds
  {
    hide Inert, RunJobs, ProcessTimers, Due, Advanced;
    if rounds > 0 {
      var v := ProcessTimers(host, RunJobs(host, w, fuel).world);
      InertRound(host, w, fuel);
      FirstRound(host, w);
      if v.turns != w.turns {
        DrainReturnsIff(host, v, fuel, rounds - 1);
        LaterRounds(host, w, v, rounds);
      } else {
        assert NoneDueAt(host, w.clock, w.ticks, w.slots, 0);
      }
    }
  }

  lemma FirstRound(host: Host, w: World)
    ensures NoneDueAt(host, w.clock, w.ticks, w.slots, 0)
            <==> forall i :: 0 <= i < |w.slots| ==> !Due(w.slots[i], w.clock + host.lag(w.ticks))
  {
    hide Due;
    assert ClockAt(host, w.clock, w.ticks, 1) == w.clock + host.lag(w.ticks);
    assert forall i :: 0 <= i < |w.slots| ==> TimerAt(host, w.clock, w.ticks, w.slots[i], 0) == w.slots[i];
  }

  /** Seen from after the first round, the later ones are the same. */
  lemma LaterRounds(host: Host, w: World, v: World, rounds: nat)
    requires rounds > 0 && v.jobs == 0 && |v.slots| == |w.slots|
    requires v.clock == w.clock + host.lag(w.ticks) && v.ticks == w.ticks + 1
    requires forall i :: 0 <= i < |w.slots| ==> v.slots[i] == Advanced(w.slots[i], v.clock)
    requires !(w.jobs == 0 && NoneDueAt(host, w.clock, w.ticks, w.slots, 0))
    ensures SomeRoundIsIdle(host, w, rounds) <==> SomeRoundIsIdle(host, v, rounds - 1)
  {
    hide Due, Advanced;
    forall k: nat ensures NoneDueAt(host, w.clock, w.ticks, w.slots, k + 1)
                          <==> NoneDueAt(host, v.clock, v.ticks, v.slots, k) {
      assert ClockAt(host, w.clock, w.ticks, k + 2) == ClockAt(host, v.clock, v.ticks, k + 1);
      forall i | 0 <= i < |w.slots| ensures TimerAt(host, w.clock, w.ticks, w.slots[i], k + 1)
                                         == TimerAt(host, v.clock, v.ticks, v.slots[i], k) {
      }
    }
    if SomeRoundIsIdle(host, v, rounds - 1) {
      var k :| 0 <= k < rounds - 1 && NoneDueAt(host, v.clock, v.ticks, v.slots, k);
      assert NoneDueAt(host, w.clock, w.ticks, w.slots, k + 1);
    }
    if SomeRoundIsIdle(host, w, rounds) {
      var k :| 0 <= k < rounds && (k == 0 ==> w.jobs == 0) && NoneDueAt(host, w.clock, w.ticks, w.slots, k);
      assert NoneDueAt(host, v.clock, v.ticks, v.slots, k - 1);
    }
  }

  /** An interval that a clock which moves by `g` at every reading finds due every time. */
  predicate KeptDue(t: Timer, clock: int, g: nat) {
    t.active && t.repeat && t.delay <= g && t.fireTime <= clock + g
  }

  lemma KeptDueAdvances(t: Timer, clock: int, now: int, g: nat)
    requires KeptDue(t, clock, g) && clock + g <= now
    ensures Due(t, now) && KeptDue(Advanced(t, now), now, g)
  {
  }

  /** If the clock moves by at least `g` at every reading, and some interval with a delay of at
      most `g` is due by the clock plus `g`, drain_jobs never returns. */
  lemma {:induction false} DrainOutrun(host: Host, w: World, fuel: nat, rounds: nat, i: nat, g: nat)
    requires Inert(host) && (forall n :: host.lag(n) >= g) && fuel > w.jobs
    requires i < |w.slots| && KeptDue(w.slots[i], w.clock, g)
    ensures DrainJobs(host, w, fuel, rounds).Running?
    decreases rounds
  {
    hide Inert, RunJobs, ProcessTimers, Due, Advanced, KeptDue;
    if rounds > 0 {
      var v := ProcessTimers(host, RunJobs(host, w, fuel).world);
      InertRound(host, w, fuel);
      KeptDueAdvances(w.slots[i], w.clock, v.clock, g);
      DrainOutrun(host, v, fuel, rounds - 1, i, g);
    }
  }

  /** In particular, with a due interval of delay zero, however the clock moves. */
  lemma DrainNeverEnds(host: Host, w: World, fuel: nat, rounds: nat, i: nat)
    requires Inert(host) && fuel > w.jobs && i < |w.slots|
    requires Due(w.slots[i], w.clock) && w.slots[i].repeat && w.slots[i].delay <= 0
    ensures DrainJobs(host, w, fuel, rounds).Running?
  {
    hide Inert, DrainJobs;
    DrainOutrun(host, w, fuel, rounds, i, 0);
  }

  /** At a standing clock the condition is about the table alone: drain_jobs returns if and only
      if no interval that is already due has a delay of zero. */
  lemma DrainEndsIff(host: Host, w: World, fuel: nat, rounds: nat)
    requires AtRest(w) && Inert(host) && Frozen(host) && fuel > w.jobs && rounds >= 3
    ensures DrainJobs(host, w, fuel, rounds).Returned? <==> PositiveDelays(w.slots, w.clock)
  {
    hide DrainJobs, Frozen, AtRest;
    if PositiveDelays(w.slots, w.clock) {
      assert Quiet(host);
      DrainEnds(host, w, fuel, rounds);
    } else {
      var i :| 0 <= i < |w.slots| && Due(w.slots[i], w.clock) && w.slots[i].repeat && w.slots[i].delay < 1;
      DrainNeverEnds(host, w, fuel, rounds, i);
    }
  }

  lemma {:induction false} DueBound(slots: seq<Timer>, clock: int) returns (d: nat)
    ensures forall i :: 0 <= i < |slots| && slots[i].active ==> slots[i].fireTime <= clock + d
  {
    if slots == [] {
      d := 0;
    } else {
      d := DueBound(slots[..|slots| - 1], clock);
      d := Max(d, slots[|slots| - 1].fireTime - clock);
    }
  }

  lemma ShowDueWithin(w: World, d: nat)
    requires forall i :: 0 <= i < |w.slots| && w.slots[i].active ==> w.slots[i].fireTime <= w.clock + d
    ensures DueWithin(w, d)
  {
  }

  /** Without intervals drain_jobs ends whatever the clock does, with a round for every job
      and timer. */
  lemma {:induction false} DrainEndsWithoutIntervals(host: Host, w: World, fuel: nat, rounds: nat)
    requires AtRest(w) && Quiet(host) && OneShots(w.slots) && fuel > w.jobs
    requires rounds > w.jobs + ActiveCount(w.slots)
    ensures DrainJobs(host, w, fuel, rounds).Returned?
    decreases rounds
  {
    hide AtRest, Quiet, RunJobs, ProcessTimers, OneShots, ActiveCount, DueWithin;
    var v := ProcessTimers(host, RunJobs(host, w, fuel).world);
    var d := DueBound(w.slots, w.clock);
    assert DueWithin(w, d) by { ShowDueWithin(w, d); }
    QuietRound(host, w, fuel, d);
    if v.turns != w.turns {
      DrainEndsWithoutIntervals(host, v, fuel, rounds - 1);
    }
  }

  // ---- intervals keep the event loop going --------------------------------------------

  predicate Ticking(t: Timer) { t.active && t.repeat }

  lemma {:induction false} LoopNeverEnds(host: Host, w: World, start: int, maxWait: int, fuel: nat, rounds: nat, i: nat)
    requires Inert(host) && fuel > w.jobs && i < |w.slots| && Ticking(w.slots[i]) && maxWait <= 0
    ensures EventRounds(host, w, start, maxWait, fuel, rounds).Running?
    decreases rounds
  {
    hide Inert, RunJobs, ProcessTimers;
    if rounds > 0 {
      var v := ProcessTimers(host, RunJobs(host, w, fuel).world);
      InertRound(host, w, fuel);
      assert v.slots[i].active;
      LoopNeverEnds(host, if v.turns == w.turns then Sleep(v, 1) else v, start, maxWait, fuel, rounds - 1, i);
    }
  }

  /** Exactly when the event loop without a limit ends: for callbacks and jobs that leave the
      timers alone, given fuel for every job, timer and millisecond, it returns if and only if
      no interval is active. */
  lemma EventLoopEndsIff(host: Host, w: World, d: nat, fuel: nat)
    requires AtRest(w) && Inert(host) && DueWithin(w, d)
    requires fuel >= w.jobs + ActiveCount(w.slots) + d + 1
    ensures RunEventLoop(host, w, 0, fuel).Returned? <==> OneShots(w.slots)
  {
    hide EventRounds, AtRest, ActiveCount;
    if OneShots(w.slots) {
      assert Quiet(host);
      EventLoopLiveness(host, w, d, fuel);
    } else {
      var i :| 0 <= i < |w.slots| && w.slots[i].active && w.slots[i].repeat;
      var n := ReadClock(host, w);
      LoopNeverEnds(host, n, n.clock, 0, fuel, fuel, i);
    }
  }

  // ---- a positive limit ---------------------------------------------------------------

  lemma JobCounts(host: Host, w: World)
    requires w.jobs > 0
    ensures var v := ExecuteJob(host, w);
            v.jobsRun == w.jobsRun + 1 && v.turns == w.turns + 1 && w.clock <= v.clock
  {
    hide Turn;
    var c := w.(jobs := w.jobs - 1, jobsRun := w.jobsRun + 1);
    Await.TurnKeepsJobsRun(host, c);
    TurnEffect(host, c);
  }

  lemma {:induction false} RunJobsCounts(host: Host, w: World, fuel: nat)
    ensures var v := RunJobs(host, w, fuel).world;
            && w.clock <= v.clock && 0 <= v.jobsRun - w.jobsRun == v.turns - w.turns
            && (RunJobs(host, w, fuel).Running? ==> v.jobsRun == w.jobsRun + fuel)
    decreases fuel
  {
    hide ExecuteJob;
    if fuel > 0 && w.jobs > 0 {
      JobCounts(host, w);
      if !JobThrows(host, w) { RunJobsCounts(host, ExecuteJob(host, w), fuel - 1); }
    }
  }

  lemma PassCounts(host: Host, w: World)
    ensures var v := ProcessTimers(host, w);
            v.jobsRun == w.jobsRun && w.turns <= v.turns && w.clock <= v.clock
  {
    hide PassTo;
    var n := Sampled(host, w);
    Await.PassKeepsJobsRun(host, n, n.clock, |n.slots|);
    PassTurns(host, n, n.clock, |n.slots|);
  }

  /** Whatever JavaScript does: a round of the event loop that is not its last has called
      JavaScript, or slept a millisecond short of the limit. */
  lemma {:induction false} EventRoundsAreBounded(host: Host, w: World, start: int, maxWait: int, fuel: nat, rounds: nat)
    requires maxWait > 0 && EventRounds(host, w, start, maxWait, fuel, rounds).Running?
    requires EventRounds(host, w, start, maxWait, fuel, rounds).world.jobsRun < w.jobsRun + fuel
    ensures var v := EventRounds(host, w, start, maxWait, fuel, rounds).world;
            rounds <= v.turns - w.turns + Max(0, start + maxWait - w.clock)
    decreases rounds
  {
    hide RunJobs, ProcessTimers, HasActive;
    if rounds > 0 {
      var j := RunJobs(host, w, fuel).world;
      RunJobsCounts(host, w, fuel);
      PassCounts(host, j);
      var u := ReadClock(host, ProcessTimers(host, j));
      EventRoundsAreBounded(host, if u.turns == w.turns then Sleep(u, 1) else u, start, maxWait, fuel, rounds - 1);
    }
  }

  /** Every job is a turn. */
  lemma {:induction false} EventRoundsCount(host: Host, w: World, start: int, maxWait: int, fuel: nat, rounds: nat)
    ensures var v := EventRounds(host, w, start, maxWait, fuel, rounds).world;
            0 <= v.jobsRun - w.jobsRun <= v.turns - w.turns
    decreases rounds
  {
    hide RunJobs, ProcessTimers, HasActive;
    if rounds > 0 {
      var j := RunJobs(host, w, fuel).world;
      RunJobsCounts(host, w, fuel);
      PassCounts(host, j);
      var v := ProcessTimers(host, j);
      var u := if maxWait > 0 then ReadClock(host, v) else v;
      EventRoundsCount(host, if v.turns == w.turns then Sleep(u, 1) else u, start, maxWait, fuel, rounds - 1);
    }
  }

  /** With a positive limit, and JavaScript called at most `turns` times however long it runs,
      the event loop ends within turns + limit + 1 rounds, whatever is active. */
  lemma LimitedEventLoopEnds(host: Host, w: World, maxWait: int, turns: nat)
    requires maxWait > 0
    requires forall n: nat :: RunEventLoop(host, w, maxWait, n).world.turns <= w.turns + turns
    ensures !RunEventLoop(host, w, maxWait, turns + maxWait + 1).Running?
  {
    hide EventRounds;
    var n := ReadClock(host, w);
    var fuel := turns + maxWait + 1;
    var r := RunEventLoop(host, w, maxWait, fuel);
    EventRoundsCount(host, n, n.clock, maxWait, fuel, fuel);
    if r.Running? { EventRoundsAreBounded(host, n, n.clock, maxWait, fuel, fuel); }
  }
}
