/** How late a timer can fire, and when an interval leaves its grid, in any run at all: never by
    more than the time between the pass that fires it and the pass before. */
module Lateness {
  import opened TimerHistory
  import opened TimerTable
  import opened Intervals
  import opened Passes
  import opened EventLoop
  import opened Runs

  /** No active timer is due before `p`, nor, below slot `k`, before `q`. */
  predicate NotBefore(slots: seq<Timer>, k: nat, q: int, p: int) {
    forall i :: 0 <= i < |slots| && slots[i].active ==> slots[i].fireTime >= if i < k then q else p
  }

  /** The m-th event is a firing at `now` of a timer that was due at `prev` or later. */
  ghost predicate FiredBy(log: seq<Event>, m: nat, now: int, prev: int)
    requires m < |log| && log[m].Fired?
  {
    log[m].at == now && log[m].id in At(log, m).live && At(log, m).live[log[m].id].due >= prev
  }

  /** Some pass fired it, and the pass before did not come after its due time. */
  ghost predicate LateByTheGap(log: seq<Event>, samples: seq<int>, m: nat)
    requires m < |log| && log[m].Fired?
  {
    exists q :: 0 < q < |samples| && FiredBy(log, m, samples[q], samples[q - 1])
  }

  ghost predicate AllFiredBy(log: seq<Event>, j: nat, now: int, prev: int) {
    forall m :: j <= m < |log| && log[m].Fired? ==> FiredBy(log, m, now, prev)
  }

  // ---- one pass -----------------------------------------------------------------------

  lemma TurnNotBefore(host: Host, w: World, k: nat, q: int, p: int)
    requires NotBefore(w.slots, k, q, p) && p <= q <= w.clock && Valid(w)
    ensures NotBefore(Turn(host, w).slots, k, q, p)
  {
    hide Turn, Legal, At, Owned, Holds;
    TurnEffect(host, w);
    TurnKeepsValid(host, w);
  }

  lemma VisitNotBefore(host: Host, w: World, i: nat, now: int, prev: int)
    requires AtRest(w) && i < |w.slots| && prev <= now <= w.clock && NotBefore(w.slots, i, now, prev)
    ensures NotBefore(Visit(host, w, i, now).slots, i + 1, now, prev)
  {
    hide Turn, Legal, At, Owned, Holds, SlotsWellFormed;
    if Due(w.slots[i], now) {
      var c := w.(log := w.log + [Fired(w.slots[i].id, now)]);
      FiringKeepsValid(w, i, now);
      TurnNotBefore(host, c, i, now, prev);
      TurnEffect(host, c);
    }
  }

  lemma VisitFiredBy(host: Host, w: World, i: nat, now: int, prev: int)
    requires AtRest(w) && i < |w.slots| && prev <= now <= w.clock && NotBefore(w.slots, i, now, prev)
    ensures var v := Visit(host, w, i, now);
            w.log <= v.log && AllFiredBy(v.log, |w.log|, now, prev)
  {
    hide Legal, At, Owned, SlotsWellFormed, Visit;
    var v := Visit(host, w, i, now);
    VisitKeepsValid(host, w, i, now);
    if Due(w.slots[i], now) {
      VisitFires(host, w, i, now);
      AtPrefix(w.log, v.log, |w.log|);
    } else {
      VisitOfNotDue(host, w, i, now);
    }
  }

  lemma FiredByPrefix(log: seq<Event>, more: seq<Event>, m: nat, now: int, prev: int)
    requires log <= more && m < |log| && log[m].Fired?
    ensures FiredBy(more, m, now, prev) <==> FiredBy(log, m, now, prev)
  {
    hide At;
    AtPrefix(log, more, m);
  }

  lemma {:induction false} PassFiredBy(host: Host, w: World, now: int, prev: int, k: nat)
    requires AtRest(w) && k <= |w.slots| && prev <= now <= w.clock && NotBefore(w.slots, 0, now, prev)
    ensures var v := PassTo(host, w, now, k);
            NotBefore(v.slots, k, now, prev) && w.log <= v.log && AllFiredBy(v.log, |w.log|, now, prev)
  {
    hide AtRest, Visit, NotBefore, FiredBy;
    if k > 0 {
      var u := PassTo(host, w, now, k - 1);
      var v := PassTo(host, w, now, k);
      PassKeepsValid(host, w, now, k - 1);
      PassFiredBy(host, w, now, prev, k - 1);
      VisitNotBefore(host, u, k - 1, now, prev);
      VisitFiredBy(host, u, k - 1, now, prev);
      forall m | |w.log| <= m < |v.log| && v.log[m].Fired? ensures FiredBy(v.log, m, now, prev) {
        if m < |u.log| { FiredByPrefix(u.log, v.log, m, now, prev); }
      }
    }
  }

  // ---- what every step keeps ----------------------------------------------------------

  /** No active timer is due before the last pass, and each firing was by the gap of its own. */
  ghost predicate Prompt(w: World) {
    && AtRest(w) && w.samples != [] && w.samples[|w.samples| - 1] <= w.clock
    && NotBefore(w.slots, 0, w.samples[|w.samples| - 1], w.samples[|w.samples| - 1])
    && forall m :: 0 <= m < |w.log| && w.log[m].Fired? ==> LateByTheGap(w.log, w.samples, m)
  }

  lemma LatePrefix(log: seq<Event>, samples: seq<int>, more: seq<Event>, longer: seq<int>, m: nat)
    requires log <= more && samples <= longer && m < |log| && log[m].Fired? && LateByTheGap(log, samples, m)
    ensures LateByTheGap(more, longer, m)
  {
    hide FiredBy;
    var q :| 0 < q < |samples| && FiredBy(log, m, samples[q], samples[q - 1]);
    FiredByPrefix(log, more, m, samples[q], samples[q - 1]);
    assert longer[q] == samples[q] && longer[q - 1] == samples[q - 1];
  }

  lemma QuietPrompt(host: Host, w: World)
    requires Prompt(w)
    ensures Prompt(ReadClock(host, w)) && Prompt(w.(promise := Pending))
    ensures forall ms :: Prompt(Sleep(w, ms))
  {
    hide AtRest, NotBefore, LateByTheGap;
    ReadClockFollows(host, w);
    AnyPromise(w, Pending);
    forall ms ensures Prompt(Sleep(w, ms)) { SleepFollows(w, ms); }
  }

  lemma TurnPrompt(host: Host, w: World)
    requires Prompt(w)
    ensures Prompt(Turn(host, w))
  {
    hide Legal, At, SlotsWellFormed, Owned, Holds, NotBefore, LateByTheGap, Turn;
    var v := Turn(host, w);
    TurnFollows(host, w);
    TurnEffect(host, w);
    var p := w.samples[|w.samples| - 1];
    TurnNotBefore(host, w, 0, p, p);
    forall m | 0 <= m < |v.log| && v.log[m].Fired? ensures LateByTheGap(v.log, v.samples, m) {
      LatePrefix(w.log, w.samples, v.log, v.samples, m);
    }
  }

  lemma JobPrompt(host: Host, w: World)
    requires Prompt(w)
    ensures Prompt(ExecuteJob(host, w))
  {
    hide Legal, At, SlotsWellFormed, Owned, Holds, NotBefore, LateByTheGap, Turn;
    if w.jobs > 0 { TurnPrompt(host, w.(jobs := w.jobs - 1, jobsRun := w.jobsRun + 1)); }
  }

  lemma ProcessPrompt(host: Host, w: World)
    requires Prompt(w)
    ensures Prompt(ProcessTimers(host, w))
  {
    hide Legal, At, SlotsWellFormed, Owned, Holds, LateByTheGap, PassTo, FiredBy;
    var p := w.samples[|w.samples| - 1];
    var n := Sampled(host, w);
    var v := ProcessTimers(host, w);
    ReadClockFollows(host, w);
    ProcessFollows(host, w);
    PassTurns(host, n, n.clock, |n.slots|);
    PassFiredBy(host, n, n.clock, p, |n.slots|);
    forall m | 0 <= m < |v.log| && v.log[m].Fired? ensures LateByTheGap(v.log, v.samples, m) {
      if m < |w.log| {
        LatePrefix(w.log, w.samples, v.log, v.samples, m);
      } else {
        FiredInLastPass(v.log, v.samples, m);
      }
    }
  }

  lemma FiredInLastPass(log: seq<Event>, samples: seq<int>, m: nat)
    requires m < |log| && log[m].Fired? && |samples| > 1
    requires FiredBy(log, m, samples[|samples| - 1], samples[|samples| - 2])
    ensures LateByTheGap(log, samples, m)
  {
    hide FiredBy;
    var q := |samples| - 1;
    assert FiredBy(log, m, samples[q], samples[q - 1]);
  }

  lemma StepsKeepPrompt(host: Host)
    ensures StepsKeep(host, Prompt)
  {
    hide Prompt, ReadClock, Turn, ExecuteJob, ProcessTimers, Sleep;
    forall w | Prompt(w) ensures EachStepKeeps(host, Prompt, w) {
      QuietPrompt(host, w);
      TurnPrompt(host, w);
      JobPrompt(host, w);
      ProcessPrompt(host, w);
    }
  }

  // ---- whole runs ---------------------------------------------------------------------

  /** In any run, whenever any timer fires, some pass sampled the clock at that time, and the
      pass before it (or the creation of the engine) was no later than the due time: nothing
      is ever late by more than the gap between two passes. */
  lemma LateByAtMostTheGap(host: Host, clock: int, actions: seq<Action>, m: nat) returns (q: nat)
    requires m < |Execute(host, Fresh(clock), actions).log|
    requires Execute(host, Fresh(clock), actions).log[m].Fired?
    ensures var v := Execute(host, Fresh(clock), actions);
            && 0 < q < |v.samples| && v.log[m].at == v.samples[q] && v.log[m].id in At(v.log, m).live
            && v.samples[q - 1] <= At(v.log, m).live[v.log[m].id].due <= v.samples[q]
  {
    hide AtRest, NotBefore, Execute, Legal, At, Allowed, Apply, Holds;
    var v := Execute(host, Fresh(clock), actions);
    RunIsPrompt(host, clock, actions);
    assert LateByTheGap(v.log, v.samples, m);
    q :| 0 < q < |v.samples| && FiredBy(v.log, m, v.samples[q], v.samples[q - 1]);
    EveryRunRefines(host, clock, actions);
    StepAt(v.log, m);
    FiredWhenDue(At(v.log, m), v.log[m]);
  }

  lemma RunIsPrompt(host: Host, clock: int, actions: seq<Action>)
    ensures Prompt(Execute(host, Fresh(clock), actions))
  {
    hide AtRest, Execute;
    FreshIsValid(clock);
    StepsKeepPrompt(host);
    ExecuteKeeps(host, Prompt, Fresh(clock), actions);
  }

  /** In any run, an interval whose due time is not a whole number of delays after where it was
      (or after the time it was set) has lost its grid to a gap: it was fired by a pass that
      came more than a whole delay after the pass before. */
  lemma OffGridOnlyAfterAGap(host: Host, clock: int, actions: seq<Action>, id: int, j: nat, k: nat)
    returns (m: nat, q: nat)
    requires var log := Execute(host, Fresh(clock), actions).log;
             && j <= k <= |log| && At(log, j).phase.Resting?
             && id in At(log, k).live && At(log, k).live[id].repeat
             && At(log, k).live[id].due != PointSince(log, j, id, k)
    ensures var v := Execute(host, Fresh(clock), actions);
            && j <= m < k && 0 < q < |v.samples| && v.log[m] == Fired(id, v.samples[q])
            && v.samples[q] - v.samples[q - 1] > At(v.log, k).live[id].delay
  {
    hide Execute, Legal, At, Allowed, Apply, Holds, PointSince;
    var v := Execute(host, Fresh(clock), actions);
    EveryRunRefines(host, clock, actions);
    if Punctual(v.log, id, j, k) { NoDrift(v.log, id, j, k); }
    m :| j <= m < k && v.log[m].Fired? && v.log[m].id == id && id in At(v.log, m).live
         && v.log[m].at > At(v.log, m).live[id].due + At(v.log, m).live[id].delay;
    q := LateByAtMostTheGap(host, clock, actions, m);
    AlwaysSound(v.log, m);
    EntryKept(v.log, id, m, k);
  }
}
