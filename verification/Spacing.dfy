/** Intervals under regular passes: from any moment at which the intervals of delay `g` or more
    are not yet due, and for as long as the passes, whatever loops make them, are never more
    than `g` apart, each of them fires less than `g` late and does not drift. */
module Spacing {
  import opened TimerHistory
  import opened TimerTable
  import opened Intervals
  import opened Passes
  import opened EventLoop
  import opened Runs

  /** The slots hold no interval of delay `g` or more that is due by `p`: below slot `k`, by `q`. */
  predicate Ahead(slots: seq<Timer>, k: nat, q: int, p: int, g: nat) {
    forall i :: 0 <= i < |slots| && slots[i].active && slots[i].repeat && slots[i].delay >= g ==>
      slots[i].fireTime > if i < k then q else p
  }

  /** Every firing from the `j`-th event on of an interval of delay `g` or more was less than `g`
      late. */
  ghost predicate OnTimeSince(log: seq<Event>, j: nat, g: nat) {
    forall m :: j <= m < |log| && log[m].Fired? ==> OnTime(log, m, g)
  }

  ghost predicate OnTime(log: seq<Event>, m: nat, g: nat)
    requires m < |log| && log[m].Fired?
  {
    FiresInterval(log, m, g) ==> log[m].at < At(log, m).live[log[m].id].due + g
  }

  /** The m-th event is the firing of an interval of delay `g` or more. */
  ghost predicate FiresInterval(log: seq<Event>, m: nat, g: nat)
    requires m < |log|
  {
    log[m].Fired? && log[m].id in At(log, m).live
    && At(log, m).live[log[m].id].repeat && At(log, m).live[log[m].id].delay >= g
  }

  lemma OnTimePrefix(log: seq<Event>, more: seq<Event>, m: nat, g: nat)
    requires log <= more && m < |log| && log[m].Fired?
    ensures OnTime(more, m, g) <==> OnTime(log, m, g)
  {
    hide At;
    AtPrefix(log, more, m);
  }

  lemma OnTimeLonger(log: seq<Event>, more: seq<Event>, j: nat, g: nat)
    requires log <= more && OnTimeSince(log, j, g)
    requires forall m :: |log| <= m < |more| && more[m].Fired? ==> OnTime(more, m, g)
    ensures OnTimeSince(more, j, g)
  {
    hide OnTime;
    forall m | j <= m < |more| && more[m].Fired? ensures OnTime(more, m, g) {
      if m < |log| { OnTimePrefix(log, more, m, g); }
    }
  }

  // ---- turns and passes ---------------------------------------------------------------

  /** New timers are due a full delay after the clock. */
  lemma TurnAhead(host: Host, w: World, k: nat, q: int, p: int, g: nat)
    requires Ahead(w.slots, k, q, p, g) && g > 0 && p <= q <= w.clock
    ensures Ahead(Turn(host, w).slots, k, q, p, g)
  {
    hide Turn;
    TurnEffect(host, w);
  }

  lemma TurnOnTime(host: Host, w: World, j: nat, g: nat)
    requires OnTimeSince(w.log, j, g)
    ensures OnTimeSince(Turn(host, w).log, j, g)
  {
    hide Turn, OnTimeSince, OnTime;
    TurnEffect(host, w);
    OnTimeLonger(w.log, Turn(host, w).log, j, g);
  }

  lemma VisitAhead(host: Host, w: World, i: nat, now: int, prev: int, g: nat)
    requires AtRest(w) && i < |w.slots| && 0 < g && prev <= now <= w.clock && now - prev <= g
    requires Ahead(w.slots, i, now, prev, g)
    ensures Ahead(Visit(host, w, i, now).slots, i + 1, now, prev, g)
  {
    hide Turn, Legal, At, Owned, Holds, SlotsWellFormed;
    if Due(w.slots[i], now) {
      var c := w.(log := w.log + [Fired(w.slots[i].id, now)]);
      TurnAhead(host, c, i, now, prev, g);
      TurnEffect(host, c);
    }
  }

  lemma VisitOnTime(host: Host, w: World, i: nat, now: int, prev: int, j: nat, g: nat)
    requires AtRest(w) && i < |w.slots| && 0 < g && prev <= now <= w.clock && now - prev <= g
    requires Ahead(w.slots, i, now, prev, g) && OnTimeSince(w.log, j, g)
    ensures OnTimeSince(Visit(host, w, i, now).log, j, g)
  {
    hide Legal, At, Owned, SlotsWellFormed, Visit, OnTimeSince;
    var v := Visit(host, w, i, now);
    VisitKeepsValid(host, w, i, now);
    if Due(w.slots[i], now) {
      VisitFires(host, w, i, now);
      AtPrefix(w.log, v.log, |w.log|);
      assert OnTime(v.log, |w.log|, g);
      OnTimeLonger(w.log, v.log, j, g);
    } else {
      VisitOfNotDue(host, w, i, now);
    }
  }

  lemma {:induction false} PassAhead(host: Host, w: World, now: int, prev: int, j: nat, g: nat, k: nat)
    requires AtRest(w) && k <= |w.slots| && 0 < g && prev <= now <= w.clock && now - prev <= g
    requires Ahead(w.slots, 0, now, prev, g) && OnTimeSince(w.log, j, g)
    ensures var v := PassTo(host, w, now, k);
            Ahead(v.slots, k, now, prev, g) && OnTimeSince(v.log, j, g)
  {
    hide AtRest, Visit, Ahead, OnTimeSince;
    if k > 0 {
      var u := PassTo(host, w, now, k - 1);
      PassKeepsValid(host, w, now, k - 1);
      PassAhead(host, w, now, prev, j, g, k - 1);
      VisitAhead(host, u, k - 1, now, prev, g);
      VisitOnTime(host, u, k - 1, now, prev, j, g);
    }
  }

  // ---- what every step keeps ----------------------------------------------------------

  /** From the `n`-th sample on, each pass sampled the clock at most `g` after the one before,
      and the first of them at most `g` after `base`. */
  predicate Spaced(samples: seq<int>, n: nat, base: int, g: nat) {
    forall k :: n <= k < |samples| ==> samples[k] - (if k == n then base else samples[k - 1]) <= g
  }

  /** The last pass since then, or `base` if there was none. */
  function LastPass(samples: seq<int>, n: nat, base: int): int {
    if n < |samples| then samples[|samples| - 1] else base
  }

  /** Since `w` the passes were not spaced, or every firing was on time and the intervals are
      ahead of the last pass. */
  ghost predicate KeepsPace(w: World, v: World, g: nat) {
    && Follows(w, v) && LastPass(v.samples, |w.samples|, w.clock) <= v.clock
    && (Spaced(v.samples, |w.samples|, w.clock, g) ==>
          && Ahead(v.slots, 0, LastPass(v.samples, |w.samples|, w.clock), LastPass(v.samples, |w.samples|, w.clock), g)
          && OnTimeSince(v.log, |w.log|, g))
  }

  lemma ReadClockPace(host: Host, w: World, v: World, g: nat)
    requires KeepsPace(w, v, g)
    ensures KeepsPace(w, ReadClock(host, v), g) && KeepsPace(w, v.(promise := Pending), g)
    ensures forall ms :: KeepsPace(w, Sleep(v, ms), g)
  {
    hide AtRest, Ahead, OnTimeSince, Spaced, LastPass;
    ReadClockFollows(host, v);
    AnyPromise(v, Pending);
    forall ms ensures KeepsPace(w, Sleep(v, ms), g) { SleepFollows(v, ms); }
  }

  lemma TurnPace(host: Host, w: World, v: World, g: nat)
    requires KeepsPace(w, v, g) && 0 < g
    ensures KeepsPace(w, Turn(host, v), g)
  {
    hide AtRest, Ahead, OnTimeSince, Spaced, Turn, LastPass;
    var p := LastPass(v.samples, |w.samples|, w.clock);
    TurnFollows(host, v);
    TurnEffect(host, v);
    if Spaced(v.samples, |w.samples|, w.clock, g) {
      TurnAhead(host, v, 0, p, p, g);
      TurnOnTime(host, v, |w.log|, g);
    }
  }

  lemma JobPace(host: Host, w: World, v: World, g: nat)
    requires KeepsPace(w, v, g) && 0 < g
    ensures KeepsPace(w, ExecuteJob(host, v), g)
  {
    hide Legal, At, SlotsWellFormed, Owned, Holds, Ahead, OnTimeSince, Spaced, Turn, LastPass;
    if v.jobs > 0 { TurnPace(host, w, v.(jobs := v.jobs - 1, jobsRun := v.jobsRun + 1), g); }
  }

  lemma ProcessPace(host: Host, w: World, v: World, g: nat)
    requires KeepsPace(w, v, g) && 0 < g
    ensures KeepsPace(w, ProcessTimers(host, v), g)
  {
    hide Legal, At, SlotsWellFormed, Owned, Holds, PassTo, Ahead, OnTimeSince;
    var p := LastPass(v.samples, |w.samples|, w.clock);
    var n := Sampled(host, v);
    var x := ProcessTimers(host, v);
    ReadClockFollows(host, v);
    ProcessFollows(host, v);
    PassTurns(host, n, n.clock, |n.slots|);
    if Spaced(x.samples, |w.samples|, w.clock, g) {
      SpacedPrefix(v.samples, n.clock, |w.samples|, w.clock, g);
      AheadLater(v.slots, n.clock, p, g);
      PassAhead(host, n, n.clock, p, |w.log|, g, |n.slots|);
      AheadAll(x.slots, n.clock, p, g);
    }
  }

  lemma SpacedPrefix(samples: seq<int>, now: int, n: nat, base: int, g: nat)
    requires n <= |samples| && Spaced(samples + [now], n, base, g)
    ensures Spaced(samples, n, base, g) && now - LastPass(samples, n, base) <= g
  {
    var more := samples + [now];
    assert more[..|samples|] == samples && more[|samples|] == now;
    assert |samples| > 0 ==> more[|samples| - 1] == samples[|samples| - 1];
    forall k | n <= k < |samples|
      ensures samples[k] - (if k == n then base else samples[k - 1]) <= g
    {
      assert more[k] == samples[k] && (k > 0 ==> more[k - 1] == samples[k - 1]);
    }
  }

  /** Below slot 0 there is nothing, and below the last slot there is everything. */
  lemma AheadLater(slots: seq<Timer>, q: int, p: int, g: nat)
    requires Ahead(slots, 0, p, p, g)
    ensures Ahead(slots, 0, q, p, g)
  {
  }

  lemma AheadAll(slots: seq<Timer>, q: int, p: int, g: nat)
    requires Ahead(slots, |slots|, q, p, g)
    ensures Ahead(slots, 0, q, q, g)
  {
  }

  lemma StepsKeepPace(host: Host, w: World, g: nat)
    requires 0 < g
    ensures StepsKeep(host, v => KeepsPace(w, v, g))
  {
    hide KeepsPace, ReadClock, Turn, ExecuteJob, ProcessTimers, Sleep;
    var P := v => KeepsPace(w, v, g);
    forall v | P(v) ensures EachStepKeeps(host, P, v) {
      ReadClockPace(host, w, v, g);
      TurnPace(host, w, v, g);
      JobPace(host, w, v, g);
      ProcessPace(host, w, v, g);
    }
  }

  // ---- whole runs ---------------------------------------------------------------------

  lemma RunKeepsPace(host: Host, w: World, actions: seq<Action>, g: nat)
    requires AtRest(w) && 0 < g && Ahead(w.slots, 0, w.clock, w.clock, g)
    ensures KeepsPace(w, Execute(host, w, actions), g)
  {
    hide AtRest, Ahead, Execute, OnTime;
    StepsKeepPace(host, w, g);
    ExecuteKeeps(host, v => KeepsPace(w, v, g), w, actions);
  }

  /** It comes where it belongs, seen from the `j`-th event, or less than `g` after it. */
  ghost predicate FiresOnPoint(log: seq<Event>, j: nat, m: nat, g: nat)
    requires j <= m < |log| && FiresInterval(log, m, g)
  {
    var p := PointSince(log, j, log[m].id, m);
    p <= log[m].at < p + g
  }

  ghost predicate LiveInterval(log: seq<Event>, id: int, g: nat) {
    id in Now(log).live && Now(log).live[id].repeat && Now(log).live[id].delay >= g
  }

  /** No drift under regular passes, from any reached moment `w` at which no interval of delay
      `g` or more is due, whatever happened before. If from then on no two passes, in whichever
      loop, are more than `g` apart, then every firing of such an interval comes where it
      belongs or less than `g` after it, whatever becomes of the interval later, and those that
      are live are due where they belong: a whole number of delays after their due time at `w`,
      or after the time they were set if that was later. */
  lemma RegularPassesDoNotDrift(host: Host, clock: int, before: seq<Action>, actions: seq<Action>, g: nat)
    requires var w := Execute(host, Fresh(clock), before);
             && 0 < g && Ahead(w.slots, 0, w.clock, w.clock, g)
             && Spaced(Execute(host, w, actions).samples, |w.samples|, w.clock, g)
    ensures var w := Execute(host, Fresh(clock), before);
            var log := Execute(host, w, actions).log;
            && w.log <= log
            && (forall m :: |w.log| <= m < |log| && FiresInterval(log, m, g) ==>
                  FiresOnPoint(log, |w.log|, m, g))
            && (forall id :: LiveInterval(log, id, g) ==>
                  Now(log).live[id].due == PointSince(log, |w.log|, id, |log|))
  {
    hide Legal, At, Owned, SlotsWellFormed, Holds, Execute, Ahead, Spaced, PointSince, OnTime;
    hide FiresInterval, FiresOnPoint;
    FreshIsValid(clock);
    ExecuteFollows(host, Fresh(clock), before);
    var w := Execute(host, Fresh(clock), before);
    var v := Execute(host, w, actions);
    var j := |w.log|;
    RunKeepsPace(host, w, actions, g);
    AtPrefix(w.log, v.log, j);
    forall m | j <= m < |v.log| && FiresInterval(v.log, m, g) ensures FiresOnPoint(v.log, j, m, g) {
      PunctualFiring(v.log, j, m, g);
    }
    forall id | LiveInterval(v.log, id, g) ensures Now(v.log).live[id].due == PointSince(v.log, j, id, |v.log|) {
      PunctualId(v.log, id, j, |v.log|, g);
      NoDrift(v.log, id, j, |v.log|);
    }
  }

  lemma PunctualFiring(log: seq<Event>, j: nat, m: nat, g: nat)
    requires Legal(log) && j <= m < |log| && At(log, j).phase.Resting? && FiresInterval(log, m, g)
    requires OnTimeSince(log, j, g)
    ensures FiresOnPoint(log, j, m, g)
  {
    hide Legal, At, Allowed, Apply, PointSince;
    var id := log[m].id;
    StepAt(log, m);
    FiredWhenDue(At(log, m), log[m]);
    PunctualId(log, id, j, m, g);
    NoDrift(log, id, j, m);
    assert OnTime(log, m, g);
  }

  /** Less than `g` late is no more than a delay late. */
  lemma PunctualId(log: seq<Event>, id: int, j: nat, k: nat, g: nat)
    requires Legal(log) && k <= |log| && id in At(log, k).live && OnTimeSince(log, j, g)
    requires At(log, k).live[id].repeat && At(log, k).live[id].delay >= g
    ensures Punctual(log, id, j, k)
  {
    hide Legal, At, Allowed, Apply;
    forall i | j <= i < k && log[i].Fired? && log[i].id == id && id in At(log, i).live
      ensures log[i].at <= At(log, i).live[id].due + At(log, i).live[id].delay
    {
      AlwaysSound(log, i);
      EntryKept(log, id, i, k);
      assert OnTime(log, i, g);
    }
  }
}
