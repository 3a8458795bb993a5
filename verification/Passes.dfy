/** What one pass over the table does, when every callback may set and clear any timer. */
module Passes {
  import opened Options
  import opened TimerHistory
  import opened TimerTable
  import opened Intervals

  // ---- what a callback can do ---------------------------------------------------------

  /** Running JavaScript only sets and clears timers; it never fires, rearms or retires one. */
  ghost predicate OnlySetsAndClears(w: World, v: World) {
    w.log <= v.log && forall m :: |w.log| <= m < |v.log| ==> v.log[m].Set? || v.log[m].Cleared?
  }

  /** An active slot holds what it held before, or a timer set since, at or after the time
      the clock showed. */
  ghost predicate OldOrNew(w: World, v: World) {
    && |v.slots| == |w.slots| && w.clock <= v.clock
    && forall i :: 0 <= i < |w.slots| && v.slots[i].active ==>
         v.slots[i] == w.slots[i] || v.slots[i].fireTime >= w.clock + v.slots[i].delay
  }

  lemma {:induction false} RunEffect(host: Host, w: World, ops: seq<Op>)
    ensures OnlySetsAndClears(w, Run(host, w, ops)) && OldOrNew(w, Run(host, w, ops))
    ensures Run(host, w, ops).turns == w.turns && Run(host, w, ops).samples == w.samples
  {
    if ops != [] {
      var u := Run(host, w, ops[..|ops| - 1]);
      RunEffect(host, w, ops[..|ops| - 1]);
      StepEffect(host, u, ops[|ops| - 1]);
    }
  }

  lemma StepEffect(host: Host, w: World, op: Op)
    ensures OnlySetsAndClears(w, Step(host, w, op)) && OldOrNew(w, Step(host, w, op))
    ensures Step(host, w, op).turns == w.turns && Step(host, w, op).samples == w.samples
  {
  }

  lemma TurnEffect(host: Host, w: World)
    ensures OnlySetsAndClears(w, Turn(host, w)) && OldOrNew(w, Turn(host, w))
    ensures Turn(host, w).turns == w.turns + 1 && Turn(host, w).samples == w.samples
  {
    hide Run;
    RunEffect(host, w.(turns := w.turns + 1), host.script(w.turns));
  }

  // ---- one timer through other slots' visits ------------------------------------------

  predicate Named(e: Event, id: int) {
    (e.Fired? || e.Rearmed? || e.Retired?) && e.id == id
  }

  ghost predicate Unnamed(w: World, v: World, id: int) {
    w.log <= v.log && forall m :: |w.log| <= m < |v.log| ==> !Named(v.log[m], id)
  }

  /** Between `w` and `v`, the timer in slot `i` at `w` was left alone or cleared. */
  ghost predicate LeftAlone(w: World, v: World, i: nat)
    requires i < |w.slots|
  {
    && Unnamed(w, v, w.slots[i].id) && |v.slots| == |w.slots|
    && (w.slots[i].id in Now(v.log).live <==> Cleared(w.slots[i].id) !in v.log[|w.log|..])
    && (w.slots[i].id in Now(v.log).live ==> v.slots[i] == w.slots[i])
  }

  /** A timer that was in slot `i`, and is live, is in slot `i`. */
  lemma StillThere(w: World, v: World, i: nat)
    requires Valid(w) && Valid(v) && w.log <= v.log && i < |w.slots| && w.slots[i].active
    ensures 0 <= w.slots[i].id < Now(w.log).issued && w.slots[i].id in Now(w.log).live
    ensures w.slots[i].id in Now(v.log).live ==> v.slots[i].active && v.slots[i].id == w.slots[i].id
  {
    hide Legal, At, Allowed, Apply, Owned;
    var id := w.slots[i].id;
    AlwaysSound(w.log, |w.log|);
    AtPrefix(w.log, v.log, |w.log|);
    if id in Now(v.log).live { EntryKept(v.log, id, |w.log|, |v.log|); }
  }

  /** A live id that is not live later was cleared, if nothing named it in between. */
  lemma GoneMeansCleared(w: World, v: World, id: int)
    requires Valid(w) && Valid(v) && Unnamed(w, v, id) && id in Now(w.log).live
    ensures id in Now(v.log).live <==> Cleared(id) !in v.log[|w.log|..]
  {
    hide Allowed, Apply, SlotsWellFormed, Owned, Holds;
    var ext := v.log[|w.log|..];
    AtPrefix(w.log, v.log, |w.log|);
    if id !in Now(v.log).live {
      var m := LeftAt(v.log, id, |w.log|, |v.log|);
      assert ext[m - |w.log|] == Cleared(id);
    }
    if Cleared(id) in ext {
      var j :| 0 <= j < |ext| && ext[j] == Cleared(id);
      var m := |w.log| + j;
      AlwaysSound(v.log, m);
      StepAt(v.log, m);
      StepNames(At(v.log, m), v.log[m]);
      StepId(At(v.log, m), v.log[m], id);
      Issued(v.log, m, m + 1);
      GoneForever(v.log, id, m + 1, |v.log|);
    }
  }

  /** Being left alone composes. */
  lemma LeftAloneThen(w: World, u: World, v: World, i: nat)
    requires Valid(w) && Valid(u) && Valid(v) && i < |w.slots| && w.slots[i].active
    requires LeftAlone(w, u, i) && u.log <= v.log && |v.slots| == |w.slots|
    requires w.slots[i].id in Now(u.log).live ==> LeftAlone(u, v, i)
    ensures LeftAlone(w, v, i)
  {
    hide Legal, At, Allowed, Apply, SlotsWellFormed, Owned, Holds;
    var id := w.slots[i].id;
    StillThere(w, u, i);
    AtPrefix(u.log, v.log, |u.log|);
    if id !in Now(u.log).live { NeverNamedAgain(w, u, v, id); }
    GoneMeansCleared(w, v, id);
  }

  lemma NeverNamedAgain(w: World, u: World, v: World, id: int)
    requires Valid(w) && Valid(u) && Valid(v) && w.log <= u.log && u.log <= v.log
    requires 0 <= id < Now(w.log).issued && id !in Now(u.log).live
    ensures Unnamed(u, v, id) && id !in Now(v.log).live
  {
    hide At, Allowed, Apply, SlotsWellFormed, Owned, Holds;
    AtPrefix(w.log, v.log, |w.log|);
    AtPrefix(u.log, v.log, |u.log|);
    Issued(v.log, |w.log|, |u.log|);
    forall m | |u.log| <= m < |v.log| ensures !Named(v.log[m], id) {
      GoneForever(v.log, id, |u.log|, m);
    }
    GoneForever(v.log, id, |u.log|, |v.log|);
  }

  /** The event that follows a call names nothing but the timer in the called slot. */
  lemma AfterCallEffect(w: World, i: nat, now: int)
    requires i < |w.slots|
    ensures var v := AfterCall(w, i, now);
            && v.log == w.log + [v.log[|w.log|]]
            && !v.log[|w.log|].Fired? && !v.log[|w.log|].Set? && !v.log[|w.log|].Cleared?
            && (v.log[|w.log|].Vacated? || (w.slots[i].active && v.log[|w.log|].id == w.slots[i].id))
            && v.turns == w.turns && v.clock == w.clock && v.samples == w.samples
            && forall j :: 0 <= j < |w.slots| && j != i ==> v.slots[j] == w.slots[j]
  {
  }

  /** A visit of one slot leaves the timer in any other slot alone, or its callback clears it. */
  lemma VisitOther(host: Host, w: World, j: nat, now: int, i: nat)
    requires AtRest(w) && now <= w.clock && j < |w.slots| && i < |w.slots| && i != j && w.slots[i].active
    ensures LeftAlone(w, Visit(host, w, j, now), i)
  {
    hide Legal, At, Allowed, Apply, SlotsWellFormed, Owned, Turn, AfterCall, Holds;
    var v := Visit(host, w, j, now);
    var id := w.slots[i].id;
    VisitKeepsValid(host, w, j, now);
    StillThere(w, v, i);
    StillThere(w, w, i);
    assert v.log == w.log ==> v.log[|w.log|..] == [];
    if Due(w.slots[j], now) {
      var c := w.(log := w.log + [Fired(w.slots[j].id, now)]);
      var u := Turn(host, c);
      FiringKeepsValid(w, j, now);
      TurnKeepsValid(host, c);
      TurnEffect(host, c);
      AfterCallEffect(u, j, now);
      StillThere(c, u, i);
      DistinctIds(w, i, j);
      if u.slots[j].active { DistinctIdsLater(c, u, i, j); }
      GoneMeansCleared(w, v, id);
      if id in Now(v.log).live { ClearedStaysCleared(c, u, v, id); SlotKept(host, c, i); }
    }
  }

  lemma DistinctIds(w: World, i: nat, j: nat)
    requires Valid(w) && i < |w.slots| && j < |w.slots| && i != j && w.slots[i].active && w.slots[j].active
    ensures w.slots[i].id != w.slots[j].id
  {
    hide Legal, At, SlotsWellFormed, Owned;
  }

  lemma DistinctIdsLater(w: World, v: World, i: nat, j: nat)
    requires Valid(w) && Valid(v) && w.log <= v.log && i < |w.slots| && j < |v.slots| && i != j
    requires w.slots[i].active && v.slots[j].active && |w.slots| == |v.slots|
    ensures w.slots[i].id != v.slots[j].id
  {
    hide Legal, At, SlotsWellFormed, Owned;
    StillThere(w, v, i);
  }

  lemma ClearedStaysCleared(w: World, u: World, v: World, id: int)
    requires Valid(w) && Valid(u) && Valid(v) && w.log <= u.log && u.log <= v.log
    requires 0 <= id < Now(w.log).issued && id in Now(v.log).live
    ensures id in Now(u.log).live
  {
    hide At, Allowed, Apply, SlotsWellFormed, Owned, Holds;
    if id !in Now(u.log).live { NeverNamedAgain(w, u, v, id); }
  }

  /** A timer that is still live after a turn of JavaScript is as it was. */
  lemma SlotKept(host: Host, w: World, i: nat)
    requires Valid(w) && i < |w.slots| && w.slots[i].active
    requires Valid(Turn(host, w)) && w.slots[i].id in Now(Turn(host, w).log).live
    ensures |Turn(host, w).slots| == |w.slots| && Turn(host, w).slots[i] == w.slots[i]
  {
    hide Run, SlotsWellFormed, Legal, At, Holds, Owned;
    RunKeepsSlot(host, w.(turns := w.turns + 1), host.script(w.turns), i);
  }

  lemma {:induction false} RunKeepsSlot(host: Host, w: World, ops: seq<Op>, i: nat)
    requires Valid(w) && i < |w.slots| && w.slots[i].active
    requires w.slots[i].id in Now(Run(host, w, ops).log).live
    ensures |Run(host, w, ops).slots| == |w.slots| && Run(host, w, ops).slots[i] == w.slots[i]
  {
    hide At, Legal, Holds, SlotsWellFormed, Owned, Step;
    if ops != [] {
      var before := ops[..|ops| - 1];
      var u := Run(host, w, before);
      RunKeepsValid(host, w, before);
      RunKeepsValid(host, w, ops);
      StepKeepsValid(host, u, ops[|ops| - 1]);
      StillThere(w, u, i);
      ClearedStaysCleared(w, u, Run(host, w, ops), w.slots[i].id);
      RunKeepsSlot(host, w, before, i);
      StepKeepsSlot(host, u, ops[|ops| - 1], i);
      StillThere(u, Run(host, w, ops), i);
    }
  }

  lemma StepKeepsSlot(host: Host, w: World, op: Op, i: nat)
    requires i < |w.slots| && w.slots[i].active
    ensures var v := Step(host, w, op);
            |v.slots| == |w.slots| && (v.slots[i] == w.slots[i] || !v.slots[i].active)
  {
  }

  // ---- the whole pass -----------------------------------------------------------------

  /** Until its slot is reached, a timer is left alone or cleared. */
  lemma {:induction false} BeforeItsSlot(host: Host, w: World, now: int, k: nat, i: nat)
    requires AtRest(w) && now <= w.clock && k <= i < |w.slots| && w.slots[i].active
    ensures LeftAlone(w, PassTo(host, w, now, k), i)
  {
    hide Legal, At, Allowed, Apply, SlotsWellFormed, Owned, Visit, Holds;
    StillThere(w, w, i);
    if k == 0 {
      assert w.log[|w.log|..] == [];
    } else {
      var u := PassTo(host, w, now, k - 1);
      PassKeepsValid(host, w, now, k - 1);
      PassKeepsValid(host, w, now, k);
      BeforeItsSlot(host, w, now, k - 1, i);
      StillThere(w, u, i);
      if w.slots[i].id in Now(u.log).live { VisitOther(host, u, k - 1, now, i); }
      else { VisitKeepsValid(host, u, k - 1, now); }
      LeftAloneThen(w, u, PassTo(host, w, now, k), i);
    }
  }

  /** Once its slot has been visited, a timer is not named again in the same pass. */
  lemma {:induction false} AfterItsSlot(host: Host, w: World, now: int, k: nat, i: nat, id: int)
    requires AtRest(w) && now <= w.clock && i < k <= |w.slots|
    requires var u := PassTo(host, w, now, i + 1);
             0 <= id < Now(u.log).issued
             && (id in Now(u.log).live ==> u.slots[i].active && u.slots[i].id == id)
    ensures var u := PassTo(host, w, now, i + 1);
            var v := PassTo(host, w, now, k);
            && Unnamed(u, v, id)
            && (id in Now(v.log).live ==> id in Now(u.log).live && v.slots[i] == u.slots[i])
    decreases k
  {
    hide Legal, At, Allowed, Apply, SlotsWellFormed, Owned, Visit, Holds;
    var u := PassTo(host, w, now, i + 1);
    PassKeepsValid(host, w, now, i + 1);
    if i + 1 < k {
      var t := PassTo(host, w, now, k - 1);
      var v := PassTo(host, w, now, k);
      PassKeepsValid(host, w, now, k - 1);
      PassKeepsValid(host, w, now, k);
      AfterItsSlot(host, w, now, k - 1, i, id);
      VisitKeepsValid(host, t, k - 1, now);
      IssuedGrows(u, t);
      if id in Now(t.log).live {
        StillThere(u, t, i);
        VisitOther(host, t, k - 1, now, i);
      } else {
        NeverNamedAgain(t, t, v, id);
      }
    }
  }

  lemma IssuedGrows(u: World, t: World)
    requires Valid(u) && Valid(t) && u.log <= t.log
    ensures Now(u.log).issued <= Now(t.log).issued
  {
    hide At, Allowed, Apply, SlotsWellFormed, Owned, Holds;
    AtPrefix(u.log, t.log, |u.log|);
    Issued(t.log, |u.log|, |t.log|);
  }

  /** A visit of a timer's own slot fires it if it is due, and once. */
  lemma VisitFires(host: Host, w: World, i: nat, now: int)
    requires AtRest(w) && now <= w.clock && i < |w.slots| && Due(w.slots[i], now)
    ensures var v := Visit(host, w, i, now);
            var id := w.slots[i].id;
            && |w.log| < |v.log| && v.log[|w.log|] == Fired(id, now)
            && (forall m :: |w.log| < m < |v.log| ==> !v.log[m].Fired?)
            && (id in Now(v.log).live ==> v.slots[i].active && v.slots[i].id == id)
            && v.turns == w.turns + 1
  {
    hide Legal, At, Allowed, Apply, SlotsWellFormed, Owned, Turn, AfterCall, Holds;
    var v := Visit(host, w, i, now);
    var c := w.(log := w.log + [Fired(w.slots[i].id, now)]);
    var u := Turn(host, c);
    FiringKeepsValid(w, i, now);
    TurnKeepsValid(host, c);
    TurnEffect(host, c);
    AfterCallEffect(u, i, now);
    VisitKeepsValid(host, w, i, now);
    StillThere(w, v, i);
  }

  lemma {:induction false} CountUnnamed(log: seq<Event>, id: int, j: nat, k: nat)
    requires j <= k <= |log|
    requires forall m :: j <= m < k ==> !(log[m].Fired? && log[m].id == id)
    ensures Firings(log, id, k) == Firings(log, id, j)
    decreases k
  {
    if j < k { CountUnnamed(log, id, j, k - 1); }
  }

  lemma {:induction false} CountPrefix(log: seq<Event>, more: seq<Event>, id: int, k: nat)
    requires log <= more && k <= |log|
    ensures Firings(more, id, k) == Firings(log, id, k)
  {
    if k > 0 { CountPrefix(log, more, id, k - 1); }
  }

  /** How often `id` fired between two worlds. */
  ghost function FiredBetween(w: World, v: World, id: int): int {
    Firings(v.log, id, |v.log|) - Firings(w.log, id, |w.log|)
  }

  lemma FiredBetweenAdds(w: World, u: World, v: World, id: int)
    ensures FiredBetween(w, v, id) == FiredBetween(w, u, id) + FiredBetween(u, v, id)
  {
  }

  lemma UnnamedNotFired(w: World, v: World, id: int)
    requires Unnamed(w, v, id)
    ensures FiredBetween(w, v, id) == 0
  {
    CountPrefix(w.log, v.log, id, |w.log|);
    CountUnnamed(v.log, id, |w.log|, |v.log|);
  }

  lemma VisitFiresOnce(host: Host, w: World, i: nat, now: int)
    requires AtRest(w) && now <= w.clock && i < |w.slots| && Due(w.slots[i], now)
    ensures FiredBetween(w, Visit(host, w, i, now), w.slots[i].id) == 1
  {
    hide Legal, At, SlotsWellFormed, Owned, Visit, Holds;
    var v := Visit(host, w, i, now);
    var id := w.slots[i].id;
    VisitKeepsValid(host, w, i, now);
    VisitFires(host, w, i, now);
    CountPrefix(w.log, v.log, id, |w.log|);
    CountUnnamed(v.log, id, |w.log| + 1, |v.log|);
  }

  /** The pass specification. A timer active when the pass starts fires exactly once in it if
      it was due at the pass's sample of the clock and had not been cleared when its slot was
      reached, and does not fire otherwise. */
  lemma PassFires(host: Host, w: World, now: int, i: nat)
    requires AtRest(w) && now <= w.clock && i < |w.slots| && w.slots[i].active
    ensures var reached := PassTo(host, w, now, i);
            && w.log <= reached.log
            && FiredBetween(w, Pass(host, w, now), w.slots[i].id)
               == Bit(w.slots[i].fireTime <= now && Cleared(w.slots[i].id) !in reached.log[|w.log|..])
  {
    hide Legal, At, Allowed, Apply, SlotsWellFormed, Owned, Visit, Holds;
    var id := w.slots[i].id;
    var u := PassTo(host, w, now, i);
    var x := PassTo(host, w, now, i + 1);
    var v := Pass(host, w, now);
    PassKeepsValid(host, w, now, i);
    PassKeepsValid(host, w, now, i + 1);
    BeforeItsSlot(host, w, now, i, i);
    UnnamedNotFired(w, u, id);
    StillThere(w, u, i);
    IssuedGrows(w, u);
    VisitKeepsValid(host, u, i, now);
    IssuedGrows(u, x);
    if id in Now(u.log).live && Due(u.slots[i], now) {
      VisitFires(host, u, i, now);
      VisitFiresOnce(host, u, i, now);
    } else {
      VisitOfIdle(host, u, i, now, id);
      UnnamedNotFired(u, x, id);
    }
    FiredBetweenAdds(w, u, x, id);
    AfterItsSlot(host, w, now, |w.slots|, i, id);
    UnnamedNotFired(x, v, id);
    FiredBetweenAdds(w, x, v, id);
  }

  /** What a visit leaves of the timer that it fires: nothing of a one-shot, or of a timer that
      was cleared; of an interval, everything but the due time, which is one delay later, or
      the pass's own sample if that is past. */
  lemma VisitLeaves(host: Host, w: World, i: nat, now: int)
    requires AtRest(w) && now <= w.clock && i < |w.slots| && Due(w.slots[i], now)
    ensures var v := Visit(host, w, i, now);
            var t := w.slots[i];
            && w.log <= v.log && |v.slots| == |w.slots|
            && (t.id in Now(v.log).live <==> t.repeat && Cleared(t.id) !in v.log[|w.log|..])
            && (t.id in Now(v.log).live ==> v.slots[i] == AfterFiring(t, now))
  {
    hide Legal, At, Allowed, Apply, SlotsWellFormed, Owned, Turn, Holds;
    var t := w.slots[i];
    var c := w.(log := w.log + [Fired(t.id, now)]);
    var u := Turn(host, c);
    var v := Visit(host, w, i, now);
    FiringKeepsValid(w, i, now);
    TurnKeepsValid(host, c);
    TurnEffect(host, c);
    VisitKeepsValid(host, w, i, now);
    StillThere(c, u, i);
    GoneMeansCleared(c, u, t.id);
    VisitLog(w, c, u, v, t.id, now);
    if t.id in Now(u.log).live {
      SlotKept(host, c, i);
      StillThere(w, v, i);
      if t.repeat { ActiveIsLive(v, i); }
    } else {
      NeverNamedAgain(c, u, v, t.id);
    }
  }

  function AfterFiring(t: Timer, now: int): Timer {
    t.(fireTime := if t.fireTime + t.delay < now then now else t.fireTime + t.delay)
  }

  /** The event that ends a call clears nothing. */
  lemma VisitLog(w: World, c: World, u: World, v: World, id: int, now: int)
    requires c.log == w.log + [Fired(id, now)] && c.log <= u.log && |v.log| == |u.log| + 1 && u.log <= v.log
    requires !v.log[|u.log|].Cleared?
    ensures Cleared(id) in u.log[|c.log|..] <==> Cleared(id) in v.log[|w.log|..]
  {
    assert v.log[|w.log|..] == [Fired(id, now)] + u.log[|c.log|..] + [v.log[|u.log|]];
  }

  /** The pass specification, on the table: what a pass leaves of a timer that was active when it
      began. It is still live if and only if no callback of the pass cleared it and it is not a
      one-shot that was due; and then it is in its slot as it was, but for the due time of an
      interval that was due. */
  lemma PassLeaves(host: Host, w: World, now: int, i: nat)
    requires AtRest(w) && now <= w.clock && i < |w.slots| && w.slots[i].active
    ensures var v := Pass(host, w, now);
            var t := w.slots[i];
            && w.log <= v.log && |v.slots| == |w.slots|
            && (t.id in Now(v.log).live <==> Cleared(t.id) !in v.log[|w.log|..] && (t.repeat || t.fireTime > now))
            && (t.id in Now(v.log).live ==> v.slots[i] == if t.fireTime <= now then AfterFiring(t, now) else t)
  {
    hide Legal, At, Allowed, Apply, SlotsWellFormed, Owned, Visit, Holds, AfterFiring;
    var id := w.slots[i].id;
    var u := PassTo(host, w, now, i);
    var x := PassTo(host, w, now, i + 1);
    var v := Pass(host, w, now);
    PassKeepsValid(host, w, now, i);
    PassKeepsValid(host, w, now, i + 1);
    PassKeepsValid(host, w, now, |w.slots|);
    BeforeItsSlot(host, w, now, i, i);
    StillThere(w, u, i);
    IssuedGrows(w, u);
    VisitKeepsValid(host, u, i, now);
    IssuedGrows(u, x);
    if id in Now(u.log).live && Due(u.slots[i], now) {
      VisitFires(host, u, i, now);
      VisitLeaves(host, u, i, now);
    } else {
      VisitOfIdle(host, u, i, now, id);
    }
    AfterItsSlot(host, w, now, |w.slots|, i, id);
    PassIsPrefix(host, w, now, i + 1, |w.slots|);
    LiveThrough(w, u, x, v, id);
    if id in Now(u.log).live && !Due(u.slots[i], now) { VisitOfNotDue(host, u, i, now); }
    if id in Now(x.log).live { GoneMeansCleared(x, v, id); }
    else { NeverNamedAgain(x, x, v, id); }
    if id !in Now(u.log).live { NeverNamedAgain(u, u, x, id); }
  }

  lemma {:induction false} PassIsPrefix(host: Host, w: World, now: int, j: nat, k: nat)
    requires AtRest(w) && now <= w.clock && j <= k <= |w.slots|
    ensures PassTo(host, w, now, j).log <= PassTo(host, w, now, k).log
    decreases k
  {
    hide AtRest, Visit;
    if j < k {
      PassIsPrefix(host, w, now, j, k - 1);
      PassKeepsValid(host, w, now, k - 1);
      VisitKeepsValid(host, PassTo(host, w, now, k - 1), k - 1, now);
    }
  }

  /** The clearings since `w` are those in each of three stretches. */
  lemma LiveThrough(w: World, u: World, x: World, v: World, id: int)
    requires w.log <= u.log && u.log <= x.log && x.log <= v.log
    ensures Cleared(id) in v.log[|w.log|..] <==>
              || Cleared(id) in u.log[|w.log|..] || Cleared(id) in x.log[|u.log|..] || Cleared(id) in v.log[|x.log|..]
  {
    assert v.log[|w.log|..] == u.log[|w.log|..] + x.log[|u.log|..] + v.log[|x.log|..];
  }

  /** A visit does not fire an id that is gone, or that is in the slot but not due. */
  lemma VisitOfIdle(host: Host, w: World, i: nat, now: int, id: int)
    requires AtRest(w) && now <= w.clock && i < |w.slots| && 0 <= id < Now(w.log).issued
    requires id in Now(w.log).live ==> w.slots[i].active && w.slots[i].id == id && !Due(w.slots[i], now)
    ensures var v := Visit(host, w, i, now);
            && Unnamed(w, v, id)
            && (id in Now(v.log).live ==> v.slots[i].active && v.slots[i].id == id)
  {
    hide Legal, At, Allowed, Apply, SlotsWellFormed, Owned, Turn, AfterCall, Holds;
    VisitKeepsValid(host, w, i, now);
    if id !in Now(w.log).live {
      NeverNamedAgain(w, w, Visit(host, w, i, now), id);
    }
  }

  /** If a timer fires in a pass, every timer due no later fires in the same pass, unless a
      callback of the pass had cleared it by the time its slot was reached. */
  lemma EarlierDueNotSkipped(host: Host, w: World, now: int, i: nat, j: nat)
    requires AtRest(w) && now <= w.clock && i < |w.slots| && j < |w.slots|
    requires w.slots[i].active && w.slots[j].active && w.slots[i].fireTime <= w.slots[j].fireTime
    requires FiredBetween(w, Pass(host, w, now), w.slots[j].id) > 0
    ensures w.log <= PassTo(host, w, now, i).log
    ensures || FiredBetween(w, Pass(host, w, now), w.slots[i].id) == 1
            || Cleared(w.slots[i].id) in PassTo(host, w, now, i).log[|w.log|..]
  {
    hide Legal, At, Pass, SlotsWellFormed, Owned, PassTo, Holds;
    PassFires(host, w, now, i);
    PassFires(host, w, now, j);
  }

  /** No timer, not even one set during the pass, fires twice in one pass. */
  lemma {:induction false} AtMostOnceAPass(host: Host, w: World, now: int, k: nat, id: int)
    requires AtRest(w) && now <= w.clock && k <= |w.slots|
    ensures var v := PassTo(host, w, now, k);
            && 0 <= FiredBetween(w, v, id) <= 1
            && (FiredBetween(w, v, id) == 1 ==>
                  && 0 <= id < Now(v.log).issued
                  && (id in Now(v.log).live ==> Now(v.log).live[id].slot < k))
  {
    hide Legal, At, Allowed, Apply, SlotsWellFormed, Owned, Visit;
    if k > 0 {
      var u := PassTo(host, w, now, k - 1);
      var v := PassTo(host, w, now, k);
      PassKeepsValid(host, w, now, k - 1);
      AtMostOnceAPass(host, w, now, k - 1, id);
      VisitKeepsValid(host, u, k - 1, now);
      FiredBetweenAdds(w, u, v, id);
      IssuedGrows(u, v);
      VisitFiresAtMost(host, u, k - 1, now, id);
      if FiredBetween(w, u, id) == 1 && id in Now(v.log).live {
        AtPrefix(u.log, v.log, |u.log|);
        EntryKept(v.log, id, |u.log|, |v.log|);
      }
    }
  }

  /** A visit fires only what is in its slot. */
  lemma VisitFiresAtMost(host: Host, w: World, i: nat, now: int, id: int)
    requires AtRest(w) && now <= w.clock && i < |w.slots|
    ensures var v := Visit(host, w, i, now);
            if Due(w.slots[i], now) && w.slots[i].id == id
            then FiredBetween(w, v, id) == 1 && id in Now(w.log).live && Now(w.log).live[id].slot == i
                 && 0 <= id < Now(v.log).issued
                 && (id in Now(v.log).live ==> Now(v.log).live[id].slot == i)
            else FiredBetween(w, v, id) == 0
  {
    hide Legal, At, Allowed, Apply, SlotsWellFormed, Owned, Visit;
    var v := Visit(host, w, i, now);
    VisitKeepsValid(host, w, i, now);
    if Due(w.slots[i], now) {
      VisitFires(host, w, i, now);
      CountPrefix(w.log, v.log, id, |w.log|);
      if w.slots[i].id == id {
        VisitFiresOnce(host, w, i, now);
        IssuedGrows(w, v);
        StillThere(w, w, i);
      } else {
        CountUnnamed(v.log, id, |w.log|, |v.log|);
      }
    } else {
      VisitOfNotDue(host, w, i, now);
    }
  }

  lemma VisitOfNotDue(host: Host, w: World, i: nat, now: int)
    requires i < |w.slots| && !Due(w.slots[i], now)
    ensures Visit(host, w, i, now) == w
  {
  }

  /** The exact fate of a timer set during a pass: when the pass ends it is still scheduled,
      or it was cleared, or it was retired; and then it had fired, once, in that same pass, or
      else, the one exception, it was retired unfired because it had been put into the slot of
      a timer that cleared itself while its own callback ran. */
  lemma FateOfNewTimer(host: Host, w: World, now: int, id: int)
    requires AtRest(w) && now <= w.clock
    requires w.nextId <= id < Pass(host, w, now).nextId
    ensures w.log <= Pass(host, w, now).log
    ensures var v := Pass(host, w, now);
            var ext := v.log[|w.log|..];
            && Bit(id in Now(v.log).live) + multiset(ext)[Cleared(id)] + multiset(ext)[Retired(id)] == 1
            && 0 <= FiredBetween(w, v, id) <= 1
            && (Retired(id) in ext ==>
                  (FiredBetween(w, v, id) == 0 <==> TookSlotOfSelfCleared(v.log, |w.log|, id)))
  {
    hide At, Allowed, Apply, SlotsWellFormed, Owned, PassTo, Holds, Legal;
    var v := Pass(host, w, now);
    PassKeepsValid(host, w, now, |w.slots|);
    AccountedSince(w, v, id);
    var ext := v.log[|w.log|..];
    AtMostOnceAPass(host, w, now, |w.slots|, id);
    if TookSlotOfSelfCleared(v.log, |w.log|, id) {
      var f, c, t, r :| |w.log| <= f && SelfClearedFor(v.log, f, c, t, r, id);
      TakerNeverFires(w, v, f, c, t, r, id);
    }
    if Retired(id) in ext {
      var j :| 0 <= j < |ext| && ext[j] == Retired(id);
      assert v.log[|w.log| + j] == Retired(id);
      RetiredInPass(w, v, id, |w.log| + j);
    }
  }

  /** A timer that took the slot of one that cleared itself has not fired, and never will. */
  lemma TakerNeverFires(w: World, v: World, f: nat, c: nat, s: nat, r: nat, id: int)
    requires Legal(v.log) && w.log <= v.log && |w.log| <= f && SelfClearedFor(v.log, f, c, s, r, id)
    ensures FiredBetween(w, v, id) == 0
  {
    hide At, Allowed, Apply;
    StepAt(v.log, s);
    SetNames(At(v.log, s), v.log[s]);
    NotFiredBefore(v.log, id, s, r, f);
    forall m | |w.log| <= m < |v.log| && v.log[m].Fired? ensures v.log[m].id != id {
      if r < m { NeverAgain(v.log, r, m); }
    }
    CountPrefix(w.log, v.log, id, |w.log|);
    CountUnnamed(v.log, id, |w.log|, |v.log|);
  }

  /** What became, since `w`, of an id issued since `w`. */
  lemma AccountedSince(w: World, v: World, id: int)
    requires Valid(w) && Valid(v) && w.log <= v.log && w.nextId <= id < v.nextId
    ensures var ext := v.log[|w.log|..];
            Bit(id in Now(v.log).live) + multiset(ext)[Cleared(id)] + multiset(ext)[Retired(id)] == 1
  {
    hide At, Allowed, Apply, SlotsWellFormed, Owned, Holds, Legal;
    AlwaysSound(w.log, |w.log|);
    EveryTimerAccountedFor(w.log, id);
    EveryTimerAccountedFor(v.log, id);
    assert v.log == w.log + v.log[|w.log|..];
  }

  /** From event `n` on: a timer cleared while its own callback ran, and `id` set into its
      slot before that callback returned, to be retired when it did. */
  ghost predicate TookSlotOfSelfCleared(log: seq<Event>, n: nat, id: int) {
    exists f, c, s, r :: n <= f && SelfClearedFor(log, f, c, s, r, id)
  }

  ghost predicate SelfClearedFor(log: seq<Event>, f: nat, c: nat, s: nat, r: nat, id: int) {
    && f < c < s < r < |log| && log[f].Fired? && log[c] == Cleared(log[f].id)
    && log[s].Set? && log[s].id == id && log[r] == Retired(id)
    && log[f].id in At(log, f).live && log[s].entry.slot == At(log, f).live[log[f].id].slot
    && forall m :: f < m < r ==> log[m].Set? || log[m].Cleared?
  }

  lemma RetiredInPass(w: World, v: World, id: int, i: nat)
    requires AtRest(w) && Valid(v) && w.log <= v.log && |w.log| <= i < |v.log|
    requires v.log[i] == Retired(id) && w.nextId <= id
    ensures FiredBetween(w, v, id) > 0 || TookSlotOfSelfCleared(v.log, |w.log|, id)
  {
    hide At, Allowed, Apply, SlotsWellFormed, Owned, Holds;
    var n := |w.log|;
    CallEnds(v.log, i);
    AtPrefix(w.log, v.log, n);
    CountPrefix(w.log, v.log, id, n);
    NothingBeforeIssue(w.log, id, n);
    if v.log[i].id == At(v.log, i).phase.id {
      var f := CallStart(v.log, i);
      FiredCounts(v.log, id, f);
    } else {
      var f, c, s := UnfiredOnlyByTakingTheSlot(v.log, i);
      CallBeganSince(v.log, n, f, i);
      var g := CallStart(v.log, i);
      SameCall(v.log, f, g, i);
      assert SelfClearedFor(v.log, f, c, s, i, id);
    }
  }

  lemma SameCall(log: seq<Event>, f: nat, g: nat, i: nat)
    requires f < i <= |log| && g < i && log[f].Fired? && log[g].Fired?
    requires forall m :: f < m < i ==> log[m].Set? || log[m].Cleared?
    requires forall m :: g < m < i ==> log[m].Set? || log[m].Cleared?
    ensures f == g
  {
  }

  lemma FiredCounts(log: seq<Event>, id: int, f: nat)
    requires f < |log| && log[f].Fired? && log[f].id == id
    ensures Firings(log, id, |log|) > 0
  {
    FiringsGrow(log, id, f + 1, |log|);
  }

  lemma {:induction false} FiringsGrow(log: seq<Event>, id: int, j: nat, k: nat)
    requires j <= k <= |log|
    ensures Firings(log, id, j) <= Firings(log, id, k)
    decreases k
  {
    if j < k { FiringsGrow(log, id, j, k - 1); }
  }

  /** The world after the first `k` operations of the callback in slot `i`. */
  function DuringCall(host: Host, w: World, i: nat, now: int, k: nat): World
    requires i < |w.slots| && k <= |host.script(w.turns)|
  {
    var c := w.(log := w.log + [Fired(w.slots[i].id, now)], turns := w.turns + 1);
    Run(host, c, host.script(w.turns)[..k])
  }

  /** The code takes no reference of its own for the call. At every moment of it, the table still
      owns the reference that is being called, in the same slot, if and only if the timer has
      not been cleared since the call began; from then on it has been given back once more. */
  lemma CalledReferenceOwnedIff(host: Host, w: World, i: nat, now: int, k: nat)
    requires AtRest(w) && now <= w.clock && i < |w.slots| && Due(w.slots[i], now)
    requires k <= |host.script(w.turns)|
    ensures var u := DuringCall(host, w, i, now, k);
            var id := w.slots[i].id;
            && w.log + [Fired(id, now)] <= u.log && |u.slots| == |w.slots|
            && ((u.slots[i].active && u.slots[i].id == id) <==> Cleared(id) !in u.log[|w.log| + 1..])
            && (Cleared(id) !in u.log[|w.log| + 1..] ==> u.slots[i] == w.slots[i])
            && w.released <= u.released
            && (Cleared(id) in u.log[|w.log| + 1..] ==>
                  w.released + Refs(w.slots[i].callback) <= u.released)
  {
    hide Legal, At, Allowed, Apply, Owned, Holds, Run, SlotsWellFormed;
    var id := w.slots[i].id;
    var ops := host.script(w.turns)[..k];
    var c := w.(log := w.log + [Fired(id, now)], turns := w.turns + 1);
    var u := DuringCall(host, w, i, now, k);
    FiringKeepsValid(w, i, now);
    RunKeepsValid(host, c, ops);
    RunEffect(host, c, ops);
    StillThere(c, u, i);
    GoneMeansCleared(c, u, id);
    if id in Now(u.log).live { RunKeepsSlot(host, c, ops, i); }
    else if u.slots[i].active && u.slots[i].id == id { ActiveIsLive(u, i); }
    RunReleases(host, c, ops, i);
  }

  lemma ActiveIsLive(w: World, i: nat)
    requires Valid(w) && i < |w.slots| && w.slots[i].active
    ensures w.slots[i].id in Now(w.log).live
  {
    hide Legal, At, Owned, SlotsWellFormed;
  }

  /** While JavaScript runs, a slot is as it was until its reference has been given back. */
  lemma {:induction false} RunReleases(host: Host, w: World, ops: seq<Op>, i: nat)
    requires i < |w.slots| && w.slots[i].active
    ensures var v := Run(host, w, ops);
            && |v.slots| == |w.slots| && w.released <= v.released
            && (v.slots[i] == w.slots[i] || w.released + Refs(w.slots[i].callback) <= v.released)
  {
    hide Step, Refs;
    if ops != [] {
      var n := |ops| - 1;
      RunReleases(host, w, ops[..n], i);
      StepReleases(host, Run(host, w, ops[..n]), ops[n], i);
    }
  }

  lemma StepReleases(host: Host, w: World, op: Op, i: nat)
    requires i < |w.slots|
    ensures var v := Step(host, w, op);
            && |v.slots| == |w.slots| && w.released <= v.released
            && (w.slots[i].active ==>
                  v.slots[i] == w.slots[i] || w.released + Refs(w.slots[i].callback) <= v.released)
  {
  }

  /** The exception is real. Whenever the callback of a due timer sets a function while its own
      slot is the lowest free one (it has cleared itself, and all lower slots are taken), and
      does not clear the new timer again, whatever else it does before, between and after: the
      new timer has the slot being fired. A one-shot is lost without firing, and an interval has
      its first firing put off by one more delay. */
  lemma SelfReplacement(host: Host, w: World, i: nat, now: int, k: nat)
    requires AtRest(w) && now <= w.clock && i < |w.slots| && Due(w.slots[i], now)
    requires k < |host.script(w.turns)|
    requires host.script(w.turns)[k].SetTimer? && host.script(w.turns)[k].fn.Function?
    requires var u := DuringCall(host, w, i, now, k);
             && FirstFree(u.slots) == i
             && forall m :: k < m < |host.script(w.turns)| ==>
                  host.script(w.turns)[m] != ClearTimer(Some(u.nextId))
    ensures var u := DuringCall(host, w, i, now, k);
            var v := Visit(host, w, i, now);
            var t := v.slots[i];
            var d := Clamped(host.script(w.turns)[k].delay);
            && w.slots[i].id !in Now(v.log).live && FiredBetween(w, v, u.nextId) == 0
            && (!host.script(w.turns)[k].repeat ==> !t.active && v.log[|v.log| - 1] == Retired(u.nextId))
            && (host.script(w.turns)[k].repeat ==>
                  && t.active && t.id == u.nextId
                  && t.fireTime == u.clock + host.lag(u.ticks) + d + d)
  {
    hide Legal, At, Allowed, Apply, Owned, Holds, Run, Schedule, SlotsWellFormed;
    var x := w.slots[i].id;
    var ops := host.script(w.turns);
    var c := w.(log := w.log + [Fired(x, now)], turns := w.turns + 1);
    var u := DuringCall(host, w, i, now, k);
    FiringKeepsValid(w, i, now);
    RunKeepsValid(host, c, ops[..k]);
    RunEffect(host, c, ops[..k]);
    SetsSlot(host, u, i, ops[k].fn, ops[k].delay, ops[k].repeat);
    RunOneMore(host, c, ops, k);
    RestKeepsSlot(host, c, ops, k + 1, |ops|, i);
    assert ops[..|ops|] == ops;
    assert Turn(host, w.(log := w.log + [Fired(x, now)])) == Run(host, c, ops);
    RunKeepsValid(host, c, ops);
    VisitKeepsValid(host, w, i, now);
    IdsGrow(w, u);
    VisitFiresAtMost(host, w, i, now, u.nextId);
    StillThere(w, Visit(host, w, i, now), i);
  }

  /** The second timer is set by the callback of the first, which has cleared itself. */
  const REPLACER := Host(n => if n == 0 then [SetTimer(Function(7), 1, false)]
                              else [ClearTimer(Some(0)), SetTimer(Function(8), 1, false)],
                         _ => false, _ => 1)

  /** After `let t = setTimeout(() => { clearTimeout(t); setTimeout(g, 1) }, 1)`, as the pass
      that is to fire it begins. */
  function ReplacerDue(): World { Sampled(REPLACER, Turn(REPLACER, Fresh(0))) }

  /** In that pass `g` is lost: it is retired, and was never called. */
  lemma SelfReplacementHappens()
    ensures AtRest(ReplacerDue()) && ReplacerDue().slots != []
    ensures var v := Visit(REPLACER, ReplacerDue(), 0, ReplacerDue().clock);
            && v.log != [] && v.log[|v.log| - 1] == Retired(1) && !v.slots[0].active
            && FiredBetween(ReplacerDue(), v, 1) == 0
  {
    hide AtRest, FiredBetween, FirstFree, ReplacerDue;
    ReplacerStarts();
    ReplacerClears();
    SelfReplacement(REPLACER, ReplacerDue(), 0, 2, 1);
  }

  lemma ReplacerStarts()
    ensures var n := ReplacerDue();
            && AtRest(n) && |n.slots| == MAX_TIMERS && n.slots[0] == Timer(0, Function(7), 1, false, 2, true)
            && n.clock == 2 && n.nextId == 1 && n.turns == 1
  {
    hide Legal, Owned, Holds, SlotsWellFormed;
    var f := Fresh(0).(turns := 1);
    var ops := [SetTimer(Function(7), 1, false)];
    FreshIsValid(0);
    TurnKeepsValid(REPLACER, Fresh(0));
    ReadClockKeepsValid(REPLACER, Turn(REPLACER, Fresh(0)));
    FirstFreeIs(f.slots, 0);
    RunOneMore(REPLACER, f, ops, 0);
    assert ops[..1] == ops;
  }

  /** Having cleared itself, it leaves its slot as the lowest free one. */
  lemma ReplacerClears()
    requires |ReplacerDue().slots| == MAX_TIMERS && ReplacerDue().turns == 1 && ReplacerDue().nextId == 1
    requires ReplacerDue().slots[0] == Timer(0, Function(7), 1, false, 2, true)
    ensures var u := DuringCall(REPLACER, ReplacerDue(), 0, 2, 1);
            FirstFree(u.slots) == 0 && u.nextId == 1
  {
    hide ReplacerDue;
    var n := ReplacerDue();
    var c := n.(log := n.log + [Fired(0, 2)], turns := 2);
    RunOneMore(REPLACER, c, REPLACER.script(1), 0);
    FirstFreeIs(Cancel(c, Some(0)).slots, 0);
  }

  lemma IdsGrow(w: World, u: World)
    requires Valid(w) && Valid(u) && w.log <= u.log
    ensures w.nextId <= u.nextId && forall i :: 0 <= i < |w.slots| && w.slots[i].active ==> w.slots[i].id < w.nextId
  {
    hide Legal, At, Owned;
    IssuedGrows(w, u);
    AlwaysSound(w.log, |w.log|);
  }

  lemma RunOneMore(host: Host, w: World, ops: seq<Op>, k: nat)
    requires k < |ops|
    ensures Run(host, w, ops[..k + 1]) == Step(host, Run(host, w, ops[..k]), ops[k])
  {
    hide Step;
    assert ops[..k + 1][..k] == ops[..k];
  }

  /** An active slot stays as it is until an operation clears its id. */
  lemma {:induction false} RestKeepsSlot(host: Host, w: World, ops: seq<Op>, j: nat, k: nat, i: nat)
    requires j <= k <= |ops| && i < |Run(host, w, ops[..j]).slots| && Run(host, w, ops[..j]).slots[i].active
    requires forall m :: j <= m < k ==> ops[m] != ClearTimer(Some(Run(host, w, ops[..j]).slots[i].id))
    ensures |Run(host, w, ops[..k]).slots| == |Run(host, w, ops[..j]).slots|
    ensures Run(host, w, ops[..k]).slots[i] == Run(host, w, ops[..j]).slots[i]
    decreases k
  {
    hide Step, Run;
    if j < k {
      RestKeepsSlot(host, w, ops, j, k - 1, i);
      RunOneMore(host, w, ops, k - 1);
      UnclearedKeepsSlot(host, Run(host, w, ops[..k - 1]), ops[k - 1], i);
    }
  }

  lemma UnclearedKeepsSlot(host: Host, w: World, op: Op, i: nat)
    requires i < |w.slots| && w.slots[i].active && op != ClearTimer(Some(w.slots[i].id))
    ensures |Step(host, w, op).slots| == |w.slots| && Step(host, w, op).slots[i] == w.slots[i]
  {
  }

  lemma SetsSlot(host: Host, w: World, i: nat, fn: JSValue, delay: int, repeat: bool)
    requires i < |w.slots| && FirstFree(w.slots) == i && fn.Function?
    ensures var v := Schedule(host, w, fn, delay, repeat);
            var d := Clamped(delay);
            var due := w.clock + host.lag(w.ticks) + d;
            v.slots == w.slots[i := Timer(w.nextId, fn, d, repeat, due, true)]
  {
  }

  lemma FirstFreeIs(slots: seq<Timer>, i: nat)
    requires i < |slots| && !slots[i].active && forall j :: 0 <= j < i ==> slots[j].active
    ensures FirstFree(slots) == i
  {
  }
}
