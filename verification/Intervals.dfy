/** The arithmetic of setInterval over whole histories: never early, and without drift when
    no firing is a full delay late. */
module Intervals {
  import opened TimerHistory

  /** How often `id` has fired, and been rearmed, in the first `k` events. */
  ghost function Firings(log: seq<Event>, id: int, k: nat): nat
    requires k <= |log|
  {
    if k == 0 then 0 else Firings(log, id, k - 1) + Bit(log[k - 1].Fired? && log[k - 1].id == id)
  }

  ghost function Rearms(log: seq<Event>, id: int, k: nat): nat
    requires k <= |log|
  {
    if k == 0 then 0 else Rearms(log, id, k - 1) + Bit(log[k - 1].Rearmed? && log[k - 1].id == id)
  }

  /** The k-th multiple of the delay after the time the timer was set. */
  function Grid(e: Entry, k: nat): int { e.setAt + k * e.delay }

  lemma GridNext(e: Entry, k: nat)
    ensures Grid(e, k + 1) == Grid(e, k) + e.delay
  {
    assert (k + 1) * e.delay == k * e.delay + e.delay;
  }

  /** The timer being called is in the called slot for as long as it is live. */
  lemma CalledSlot(log: seq<Event>, k: nat)
    requires Legal(log) && k <= |log| && At(log, k).phase.Calling?
    requires At(log, k).phase.id in At(log, k).live
    ensures At(log, k).live[At(log, k).phase.id].slot == At(log, k).phase.slot
  {
    hide Apply, Allowed;
    var f := CallStart(log, k);
    AlwaysSound(log, f);
    EntryKept(log, log[f].id, f, k);
  }

  /** An id that has not been issued has neither fired nor been rearmed. */
  lemma {:induction false} NothingBeforeIssue(log: seq<Event>, id: int, k: nat)
    requires Legal(log) && k <= |log| && At(log, k).issued <= id
    ensures Firings(log, id, k) == Rearms(log, id, k) == 0
  {
    hide Apply, Allowed;
    if k > 0 {
      Issued(log, k - 1, k);
      NothingBeforeIssue(log, id, k - 1);
      AlwaysSound(log, k - 1);
      StepAt(log, k - 1);
      StepNames(At(log, k - 1), log[k - 1]);
    }
  }

  /** While an interval lives, its due time is at least one delay past each rearming, and it
      has fired no more often than it was rearmed, but for the call in progress. */
  lemma {:induction false} DueGrows(log: seq<Event>, id: int, k: nat)
    requires Legal(log) && k <= |log| && id in At(log, k).live && At(log, k).live[id].repeat
    ensures var s := At(log, k);
            && s.live[id].due >= Grid(s.live[id], Rearms(log, id, k) + 1)
            && Firings(log, id, k) <=
                 Rearms(log, id, k) + Bit(s.phase.Calling? && s.phase.id == id)
  {
    hide Apply, Allowed;
    assert k > 0;
    var e := log[k - 1];
    AlwaysSound(log, k - 1);
    StepAt(log, k - 1);
    StepNames(At(log, k - 1), e);
    StepPhase(At(log, k - 1), e);
    StepIssues(At(log, k - 1), e);
    AlwaysSound(log, k);
    if e.Set? && e.id == id {
      NothingBeforeIssue(log, id, k - 1);
      SetIsDue(At(log, k - 1), e);
      GridNext(e.entry, 0);
    } else {
      StepId(At(log, k - 1), e, id);
      EntryKept(log, id, k - 1, k);
      DueGrows(log, id, k - 1);
      if At(log, k - 1).phase.Calling? && At(log, k - 1).phase.id == id {
        CalledSlot(log, k - 1);
        CallEndsWithOccupant(log, k - 1, id);
      }
      if e.Rearmed? && e.id == id {
        GridNext(At(log, k - 1).live[id], Rearms(log, id, k - 1) + 1);
        RearmedLater(At(log, k - 1), e);
      }
    }
  }

  lemma SetIsDue(s: State, e: Event)
    requires Allowed(s, e) && e.Set?
    ensures e.entry.due == e.entry.setAt + e.entry.delay
    ensures s.phase.Calling? ==> s.phase.now <= e.entry.setAt
  {
  }

  lemma RearmedLater(s: State, e: Event)
    requires Allowed(s, e) && e.Rearmed?
    ensures e.id in s.live && s.phase.Calling? && e.id in Apply(s, e).live
    ensures Apply(s, e).live[e.id].due == e.due == Max(s.live[e.id].due + s.live[e.id].delay, s.phase.now)
  {
  }

  lemma FiredWhenDue(s: State, e: Event)
    requires Allowed(s, e) && e.Fired?
    ensures s.phase.Resting? && e.id in s.live && s.live[e.id].due <= e.at
  {
  }

  /** No timer of either kind fires early: a one-shot not before its delay has passed, and an
      interval, for the n-th time, not before n delays have. */
  lemma NeverEarly(log: seq<Event>, i: nat)
    requires Legal(log) && i < |log| && log[i].Fired?
    ensures log[i].id in At(log, i).live
    ensures var e := At(log, i).live[log[i].id];
            log[i].at >= Grid(e, if e.repeat then Firings(log, log[i].id, i) + 1 else 1)
  {
    hide Apply, Allowed;
    var id := log[i].id;
    StepAt(log, i);
    FiredWhenDue(At(log, i), log[i]);
    var e := At(log, i).live[id];
    if e.repeat {
      DueGrows(log, id, i);
      GridMonotone(e, Firings(log, id, i) + 1, Rearms(log, id, i) + 1);
    } else {
      OneShotDue(log, id, i);
    }
  }

  lemma {:induction false} GridMonotone(e: Entry, j: nat, k: nat)
    requires j <= k
    ensures Grid(e, j) <= Grid(e, k)
    decreases k
  {
    if j < k {
      GridMonotone(e, j, k - 1);
      GridNext(e, k - 1);
    }
  }

  /** The due time of a one-shot never moves. */
  lemma {:induction false} OneShotDue(log: seq<Event>, id: int, k: nat)
    requires Legal(log) && k <= |log| && id in At(log, k).live && !At(log, k).live[id].repeat
    ensures At(log, k).live[id].due == Grid(At(log, k).live[id], 1)
  {
    hide Apply, Allowed;
    assert k > 0;
    var e := log[k - 1];
    AlwaysSound(log, k - 1);
    StepAt(log, k - 1);
    StepNames(At(log, k - 1), e);
    StepIssues(At(log, k - 1), e);
    AlwaysSound(log, k);
    if e.Set? && e.id == id {
      SetIsDue(At(log, k - 1), e);
    } else {
      StepId(At(log, k - 1), e, id);
      EntryKept(log, id, k - 1, k);
      OneShotDue(log, id, k - 1);
      if e.Rearmed? && e.id == id { OnlyIntervalsRearm(At(log, k - 1), e); }
    }
  }

  lemma OnlyIntervalsRearm(s: State, e: Event)
    requires Allowed(s, e) && e.Rearmed?
    ensures e.id in s.live && s.live[e.id].repeat
  {
  }

  /** By any time `t`, an interval with a positive delay has fired at most as often as its
      delay fits into the time since it was set. */
  lemma AtMostOncePerDelay(log: seq<Event>, i: nat, t: int)
    requires Legal(log) && i < |log| && log[i].Fired? && log[i].at <= t
    requires log[i].id in At(log, i).live && At(log, i).live[log[i].id].repeat
    requires At(log, i).live[log[i].id].delay > 0
    ensures var e := At(log, i).live[log[i].id];
            Firings(log, log[i].id, i + 1) <= (t - e.setAt) / e.delay
  {
    hide Apply, Allowed;
    var e := At(log, i).live[log[i].id];
    NeverEarly(log, i);
    var n := Firings(log, log[i].id, i) + 1;
    FitsInto(n, e.delay, t - e.setAt);
  }

  lemma FitsInto(n: nat, d: nat, span: int)
    requires d > 0 && n * d <= span
    ensures n <= span / d
  {
    var q := span / d;
    assert span == q * d + span % d;
    assert (q + 1) * d == q * d + d;
    if q < n { Times(q + 1, n, d); }
  }

  lemma Times(x: nat, y: nat, d: nat)
    requires x <= y
    ensures x * d <= y * d
  {
    assert y * d - x * d == (y - x) * d;
  }

  // ---- no drift -----------------------------------------------------------------------

  /** No firing of `id` from the `j`-th event up to the `k`-th was more than a delay late. */
  ghost predicate Punctual(log: seq<Event>, id: int, j: nat, k: nat)
    requires k <= |log|
  {
    forall i :: j <= i < k && log[i].Fired? && log[i].id == id && id in At(log, i).live ==>
      log[i].at <= At(log, i).live[id].due + At(log, i).live[id].delay
  }

  /** Where an interval's due time belongs at `k`, seen from `j`: as many delays after the due
      time it had at `j` as it was rearmed since, or on its own grid if it was set since. */
  ghost function PointSince(log: seq<Event>, j: nat, id: int, k: nat): int
    requires j <= k <= |log| && id in At(log, k).live
  {
    var e := At(log, k).live[id];
    if id in At(log, j).live then
      At(log, j).live[id].due + (Rearms(log, id, k) - Rearms(log, id, j)) * e.delay
    else
      Grid(e, Rearms(log, id, k) + 1)
  }

  /** Each rearming moves that point by a delay. */
  lemma PointNext(log: seq<Event>, j: nat, id: int, k: nat)
    requires j <= k < |log| && id in At(log, k).live && id in At(log, k + 1).live
    requires At(log, k + 1).live[id] == At(log, k).live[id].(due := At(log, k + 1).live[id].due)
    ensures PointSince(log, j, id, k + 1) == PointSince(log, j, id, k) +
              if log[k].Rearmed? && log[k].id == id then At(log, k).live[id].delay else 0
  {
    hide At;
    var e := At(log, k).live[id];
    var n := Rearms(log, id, k) - Rearms(log, id, j);
    assert (n + 1) * e.delay == n * e.delay + e.delay;
    GridNext(e, Rearms(log, id, k) + 1);
  }

  /** The due time of a timer set by its callback's turn is what it was when the call began. */
  lemma {:induction false} DueDuringCall(log: seq<Event>, id: int, f: nat, k: nat)
    requires Legal(log) && f < k <= |log| && id in At(log, k).live && 0 <= id < At(log, f).issued
    requires forall m :: f <= m < k ==> log[m].Set? || log[m].Cleared? || log[m].Fired?
    ensures id in At(log, f).live && At(log, k).live[id] == At(log, f).live[id]
    decreases k
  {
    hide Apply, Allowed;
    EntryKept(log, id, f, k);
    Issued(log, f, k - 1);
    EntryKept(log, id, k - 1, k);
    StepAt(log, k - 1);
    StepId(At(log, k - 1), log[k - 1], id);
    if f < k - 1 {
      DueDuringCall(log, id, f, k - 1);
    }
  }

  /** While an interval is punctual, its due times stay exactly where they belong. */
  lemma {:induction false} NoDrift(log: seq<Event>, id: int, j: nat, k: nat)
    requires Legal(log) && j <= k <= |log| && At(log, j).phase.Resting?
    requires id in At(log, k).live && At(log, k).live[id].repeat && Punctual(log, id, j, k)
    ensures At(log, k).live[id].due == PointSince(log, j, id, k)
    decreases k
  {
    hide Apply, Allowed, PointSince;
    AlwaysSound(log, j);
    if j == k {
      PointNow(log, id, j);
    } else {
      var e := log[k - 1];
      AlwaysSound(log, k - 1);
      StepAt(log, k - 1);
      StepNames(At(log, k - 1), e);
      StepIssues(At(log, k - 1), e);
      AlwaysSound(log, k);
      Issued(log, j, k - 1);
      if e.Set? && e.id == id {
        SetIsDue(At(log, k - 1), e);
        FirstPoint(log, j, id, k);
      } else {
        StepId(At(log, k - 1), e, id);
        EntryKept(log, id, k - 1, k);
        NoDrift(log, id, j, k - 1);
        PointNext(log, j, id, k - 1);
        if e.Rearmed? && e.id == id {
          RearmedLater(At(log, k - 1), e);
          RearmIsNotClamped(log, id, j, k - 1);
        }
      }
    }
  }

  lemma PointNow(log: seq<Event>, id: int, j: nat)
    requires j <= |log| && id in At(log, j).live
    ensures PointSince(log, j, id, j) == At(log, j).live[id].due
  {
  }

  /** When it is set, an interval is due at the first point of its grid. */
  lemma FirstPoint(log: seq<Event>, j: nat, id: int, k: nat)
    requires Legal(log) && j < k <= |log| && log[k - 1].Set? && log[k - 1].id == id
    requires id in At(log, k).live && At(log, k).live[id] == log[k - 1].entry
    ensures PointSince(log, j, id, k) == Grid(At(log, k).live[id], 1)
  {
    hide Apply, Allowed, Grid;
    AlwaysSound(log, j);
    StepAt(log, k - 1);
    AlwaysSound(log, k - 1);
    StepNames(At(log, k - 1), log[k - 1]);
    assert id == At(log, k - 1).issued by { SetNames(At(log, k - 1), log[k - 1]); }
    Issued(log, j, k - 1);
    NothingBeforeIssue(log, id, k - 1);
  }

  lemma SetNames(s: State, e: Event)
    requires Allowed(s, e) && e.Set?
    ensures e.id == s.issued
  {
  }

  /** A punctual interval is rearmed by its delay alone; the clamp to `now` does nothing. */
  lemma RearmIsNotClamped(log: seq<Event>, id: int, j: nat, i: nat)
    requires Legal(log) && j <= i < |log| && log[i].Rearmed? && log[i].id == id
    requires At(log, j).phase.Resting? && Punctual(log, id, j, i)
    ensures At(log, i).phase.Calling? && id in At(log, i).live
    ensures At(log, i).phase.now <= At(log, i).live[id].due + At(log, i).live[id].delay
  {
    hide Apply, Allowed;
    CallEnds(log, i);
    if At(log, i).phase.id == id {
      var f := CallStart(log, i);
      AlwaysSound(log, f);
      CallBeganSince(log, j, f, i);
      DueDuringCall(log, id, f, i);
    } else {
      var f, c, s := UnfiredOnlyByTakingTheSlot(log, i);
      DueKept(log, s, i);
      StepAt(log, s);
      SetIsDue(At(log, s), log[s]);
      PhaseKept(log, s, i);
    }
  }

  /** Exactly when an interval is due where it belongs: if and only if no firing of it since was
      more than a delay late. Nothing ever moves it back. */
  lemma OnGridIff(log: seq<Event>, id: int, j: nat, k: nat)
    requires Legal(log) && j <= k <= |log| && At(log, j).phase.Resting? && At(log, k).phase.Resting?
    requires id in At(log, k).live && At(log, k).live[id].repeat
    ensures At(log, k).live[id].due == PointSince(log, j, id, k) <==> Punctual(log, id, j, k)
  {
    hide PointSince;
    if Punctual(log, id, j, k) { NoDrift(log, id, j, k); } else { Drifts(log, id, j, k); }
  }

  /** A firing that is too late puts the interval off when its call returns. */
  lemma {:induction false} Drifts(log: seq<Event>, id: int, j: nat, k: nat)
    requires Legal(log) && j <= k <= |log| && At(log, j).phase.Resting?
    requires id in At(log, k).live && At(log, k).live[id].repeat
    ensures At(log, k).live[id].due >= PointSince(log, j, id, k)
    ensures !Punctual(log, id, j, k) ==>
              var s := At(log, k);
              || s.live[id].due > PointSince(log, j, id, k)
              || (s.phase.Calling? && s.phase.id == id && s.live[id].due + s.live[id].delay < s.phase.now)
    decreases k
  {
    hide Apply, Allowed, PointSince;
    AlwaysSound(log, j);
    if j == k {
      PointNow(log, id, j);
    } else {
      var e := log[k - 1];
      AlwaysSound(log, k - 1);
      StepAt(log, k - 1);
      StepNames(At(log, k - 1), e);
      StepPhase(At(log, k - 1), e);
      StepIssues(At(log, k - 1), e);
      AlwaysSound(log, k);
      Issued(log, j, k - 1);
      if e.Set? && e.id == id {
        SetIsDue(At(log, k - 1), e);
        FirstPoint(log, j, id, k);
        SetNames(At(log, k - 1), e);
        NotLiveBeforeIssue(log, id, k - 1);
      } else {
        StepId(At(log, k - 1), e, id);
        EntryKept(log, id, k - 1, k);
        Drifts(log, id, j, k - 1);
        PointNext(log, j, id, k - 1);
        if At(log, k - 1).phase.Calling? && At(log, k - 1).phase.id == id {
          CalledSlot(log, k - 1);
          CallEndsWithOccupant(log, k - 1, id);
        }
        if e.Rearmed? && e.id == id { RearmedLater(At(log, k - 1), e); }
      }
    }
  }

  lemma NotLiveBeforeIssue(log: seq<Event>, id: int, k: nat)
    requires Legal(log) && k <= |log| && At(log, k).issued <= id
    ensures forall i :: 0 <= i <= k ==> id !in At(log, i).live
  {
    hide Apply, Allowed;
    forall i | 0 <= i <= k ensures id !in At(log, i).live {
      AlwaysSound(log, i);
      Issued(log, i, k);
    }
  }

  /** A call that returns after a moment of rest began after it. */
  lemma CallBeganSince(log: seq<Event>, n: nat, f: nat, i: nat)
    requires Legal(log) && n <= i < |log| && f < i && log[f].Fired? && At(log, n).phase.Resting?
    requires forall m :: f < m < i ==> log[m].Set? || log[m].Cleared?
    ensures n <= f
  {
    hide Allowed, Apply;
    if f < n {
      StepAt(log, f);
      StepPhase(At(log, f), log[f]);
      PhaseKept(log, f + 1, n);
    }
  }

  /** The timer was set, during a callback, into the slot of the timer being called. */
  ghost predicate TookTheSlot(log: seq<Event>, id: int) {
    exists s :: 0 <= s < |log| && log[s].Set? && log[s].id == id
      && At(log, s).phase.Calling? && log[s].entry.slot == At(log, s).phase.slot
  }

  lemma {:induction false} RearmsDuringCall(log: seq<Event>, id: int, s: nat, i: nat)
    requires s <= i <= |log|
    requires forall m :: s <= m < i ==> log[m].Set? || log[m].Cleared?
    ensures Rearms(log, id, i) == Rearms(log, id, s)
    decreases i
  {
    if s < i { RearmsDuringCall(log, id, s, i - 1); }
  }

  /** Every rearming follows a firing, but for the one that puts off an interval that took
      the slot: with `DueGrows` this counts the grid points of `NoDrift` in firings. */
  lemma {:induction false} RearmsFollowFirings(log: seq<Event>, id: int, k: nat)
    requires Legal(log) && k <= |log| && id in At(log, k).live && At(log, k).live[id].repeat
    ensures var p := At(log, k).phase;
            Rearms(log, id, k) + Bit(p.Calling? && p.id == id) <=
              Firings(log, id, k) + Bit(TookTheSlot(log, id))
  {
    hide Apply, Allowed;
    assert k > 0;
    var e := log[k - 1];
    var p := At(log, k - 1).phase;
    AlwaysSound(log, k - 1);
    StepAt(log, k - 1);
    StepNames(At(log, k - 1), e);
    StepPhase(At(log, k - 1), e);
    StepIssues(At(log, k - 1), e);
    AlwaysSound(log, k);
    if e.Set? && e.id == id {
      NothingBeforeIssue(log, id, k - 1);
      if p.Calling? {
        var f := CallStart(log, k - 1);
        OriginBefore(log, f, k - 1);
      }
    } else {
      EntryKept(log, id, k - 1, k);
      RearmsFollowFirings(log, id, k - 1);
      if e.Rearmed? && e.id == id && p.id != id {
        var f, c, s := UnfiredOnlyByTakingTheSlot(log, k - 1);
        PhaseKept(log, s, k - 1);
        NothingBeforeSet(log, s);
        RearmsDuringCall(log, id, s, k - 1);
      }
    }
  }

  lemma OriginBefore(log: seq<Event>, f: nat, k: nat)
    requires Legal(log) && f < k <= |log| && log[f].Fired?
    ensures log[f].id < At(log, k).issued
  {
    hide Apply, Allowed;
    AlwaysSound(log, f);
    StepAt(log, f);
    StepNames(At(log, f), log[f]);
    Issued(log, f, k);
  }

  lemma NothingBeforeSet(log: seq<Event>, s: nat)
    requires Legal(log) && s < |log| && log[s].Set?
    ensures Rearms(log, log[s].id, s) == 0
  {
    hide Apply;
    StepAt(log, s);
    NothingBeforeIssue(log, log[s].id, s);
  }
}
