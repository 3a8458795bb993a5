/** What a history of timer events may look like, independently of the table that produces
    it: a map from timer ids to entries, and a phase that says whether a callback is being
    called. Everything proved here holds of every legal history; module TimerTable shows that
    the code produces no other. */
module TimerHistory {
  datatype Entry = Entry(slot: nat, callback: nat, delay: nat, repeat: bool, setAt: int, due: int)

  datatype Event =
    | Set(id: int, entry: Entry)
    | Cleared(id: int)              // by clearTimeout or clearInterval, or when the engine closes
    | Fired(id: int, at: int)       // its callback is about to be called
    | Rearmed(id: int, due: int)    // the call returned; an interval was in the slot
    | Retired(id: int)              // the call returned; a one-shot was in the slot
    | Vacated                       // the call returned; the slot was empty

  datatype Phase = Resting | Calling(slot: nat, now: int, id: int)

  datatype State = State(live: map<int, Entry>, issued: nat, phase: Phase)

  const START := State(map[], 0, Resting)

  function Max(x: int, y: int): int { if x < y then y else x }

  ghost predicate SlotFree(live: map<int, Entry>, slot: nat) {
    forall k :: k in live ==> live[k].slot != slot
  }

  /** Which event may come next. */
  ghost predicate Allowed(s: State, e: Event) {
    match e
    case Set(id, t) =>
      && id == s.issued && SlotFree(s.live, t.slot) && t.due == t.setAt + t.delay
      && (s.phase.Calling? ==> s.phase.now <= t.setAt)
    case Cleared(id) => id in s.live
    case Fired(id, at) => s.phase.Resting? && id in s.live && s.live[id].due <= at
    case Rearmed(id, due) =>
      && s.phase.Calling? && id in s.live && s.live[id].slot == s.phase.slot && s.live[id].repeat
      && due == Max(s.live[id].due + s.live[id].delay, s.phase.now)
    case Retired(id) =>
      s.phase.Calling? && id in s.live && s.live[id].slot == s.phase.slot && !s.live[id].repeat
    case Vacated => s.phase.Calling? && SlotFree(s.live, s.phase.slot)
  }

  ghost function Apply(s: State, e: Event): State {
    match e
    case Set(id, t) => s.(live := s.live[id := t], issued := s.issued + 1)
    case Cleared(id) => s.(live := s.live - {id})
    case Fired(id, at) => if id in s.live then s.(phase := Calling(s.live[id].slot, at, id)) else s
    case Rearmed(id, due) =>
      if id in s.live then s.(live := s.live[id := s.live[id].(due := due)], phase := Resting) else s
    case Retired(id) => s.(live := s.live - {id}, phase := Resting)
    case Vacated => s.(phase := Resting)
  }

  /** The state after the first `k` events. */
  ghost function At(log: seq<Event>, k: nat): State
    requires k <= |log|
  {
    if k == 0 then START else Apply(At(log, k - 1), log[k - 1])
  }

  ghost function Now(log: seq<Event>): State { At(log, |log|) }

  ghost predicate AllowedAt(log: seq<Event>, k: nat)
    requires k < |log|
  {
    Allowed(At(log, k), log[k])
  }

  ghost predicate Legal(log: seq<Event>) {
    forall k :: 0 <= k < |log| ==> AllowedAt(log, k)
  }

  lemma StepAt(log: seq<Event>, k: nat)
    requires Legal(log) && k < |log|
    ensures Allowed(At(log, k), log[k]) && At(log, k + 1) == Apply(At(log, k), log[k])
  {
    hide Allowed, Apply;
    assert AllowedAt(log, k);
  }

  // ---- one event ----------------------------------------------------------------------

  /** Live ids have been issued, and no two of them share a slot. */
  ghost predicate Sound(s: State) {
    && (forall k :: k in s.live ==> 0 <= k < s.issued)
    && (forall j, k :: j in s.live && k in s.live && s.live[j].slot == s.live[k].slot ==> j == k)
  }

  lemma StepSound(s: State, e: Event)
    requires Sound(s) && Allowed(s, e)
    ensures Sound(Apply(s, e)) && s.issued <= Apply(s, e).issued
  {
  }

  /** What one event does to an id that has been issued. */
  lemma StepId(s: State, e: Event, id: int)
    requires Allowed(s, e) && 0 <= id < s.issued
    ensures id !in s.live ==> id !in Apply(s, e).live && (e.Vacated? || e.id != id)
    ensures id in s.live && (e == Cleared(id) || e == Retired(id)) ==> id !in Apply(s, e).live
    ensures id in s.live && e != Cleared(id) && e != Retired(id) ==>
              && id in Apply(s, e).live
              && Apply(s, e).live[id] == s.live[id].(due := Apply(s, e).live[id].due)
              && (!(e.Rearmed? && e.id == id) ==> Apply(s, e).live[id] == s.live[id])
  {
  }

  /** Only an issued id is ever named, except by the event that issues it. */
  lemma StepNames(s: State, e: Event)
    requires Sound(s) && Allowed(s, e)
    ensures e.Vacated? || (e.Set? && e.id == s.issued) || (!e.Set? && e.id in s.live)
  {
  }

  /** The phase changes when a call begins and when it returns. */
  lemma StepPhase(s: State, e: Event)
    requires Allowed(s, e)
    ensures e.Set? || e.Cleared? ==> Apply(s, e).phase == s.phase
    ensures e.Fired? ==> s.phase.Resting? && Apply(s, e).phase == Calling(s.live[e.id].slot, e.at, e.id)
    ensures e.Rearmed? || e.Retired? || e.Vacated? ==> s.phase.Calling? && Apply(s, e).phase.Resting?
  {
  }

  // ---- growing a history --------------------------------------------------------------

  lemma {:induction false} AtPrefix(log: seq<Event>, more: seq<Event>, k: nat)
    requires log <= more && k <= |log|
    ensures At(more, k) == At(log, k)
  {
    hide Apply;
    if k > 0 { AtPrefix(log, more, k - 1); }
  }

  /** A history stays legal when an allowed event is added to it. */
  lemma Extend(log: seq<Event>, e: Event)
    requires Legal(log) && Allowed(Now(log), e)
    ensures Legal(log + [e]) && Now(log + [e]) == Apply(Now(log), e)
  {
    hide Apply, Allowed;
    var more := log + [e];
    AtPrefix(log, more, |log|);
    forall k | 0 <= k < |more| ensures AllowedAt(more, k) {
      if k < |log| {
        AtPrefix(log, more, k);
        assert AllowedAt(log, k);
      }
    }
  }

  lemma LegalPrefix(log: seq<Event>, more: seq<Event>)
    requires log <= more && Legal(more)
    ensures Legal(log)
  {
    hide Apply, Allowed;
    forall k | 0 <= k < |log| ensures AllowedAt(log, k) {
      AtPrefix(log, more, k);
      assert AllowedAt(more, k);
    }
  }

  // ---- ids and slots ------------------------------------------------------------------

  lemma {:induction false} AlwaysSound(log: seq<Event>, k: nat)
    requires Legal(log) && k <= |log|
    ensures Sound(At(log, k))
  {
    hide Apply, Allowed;
    if k == 0 {
      assert At(log, k) == START;
    } else {
      AlwaysSound(log, k - 1);
      StepAt(log, k - 1);
      StepSound(At(log, k - 1), log[k - 1]);
    }
  }

  lemma {:induction false} Issued(log: seq<Event>, j: nat, k: nat)
    requires Legal(log) && j <= k <= |log|
    ensures At(log, j).issued <= At(log, k).issued
    decreases k
  {
    hide Apply, Allowed;
    if j < k {
      Issued(log, j, k - 1);
      AlwaysSound(log, k - 1);
      StepAt(log, k - 1);
      StepSound(At(log, k - 1), log[k - 1]);
    }
  }

  /** An issued id that is not live never becomes live again, nor is it ever named again. */
  lemma {:induction false} GoneForever(log: seq<Event>, id: int, j: nat, k: nat)
    requires Legal(log) && j <= k <= |log|
    requires 0 <= id < At(log, j).issued && id !in At(log, j).live
    ensures id < At(log, k).issued && id !in At(log, k).live
    ensures k < |log| ==> log[k].Vacated? || log[k].id != id
    decreases k
  {
    hide Apply, Allowed;
    Issued(log, j, k);
    if j < k {
      GoneForever(log, id, j, k - 1);
      Issued(log, j, k - 1);
      StepAt(log, k - 1);
      StepId(At(log, k - 1), log[k - 1], id);
    }
    if k < |log| {
      StepAt(log, k);
      StepId(At(log, k), log[k], id);
    }
  }

  /** A live id has been live, with the same slot, callback, delay and kind, since it was issued. */
  lemma {:induction false} EntryKept(log: seq<Event>, id: int, j: nat, k: nat)
    requires Legal(log) && j <= k <= |log|
    requires 0 <= id < At(log, j).issued && id in At(log, k).live
    ensures id in At(log, j).live
    ensures At(log, k).live[id] == At(log, j).live[id].(due := At(log, k).live[id].due)
    decreases k
  {
    hide Apply, Allowed;
    if j < k {
      if id !in At(log, k - 1).live {
        Issued(log, j, k - 1);
        GoneForever(log, id, k - 1, k);
      }
      EntryKept(log, id, j, k - 1);
      Issued(log, j, k - 1);
      StepAt(log, k - 1);
      StepId(At(log, k - 1), log[k - 1], id);
    }
  }

  /** A cleared or retired id never appears again: it does not fire, is not rearmed, and is
      neither cleared nor retired a second time. */
  lemma NeverAgain(log: seq<Event>, i: nat, j: nat)
    requires Legal(log) && i < j < |log|
    requires log[i].Cleared? || log[i].Retired?
    ensures log[j].Vacated? || log[j].id != log[i].id
  {
    hide Apply, Allowed;
    var id := log[i].id;
    AlwaysSound(log, i);
    StepAt(log, i);
    StepNames(At(log, i), log[i]);
    StepId(At(log, i), log[i], id);
    Issued(log, i, i + 1);
    GoneForever(log, id, i + 1, j);
  }

  /** From the moment a one-shot fires, it is either still being called or gone. */
  lemma {:induction false} OneShotIsSpent(log: seq<Event>, i: nat, k: nat)
    requires Legal(log) && i < k <= |log|
    requires log[i].Fired? && log[i].id in At(log, i).live && !At(log, i).live[log[i].id].repeat
    ensures log[i].id in At(log, k).live ==> At(log, k).phase == At(log, i + 1).phase
    decreases k
  {
    hide Apply, Allowed;
    var id := log[i].id;
    if i + 1 < k && id in At(log, k).live {
      AlwaysSound(log, i);
      Issued(log, i, k - 1);
      EntryKept(log, id, k - 1, k);
      EntryKept(log, id, i, k - 1);
      OneShotIsSpent(log, i, k - 1);
      StepAt(log, i);
      StepPhase(At(log, i), log[i]);
      CallEndsWithOccupant(log, k - 1, id);
    }
  }

  /** The event that ends a call concerns whatever is in the called slot. */
  lemma CallEndsWithOccupant(log: seq<Event>, k: nat, id: int)
    requires Legal(log) && k < |log| && At(log, k).phase.Calling?
    requires id in At(log, k).live && At(log, k).live[id].slot == At(log, k).phase.slot
    ensures || At(log, k + 1).phase == At(log, k).phase
            || (log[k] == Retired(id) && !At(log, k).live[id].repeat && id !in At(log, k + 1).live)
            || (log[k].Rearmed? && log[k].id == id && At(log, k).live[id].repeat)
  {
    StepAt(log, k);
    AlwaysSound(log, k);
  }

  /** A one-shot fires at most once in any history. */
  lemma OneShotFiresOnce(log: seq<Event>, i: nat, j: nat)
    requires Legal(log) && i < j < |log|
    requires log[i].Fired? && log[i].id in At(log, i).live && !At(log, i).live[log[i].id].repeat
    ensures !(log[j].Fired? && log[j].id == log[i].id)
  {
    hide Apply, Allowed;
    StepAt(log, i);
    StepPhase(At(log, i), log[i]);
    OneShotIsSpent(log, i, j);
    StepAt(log, j);
    StepPhase(At(log, j), log[j]);
    AlwaysSound(log, j);
    StepNames(At(log, j), log[j]);
  }

  // ---- the fate of every timer --------------------------------------------------------

  /** 1 for true, 0 for false, to count with. */
  function Bit(b: bool): nat { if b then 1 else 0 }

  /** Every id ever issued is live, was cleared once, or was retired once: exactly one of the
      three. An id not yet issued has no part in the history. */
  lemma {:induction false} EveryTimerAccountedFor(log: seq<Event>, id: int)
    requires Legal(log)
    ensures 0 <= id < Now(log).issued ==>
              Bit(id in Now(log).live) + multiset(log)[Cleared(id)] + multiset(log)[Retired(id)] == 1
    ensures !(0 <= id < Now(log).issued) ==>
              id !in Now(log).live && multiset(log)[Cleared(id)] == multiset(log)[Retired(id)] == 0
    decreases |log|
  {
    hide Apply, Allowed;
    AlwaysSound(log, |log|);
    if log != [] {
      var n := |log| - 1;
      var before := log[..n];
      assert log == before + [log[n]];
      LegalPrefix(before, log);
      AtPrefix(before, log, n);
      EveryTimerAccountedFor(before, id);
      AlwaysSound(log, n);
      StepAt(log, n);
      StepNames(At(log, n), log[n]);
      StepIssues(At(log, n), log[n]);
      if 0 <= id < At(log, n).issued {
        StepId(At(log, n), log[n], id);
      }
    }
  }

  lemma StepIssues(s: State, e: Event)
    requires Allowed(s, e)
    ensures Apply(s, e).issued == s.issued + Bit(e.Set?)
    ensures e.Set? ==> e.id in Apply(s, e).live && Apply(s, e).live[e.id] == e.entry
  {
  }

  /** While a callback is being called, the last `Fired` event is the one that called it. */
  lemma {:induction false} CallStart(log: seq<Event>, k: nat) returns (f: nat)
    requires Legal(log) && k <= |log| && At(log, k).phase.Calling?
    ensures f < k && log[f] == Fired(At(log, k).phase.id, At(log, k).phase.now)
    ensures log[f].id in At(log, f).live
    ensures At(log, f).live[log[f].id].slot == At(log, k).phase.slot
    ensures forall m :: f < m < k ==> log[m].Set? || log[m].Cleared?
  {
    hide Apply, Allowed;
    assert k > 0;
    StepAt(log, k - 1);
    StepPhase(At(log, k - 1), log[k - 1]);
    AlwaysSound(log, k - 1);
    StepNames(At(log, k - 1), log[k - 1]);
    if log[k - 1].Fired? {
      f := k - 1;
    } else {
      f := CallStart(log, k - 1);
    }
  }

  /** Where a live id came from. */
  lemma {:induction false} Origin(log: seq<Event>, id: int, k: nat) returns (s: nat)
    requires Legal(log) && k <= |log| && id in At(log, k).live
    ensures s < k && log[s].Set? && log[s].id == id == At(log, s).issued
    ensures At(log, k).live[id] == log[s].entry.(due := At(log, k).live[id].due)
  {
    hide Apply, Allowed;
    assert k > 0;
    AlwaysSound(log, k);
    AlwaysSound(log, k - 1);
    StepAt(log, k - 1);
    StepIssues(At(log, k - 1), log[k - 1]);
    StepNames(At(log, k - 1), log[k - 1]);
    if id < At(log, k - 1).issued {
      EntryKept(log, id, k - 1, k);
      s := Origin(log, id, k - 1);
    } else {
      s := k - 1;
    }
  }

  /** A timer that was live at `j` and is not at `k` left in between. */
  lemma {:induction false} LeftAt(log: seq<Event>, id: int, j: nat, k: nat) returns (m: nat)
    requires Legal(log) && j <= k <= |log|
    requires id in At(log, j).live && id !in At(log, k).live
    ensures j <= m < k && (log[m] == Cleared(id) || log[m] == Retired(id))
    decreases k - j
  {
    hide Apply, Allowed;
    AlwaysSound(log, j);
    StepAt(log, j);
    StepId(At(log, j), log[j], id);
    if id in At(log, j + 1).live {
      m := LeftAt(log, id, j + 1, k);
    } else {
      m := j;
    }
  }

  lemma {:induction false} PhaseKept(log: seq<Event>, s: nat, i: nat)
    requires Legal(log) && s <= i <= |log|
    requires forall m :: s <= m < i ==> log[m].Set? || log[m].Cleared?
    ensures At(log, i).phase == At(log, s).phase
    decreases i
  {
    hide Apply, Allowed;
    if s < i {
      PhaseKept(log, s, i - 1);
      StepAt(log, i - 1);
      StepPhase(At(log, i - 1), log[i - 1]);
    }
  }

  /** What the event that ends a call is about. */
  lemma CallEnds(log: seq<Event>, i: nat)
    requires Legal(log) && i < |log| && (log[i].Retired? || log[i].Rearmed?)
    ensures At(log, i).phase.Calling? && log[i].id in At(log, i).live
    ensures At(log, i).live[log[i].id].slot == At(log, i).phase.slot
  {
    StepAt(log, i);
  }

  /** The one way for a timer to be dropped, or for an interval to be put off, without having
      fired: it was set, during the callback that is just returning, into the slot of the
      timer that was called, after that timer had been cleared in the same callback. */
  lemma UnfiredOnlyByTakingTheSlot(log: seq<Event>, i: nat) returns (f: nat, c: nat, s: nat)
    requires Legal(log) && i < |log| && (log[i].Retired? || log[i].Rearmed?)
    requires At(log, i).phase.Calling? ==> log[i].id != At(log, i).phase.id
    ensures f < c < s < i && At(log, i).phase.Calling?
    ensures log[f] == Fired(At(log, i).phase.id, At(log, i).phase.now)
    ensures log[c] == Cleared(log[f].id)
    ensures log[s].Set? && log[s].id == log[i].id && log[s].entry.slot == At(log, i).phase.slot
    ensures forall m :: f < m < i ==> log[m].Set? || log[m].Cleared?
    ensures forall m :: 0 <= m < i ==> !(log[m].Fired? && log[m].id == log[i].id)
  {
    hide Apply, Allowed;
    var id := log[i].id;
    CallEnds(log, i);
    f := CallStart(log, i);
    var called := log[f].id;
    AlwaysSound(log, f);
    s := Origin(log, id, i);
    if s <= f {
      // it would have been live, in the same slot, when the call began
      OriginIssued(log, s, f);
      EntryKept(log, id, f, i);
      assert false;
    }
    if called in At(log, s).live {
      EntryKept(log, called, f, s);
      TwoInOneSlot(log, called, s);
      assert false;
    }
    c := LeftAt(log, called, f, s);
    StepAt(log, f);
    StepPhase(At(log, f), log[f]);
    NotFiredBefore(log, id, s, i, f);
  }

  lemma OriginIssued(log: seq<Event>, s: nat, f: nat)
    requires Legal(log) && s <= f < |log| && log[f].Fired? && log[s].Set? && log[s].id == At(log, s).issued
    ensures s < f && 0 <= log[s].id < At(log, f).issued
  {
    hide Apply, Allowed;
    AlwaysSound(log, s);
    StepAt(log, s);
    StepIssues(At(log, s), log[s]);
    Issued(log, s + 1, f);
  }

  /** A timer is never set into an occupied slot. */
  lemma TwoInOneSlot(log: seq<Event>, called: int, s: nat)
    requires Legal(log) && s < |log| && log[s].Set? && called in At(log, s).live
    ensures At(log, s).live[called].slot != log[s].entry.slot
  {
    StepAt(log, s);
  }

  /** An id is not named before it is set, and nothing fires while a callback runs. */
  lemma NotFiredBefore(log: seq<Event>, id: int, s: nat, i: nat, f: nat)
    requires Legal(log) && f < s < i <= |log| && log[s].Set? && log[s].id == id == At(log, s).issued
    requires forall m :: f < m < i ==> log[m].Set? || log[m].Cleared?
    ensures forall m :: 0 <= m < i ==> !(log[m].Fired? && log[m].id == id)
  {
    hide Apply, Allowed;
    forall m | 0 <= m < i && log[m].Fired? ensures log[m].id != id {
      AlwaysSound(log, m);
      StepAt(log, m);
      StepNames(At(log, m), log[m]);
      Issued(log, m, s);
    }
  }

  /** When a call returns, what is in its slot has fired just when it is the timer that was
      called. */
  lemma UnfiredIffNotCalled(log: seq<Event>, i: nat)
    requires Legal(log) && i < |log| && (log[i].Retired? || log[i].Rearmed?)
    ensures At(log, i).phase.Calling?
    ensures (exists m :: 0 <= m < i && log[m].Fired? && log[m].id == log[i].id)
            <==> log[i].id == At(log, i).phase.id
  {
    hide Apply, Allowed;
    CallEnds(log, i);
    if log[i].id == At(log, i).phase.id {
      var f := CallStart(log, i);
    } else {
      var f, c, s := UnfiredOnlyByTakingTheSlot(log, i);
    }
  }

  /** And that fate is sealed: a timer set into the slot of the timer being called has no
      other end to that callback than to be cleared in it, or to be dropped (one-shot) or put
      off by one delay (interval) when it returns. */
  lemma TakingTheSlotSealsFate(log: seq<Event>, s: nat, i: nat)
    requires Legal(log) && s < i < |log| && log[s].Set?
    requires At(log, s).phase.Calling? && log[s].entry.slot == At(log, s).phase.slot
    requires forall m :: s < m < i ==> log[m].Set? || log[m].Cleared?
    requires log[i].Retired? || log[i].Rearmed? || log[i].Vacated?
    ensures || (exists m :: s < m < i && log[m] == Cleared(log[s].id))
            || (!log[s].entry.repeat && log[i] == Retired(log[s].id))
            || (log[s].entry.repeat
                && log[i] == Rearmed(log[s].id, log[s].entry.due + log[s].entry.delay))
  {
    hide Apply, Allowed;
    var id := log[s].id;
    PhaseKept(log, s, i);
    AlwaysSound(log, s);
    StepAt(log, s);
    StepIssues(At(log, s), log[s]);
    if id in At(log, i).live {
      DueKept(log, s, i);
      CallEndsWithOccupant(log, i, id);
      StepAt(log, i);
      StepPhase(At(log, i), log[i]);
      if log[s].entry.repeat { PutOff(At(log, s), log[s], At(log, i), log[i]); }
    } else {
      var m := LeftAt(log, id, s + 1, i);
    }
  }

  /** An interval set while the clock had reached the pass is put off by its full delay. */
  lemma PutOff(s: State, made: Event, t: State, end: Event)
    requires made.Set? && end.Rearmed? && end.id == made.id && made.id in t.live && t.live[made.id] == made.entry
    requires Allowed(s, made) && Allowed(t, end) && s.phase.Calling? && s.phase == t.phase
    ensures end.due == made.entry.due + made.entry.delay
  {
  }

  /** Nothing that runs inside a callback moves a due time. */
  lemma {:induction false} DueKept(log: seq<Event>, s: nat, i: nat)
    requires Legal(log) && s < i <= |log| && log[s].Set? && log[s].id in At(log, i).live
    requires forall m :: s < m < i ==> log[m].Set? || log[m].Cleared?
    ensures At(log, i).live[log[s].id] == log[s].entry
    decreases i
  {
    hide Apply, Allowed;
    var id := log[s].id;
    AlwaysSound(log, s);
    StepAt(log, s);
    StepIssues(At(log, s), log[s]);
    StepNames(At(log, s), log[s]);
    if s + 1 < i {
      Issued(log, s + 1, i - 1);
      EntryKept(log, id, i - 1, i);
      DueKept(log, s, i - 1);
      StepAt(log, i - 1);
      StepId(At(log, i - 1), log[i - 1], id);
    }
  }
}
