/** The timer table of qjs_timer.c as a value, with the host that JavaScript runs in: what
    each callback or job does, how the clock moves, and how many jobs are queued. */
module TimerTable {
  import opened Options
  import opened TimerHistory
  import Ownership

  const MAX_TIMERS := 256

  /** A JavaScript value, as far as reference counting and calling go. */
  datatype JSValue = Undefined | Function(callback: nat)

  datatype Timer = Timer(id: int, callback: JSValue, delay: int, repeat: bool, fireTime: int, active: bool)

  /** What JavaScript can do to the engine while it runs. */
  datatype Op =
    | SetTimer(fn: JSValue, delay: int, repeat: bool)
    | ClearTimer(id: Option<int>)
    | EnqueueJob
    | Settle(rejected: bool)

  /** The environment: what the n-th turn of JavaScript does before it returns or throws,
      whether the n-th job throws, and how far the clock has moved when it is read for the
      n-th time. Any behaviour of callbacks and jobs, and any clock that does not run
      backwards, is some value of this type. Whether a timer callback throws is not part of
      it: the code discards the exception and goes on in the same way. */
  datatype Host = Host(script: nat -> seq<Op>, jobThrows: nat -> bool, lag: nat -> nat)

  datatype Promise = Pending | Fulfilled | Rejected

  datatype World = World(
    slots: seq<Timer>,
    nextId: int,
    clock: int,
    ticks: nat,
    turns: nat,
    jobs: nat,
    jobsRun: nat,
    promise: Promise,
    samples: seq<int>,          // the clock at creation, and as each pass sampled it
    backlog: seq<nat>,          // how many jobs were queued as each pass began
    taken: multiset<nat>,       // callback references taken with JS_DupValue
    released: multiset<nat>,    // callback references given back with JS_FreeValue
    log: seq<Event>)

  const NO_TIMER := Timer(0, Undefined, 0, false, 0, false)

  // ---- the clock and the references ---------------------------------------------------

  function ReadClock(host: Host, w: World): World {
    w.(clock := w.clock + host.lag(w.ticks), ticks := w.ticks + 1)
  }

  function Refs(v: JSValue): multiset<nat> {
    match v
    case Undefined => multiset{}
    case Function(callback) => multiset{callback}
  }

  // ---- setting and clearing -----------------------------------------------------------

  function FirstFree(slots: seq<Timer>): (i: nat)
    ensures i <= |slots|
    ensures i < |slots| ==> !slots[i].active
    ensures forall j :: 0 <= j < i ==> slots[j].active
  {
    if slots == [] || !slots[0].active then 0 else 1 + FirstFree(slots[1..])
  }

  function FindActive(slots: seq<Timer>, id: int): (i: nat)
    ensures i <= |slots|
    ensures i < |slots| ==> slots[i].active && slots[i].id == id
    ensures forall j :: 0 <= j < i ==> !(slots[j].active && slots[j].id == id)
  {
    if slots == [] || (slots[0].active && slots[0].id == id) then 0 else 1 + FindActive(slots[1..], id)
  }

  function Clamped(delay: int): nat { if delay < 0 then 0 else delay }

  predicate CanSet(w: World, fn: JSValue) {
    fn.Function? && FirstFree(w.slots) < |w.slots|
  }

  /** js_set_timeout and js_set_interval. */
  function Schedule(host: Host, w: World, fn: JSValue, delay: int, repeat: bool): World {
    if !CanSet(w, fn) then w
    else
      var i := FirstFree(w.slots);
      var n := ReadClock(host, w);
      var d := Clamped(delay);
      var due := n.clock + d;
      n.(slots := w.slots[i := Timer(w.nextId, fn, d, repeat, due, true)],
         nextId := w.nextId + 1,
         taken := w.taken + Refs(fn),
         log := w.log + [Set(w.nextId, Entry(i, fn.callback, d, repeat, n.clock, due))])
  }

  function Vacant(t: Timer): Timer { t.(callback := Undefined, active := false) }

  /** js_clear_timer. */
  function Cancel(w: World, arg: Option<int>): World {
    if arg.None? || FindActive(w.slots, arg.value) == |w.slots| then w
    else
      var i := FindActive(w.slots, arg.value);
      w.(slots := w.slots[i := Vacant(w.slots[i])],
         released := w.released + Refs(w.slots[i].callback),
         log := w.log + [Cleared(arg.value)])
  }

  // ---- running JavaScript -------------------------------------------------------------

  function Step(host: Host, w: World, op: Op): World {
    match op
    case SetTimer(fn, delay, repeat) => Schedule(host, w, fn, delay, repeat)
    case ClearTimer(arg) => Cancel(w, arg)
    case EnqueueJob => w.(jobs := w.jobs + 1)
    case Settle(rejected) =>
      if w.promise.Pending? then w.(promise := if rejected then Rejected else Fulfilled) else w
  }

  function Run(host: Host, w: World, ops: seq<Op>): World {
    if ops == [] then w
    else Step(host, Run(host, w, ops[..|ops| - 1]), ops[|ops| - 1])
  }

  /** One call into JavaScript: the script of the next turn runs. */
  function Turn(host: Host, w: World): World {
    Run(host, w.(turns := w.turns + 1), host.script(w.turns))
  }

  // ---- one slot of a pass -------------------------------------------------------------

  predicate Due(t: Timer, now: int) { t.active && t.fireTime <= now }

  /** What follows the call of the callback in slot `i`, whatever is in the slot by then. */
  function AfterCall(w: World, i: nat, now: int): World
    requires i < |w.slots|
  {
    var t := w.slots[i];
    if t.repeat then
      var due := Max(t.fireTime + t.delay, now);
      w.(slots := w.slots[i := t.(fireTime := due)],
         log := w.log + [if t.active then Rearmed(t.id, due) else Vacated])
    else
      w.(slots := w.slots[i := Vacant(t)],
         released := w.released + Refs(t.callback),
         log := w.log + [if t.active then Retired(t.id) else Vacated])
  }

  function Call(host: Host, w: World, i: nat, now: int): World
    requires i < |w.slots|
  {
    Turn(host, w.(log := w.log + [Fired(w.slots[i].id, now)]))
  }

  function Visit(host: Host, w: World, i: nat, now: int): (v: World)
    requires i < |w.slots|
    ensures |v.slots| == |w.slots|
  {
    if !Due(w.slots[i], now) then w
    else
      TurnKeepsSize(host, w.(log := w.log + [Fired(w.slots[i].id, now)]));
      AfterCall(Call(host, w, i, now), i, now)
  }

  /** The first `k` slots of a pass that sampled the clock at `now`. */
  function PassTo(host: Host, w: World, now: int, k: nat): (v: World)
    requires k <= |w.slots|
    ensures |v.slots| == |w.slots|
  {
    if k == 0 then w else Visit(host, PassTo(host, w, now, k - 1), k - 1, now)
  }

  function Pass(host: Host, w: World, now: int): World { PassTo(host, w, now, |w.slots|) }

  /** process_timers. */
  function ProcessTimers(host: Host, w: World): World {
    var n := Sampled(host, w);
    Pass(host, n, n.clock)
  }

  /** The reading of the clock that a pass goes by. */
  function Sampled(host: Host, w: World): World {
    var n := ReadClock(host, w);
    n.(samples := n.samples + [n.clock], backlog := n.backlog + [n.jobs])
  }

  /** The first `k` slots of free_all_timers. */
  function FreeTo(w: World, k: nat): (v: World)
    requires k <= |w.slots|
    ensures |v.slots| == |w.slots|
  {
    if k == 0 then w
    else
      var v := FreeTo(w, k - 1);
      var t := v.slots[k - 1];
      if !t.active then v
      else v.(slots := v.slots[k - 1 := Vacant(t)],
              released := v.released + Refs(t.callback),
              log := v.log + [Cleared(t.id)])
  }

  function FreeAll(w: World): World { FreeTo(w, |w.slots|) }

  lemma {:induction false} RunKeepsSize(host: Host, w: World, ops: seq<Op>)
    ensures |Run(host, w, ops).slots| == |w.slots|
  {
    if ops != [] { RunKeepsSize(host, w, ops[..|ops| - 1]); }
  }

  lemma TurnKeepsSize(host: Host, w: World)
    ensures |Turn(host, w).slots| == |w.slots|
  {
    RunKeepsSize(host, w.(turns := w.turns + 1), host.script(w.turns));
  }

  // ---- what every world keeps ---------------------------------------------------------

  const TIMER_REFS: Timer -> multiset<nat> := (t: Timer) => Refs(t.callback)

  /** Which callbacks the table owns. */
  function Owned(slots: seq<Timer>): multiset<nat> { Ownership.Owned(slots, TIMER_REFS) }

  function ActiveCount(slots: seq<Timer>): nat {
    if slots == [] then 0 else ActiveCount(slots[..|slots| - 1]) + Bit(slots[|slots| - 1].active)
  }

  /** An active slot owns its callback, and an inactive one owns nothing. */
  ghost predicate SlotsWellFormed(slots: seq<Timer>) {
    && |slots| == MAX_TIMERS
    && (forall i :: 0 <= i < |slots| ==> (slots[i].active <==> slots[i].callback.Function?))
    && (forall i :: 0 <= i < |slots| && slots[i].active ==> slots[i].delay >= 0)
  }

  predicate Describes(e: Entry, i: nat, t: Timer) {
    && e.slot == i && t.callback == Function(e.callback) && e.delay == t.delay
    && e.repeat == t.repeat && e.due == t.fireTime
  }

  /** The table holds exactly the timers of the map. */
  ghost predicate Holds(slots: seq<Timer>, live: map<int, Entry>) {
    && (forall i :: 0 <= i < |slots| && slots[i].active ==>
          slots[i].id in live && Describes(live[slots[i].id], i, slots[i]))
    && (forall id :: id in live ==>
          live[id].slot < |slots| && slots[live[id].slot].active && slots[live[id].slot].id == id)
  }

  /** The table refines its history: the history is legal, and what it leaves live is what
      the table holds. */
  ghost predicate Refines(w: World) {
    && Legal(w.log) && Now(w.log).issued == w.nextId && Holds(w.slots, Now(w.log).live)
  }

  /** Callback references taken are those given back and those the table owns. */
  ghost predicate Balanced(w: World) {
    w.taken == w.released + Owned(w.slots)
  }

  /** No call in progress can have sampled the clock after it. */
  ghost predicate CallsInThePast(w: World) {
    Now(w.log).phase.Calling? ==> Now(w.log).phase.now <= w.clock
  }

  ghost predicate Valid(w: World) {
    SlotsWellFormed(w.slots) && Refines(w) && Balanced(w) && CallsInThePast(w)
  }

  /** Valid, with no callback being called. */
  ghost predicate AtRest(w: World) {
    Valid(w) && Now(w.log).phase.Resting?
  }

  /** The engine that native_create allocates. */
  function Fresh(clock: int): World {
    World(seq(MAX_TIMERS, _ => NO_TIMER), 0, clock, 0, 0, 0, 0, Pending, [clock], [], multiset{}, multiset{}, [])
  }

  // ---- preservation -------------------------------------------------------------------

  /** Adding one event and updating the table accordingly keeps the refinement. */
  lemma RefinesStep(w: World, v: World, e: Event)
    requires Refines(w) && v.log == w.log + [e] && Allowed(Now(w.log), e)
    requires Apply(Now(w.log), e).issued == v.nextId && Holds(v.slots, Apply(Now(w.log), e).live)
    ensures Refines(v) && Now(v.log) == Apply(Now(w.log), e)
  {
    hide Allowed, Apply, Holds;
    Extend(w.log, e);
  }

  /** Updating one slot moves references between the table and the two counts. */
  lemma BalancedStep(w: World, v: World, i: nat, t: Timer)
    requires Balanced(w) && i < |w.slots| && v.slots == w.slots[i := t]
    requires || (v.released == w.released && v.taken == w.taken + Refs(t.callback)
                 && w.slots[i].callback.Undefined?)
             || (v.taken == w.taken && v.released == w.released + Refs(w.slots[i].callback)
                 && t.callback.Undefined?)
             || (v.taken == w.taken && v.released == w.released && t.callback == w.slots[i].callback)
    ensures Balanced(v)
  {
    hide Ownership.Owned, Refs;
    Ownership.OwnedUpdate(w.slots, TIMER_REFS, i, t);
    Rebalance(w.released, Owned(w.slots), Owned(v.slots), Refs(w.slots[i].callback), Refs(t.callback));
    NoRefs();
  }

  lemma NoRefs()
    ensures Refs(Undefined) == multiset{}
  {
  }

  lemma Rebalance(r: multiset<nat>, o: multiset<nat>, p: multiset<nat>, x: multiset<nat>, y: multiset<nat>)
    requires p + x == o + y
    ensures x == multiset{} ==> r + o + y == r + p
    ensures y == multiset{} ==> r + x + p == r + o
    ensures x == y ==> o == p
  {
    if x == multiset{} {
      assert p == p + x;
    }
    if y == multiset{} {
      assert o == o + y;
      assert r + x + p == r + (p + x);
    }
    if x == y {
      assert forall c :: p[c] + x[c] == (p + x)[c] == (o + y)[c] == o[c] + y[c];
    }
  }

  lemma SetKeepsValid(host: Host, w: World, fn: JSValue, delay: int, repeat: bool)
    requires Valid(w)
    ensures var v := Schedule(host, w, fn, delay, repeat);
            Valid(v) && Now(v.log).phase == Now(w.log).phase && w.log <= v.log
  {
    hide Owned, Refs, Legal, At, Allowed, Apply, Holds;
    if CanSet(w, fn) {
      var v := Schedule(host, w, fn, delay, repeat);
      var i := FirstFree(w.slots);
      var e := v.log[|w.log|];
      AlwaysSound(w.log, |w.log|);
      HoldsSet(w.slots, Now(w.log), i, v.slots[i], e);
      RefinesStep(w, v, e);
      BalancedStep(w, v, i, v.slots[i]);
    }
  }

  lemma HoldsSet(slots: seq<Timer>, s: State, i: nat, t: Timer, e: Event)
    requires Holds(slots, s.live) && Sound(s) && i < |slots| && !slots[i].active && t.active
    requires e.Set? && e.id == t.id == s.issued && Describes(e.entry, i, t)
    requires e.entry.due == e.entry.setAt + e.entry.delay
    requires s.phase.Calling? ==> s.phase.now <= e.entry.setAt
    ensures Allowed(s, e) && Holds(slots[i := t], Apply(s, e).live)
    ensures Apply(s, e).issued == s.issued + 1 && Apply(s, e).phase == s.phase
  {
  }

  lemma HoldsRemove(slots: seq<Timer>, s: State, i: nat, e: Event)
    requires Holds(slots, s.live) && i < |slots| && slots[i].active
    requires e == Cleared(slots[i].id) || e == Retired(slots[i].id)
    requires e.Retired? ==> s.phase.Calling? && s.phase.slot == i && !slots[i].repeat
    ensures Allowed(s, e) && Holds(slots[i := Vacant(slots[i])], Apply(s, e).live)
    ensures Apply(s, e).issued == s.issued
    ensures Apply(s, e).phase == if e.Retired? then Resting else s.phase
  {
  }

  lemma HoldsRearm(slots: seq<Timer>, s: State, i: nat, due: int, e: Event)
    requires Holds(slots, s.live) && i < |slots| && slots[i].active && slots[i].repeat
    requires s.phase.Calling? && s.phase.slot == i
    requires due == Max(slots[i].fireTime + slots[i].delay, s.phase.now) && e == Rearmed(slots[i].id, due)
    ensures Allowed(s, e) && Holds(slots[i := slots[i].(fireTime := due)], Apply(s, e).live)
    ensures Apply(s, e).issued == s.issued && Apply(s, e).phase == Resting
  {
  }

  lemma HoldsVacated(slots: seq<Timer>, s: State, i: nat, t: Timer)
    requires Holds(slots, s.live) && i < |slots| && !slots[i].active && !t.active
    requires s.phase.Calling? && s.phase.slot == i
    ensures Allowed(s, Vacated) && Holds(slots[i := t], Apply(s, Vacated).live)
    ensures Apply(s, Vacated).issued == s.issued && Apply(s, Vacated).phase == Resting
  {
  }

  lemma HoldsFired(slots: seq<Timer>, s: State, i: nat, now: int)
    requires Holds(slots, s.live) && i < |slots| && Due(slots[i], now) && s.phase.Resting?
    ensures var e := Fired(slots[i].id, now);
            Allowed(s, e) && Apply(s, e) == s.(phase := Calling(i, now, slots[i].id))
  {
  }

  lemma ClearKeepsValid(w: World, arg: Option<int>)
    requires Valid(w)
    ensures var v := Cancel(w, arg);
            Valid(v) && Now(v.log).phase == Now(w.log).phase && w.log <= v.log
  {
    hide Owned, Refs, Legal, At, Allowed, Apply, Holds;
    if arg.Some? && FindActive(w.slots, arg.value) < |w.slots| {
      var v := Cancel(w, arg);
      var i := FindActive(w.slots, arg.value);
      var e := Cleared(arg.value);
      HoldsRemove(w.slots, Now(w.log), i, e);
      RefinesStep(w, v, e);
      BalancedStep(w, v, i, v.slots[i]);
    }
  }

  lemma StepKeepsValid(host: Host, w: World, op: Op)
    requires Valid(w)
    ensures var v := Step(host, w, op);
            Valid(v) && Now(v.log).phase == Now(w.log).phase && w.log <= v.log
  {
    hide Owned, Refs, Legal, At, Schedule, Cancel, Holds;
    match op
    case SetTimer(fn, delay, repeat) => SetKeepsValid(host, w, fn, delay, repeat);
    case ClearTimer(arg) => ClearKeepsValid(w, arg);
    case EnqueueJob =>
    case Settle(_) =>
  }

  lemma {:induction false} RunKeepsValid(host: Host, w: World, ops: seq<Op>)
    requires Valid(w)
    ensures var v := Run(host, w, ops);
            Valid(v) && Now(v.log).phase == Now(w.log).phase && w.log <= v.log
  {
    hide Valid, At, Step;
    if ops != [] {
      var n := |ops| - 1;
      RunKeepsValid(host, w, ops[..n]);
      StepKeepsValid(host, Run(host, w, ops[..n]), ops[n]);
    }
  }

  lemma TurnKeepsValid(host: Host, w: World)
    requires Valid(w)
    ensures var v := Turn(host, w);
            Valid(v) && Now(v.log).phase == Now(w.log).phase && w.log <= v.log
  {
    hide Run, Owned, Legal, At, Holds;
    RunKeepsValid(host, w.(turns := w.turns + 1), host.script(w.turns));
  }

  /** The code after the call restores validity whatever the callback left in the slot. */
  lemma AfterCallKeepsValid(w: World, i: nat, now: int)
    requires Valid(w) && i < |w.slots|
    requires Now(w.log).phase.Calling? && Now(w.log).phase.slot == i && Now(w.log).phase.now == now
    ensures AtRest(AfterCall(w, i, now)) && w.log <= AfterCall(w, i, now).log
  {
    hide Owned, Refs, Legal, At, Allowed, Apply, Holds;
    var v := AfterCall(w, i, now);
    var t := w.slots[i];
    var s := Now(w.log);
    var e := v.log[|w.log|];
    if !t.active { HoldsVacated(w.slots, s, i, v.slots[i]); }
    else if t.repeat { HoldsRearm(w.slots, s, i, v.slots[i].fireTime, e); }
    else { HoldsRemove(w.slots, s, i, e); }
    RefinesStep(w, v, e);
    BalancedStep(w, v, i, v.slots[i]);
  }

  lemma FiringKeepsValid(w: World, i: nat, now: int)
    requires AtRest(w) && i < |w.slots| && Due(w.slots[i], now) && now <= w.clock
    ensures var v := w.(log := w.log + [Fired(w.slots[i].id, now)]);
            Valid(v) && Now(v.log).phase == Calling(i, now, w.slots[i].id)
  {
    hide Owned, Refs, Legal, At, Allowed, Apply, Holds;
    var e := Fired(w.slots[i].id, now);
    HoldsFired(w.slots, Now(w.log), i, now);
    RefinesStep(w, w.(log := w.log + [e]), e);
  }

  lemma VisitKeepsValid(host: Host, w: World, i: nat, now: int)
    requires AtRest(w) && i < |w.slots| && now <= w.clock
    ensures var v := Visit(host, w, i, now);
            AtRest(v) && w.log <= v.log && now <= v.clock
  {
    hide Run, Owned, Refs, Legal, At, Holds;
    if Due(w.slots[i], now) {
      FiringKeepsValid(w, i, now);
      var u := w.(log := w.log + [Fired(w.slots[i].id, now)]);
      TurnKeepsValid(host, u);
      AfterCallKeepsValid(Turn(host, u), i, now);
    }
  }

  lemma {:induction false} PassKeepsValid(host: Host, w: World, now: int, k: nat)
    requires AtRest(w) && k <= |w.slots| && now <= w.clock
    ensures var v := PassTo(host, w, now, k);
            AtRest(v) && w.log <= v.log && now <= v.clock
  {
    hide AtRest, Visit;
    if k > 0 {
      PassKeepsValid(host, w, now, k - 1);
      VisitKeepsValid(host, PassTo(host, w, now, k - 1), k - 1, now);
    }
  }

  lemma ReadClockKeepsValid(host: Host, w: World)
    requires Valid(w)
    ensures Valid(ReadClock(host, w))
  {
  }

  lemma {:induction false} FreeKeepsValid(w: World, k: nat)
    requires AtRest(w) && k <= |w.slots|
    ensures AtRest(FreeTo(w, k)) && w.log <= FreeTo(w, k).log
    ensures forall i :: 0 <= i < k ==> !FreeTo(w, k).slots[i].active
  {
    hide Owned, Refs, Legal, At, Allowed, Apply, Holds;
    if k > 0 {
      FreeKeepsValid(w, k - 1);
      var u := FreeTo(w, k - 1);
      var t := u.slots[k - 1];
      if t.active {
        var v := FreeTo(w, k);
        var e := Cleared(t.id);
        HoldsRemove(u.slots, Now(u.log), k - 1, e);
        RefinesStep(u, v, e);
        BalancedStep(u, v, k - 1, v.slots[k - 1]);
      }
    }
  }

  lemma NothingOwned(slots: seq<Timer>)
    requires forall i :: 0 <= i < |slots| ==> slots[i].callback.Undefined?
    ensures Owned(slots) == multiset{}
  {
    Ownership.NothingOwned(slots, TIMER_REFS);
  }

  lemma FreshIsValid(clock: int)
    ensures AtRest(Fresh(clock))
  {
    NothingOwned(Fresh(clock).slots);
  }
}
