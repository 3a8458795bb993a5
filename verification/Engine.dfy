/** The engine of qjs_timer.c: the fixed array of timers that its functions update in place.
    `Model` is the value that the specification functions of TimerTable, EventLoop and Await
    speak of; every method here says which of them takes the old value to the new one. */
module Engine {
  import opened Options
  import opened TimerHistory
  import opened TimerTable
  import opened Passes
  import opened EventLoop
  import Await

  /** What setTimeout and setInterval give back to JavaScript. */
  datatype SetResult = TimerId(id: int) | TypeError | TooManyTimers

  /** The result of JS_ExecutePendingJob. */
  datatype JobResult = Executed | NoJob | Threw

  datatype Status = Done | JobError | StillRunning

  datatype WaitResult = PromiseSettled | WaitJobError | Timeout | StillWaiting

  class Engine {
    const host: Host
    const timers: array<Timer>
    var nextTimerId: int

    // the world outside: the clock, the job queue, the promise being awaited
    var clock: int
    var ticks: nat
    var turns: nat
    var jobs: nat
    var jobsRun: nat
    var promise: Promise

    // what has happened
    ghost var samples: seq<int>
    ghost var backlog: seq<nat>
    ghost var taken: multiset<nat>
    ghost var released: multiset<nat>
    ghost var log: seq<Event>

    ghost predicate Ready()
      reads this
    {
      timers.Length == MAX_TIMERS
    }

    ghost function Model(): World
      reads this, timers
    {
      World(timers[..], nextTimerId, clock, ticks, turns, jobs, jobsRun, promise, samples, backlog, taken, released, log)
    }

    /** native_create zeroes the whole engine. */
    constructor (host: Host, clock: int)
      ensures Ready() && fresh(timers) && this.host == host
      ensures Model() == Fresh(clock)
    {
      this.host := host;
      timers := new Timer[MAX_TIMERS](_ => NO_TIMER);
      nextTimerId := 0;
      this.clock, ticks, turns, jobs, jobsRun, promise := clock, 0, 0, 0, 0, Pending;
      samples, backlog, taken, released, log := [clock], [], multiset{}, multiset{}, [];
    }

    /** now_ms. */
    method NowMs() returns (now: int)
      requires Ready()
      modifies `clock, `ticks
      ensures Model() == ReadClock(host, old(Model())) && now == clock
    {
      clock := clock + host.lag(ticks);
      ticks := ticks + 1;
      now := clock;
    }

    /** The common body of js_set_timeout and js_set_interval. */
    method SetTimer(fn: JSValue, delay: int, repeat: bool) returns (r: SetResult)
      requires Ready()
      modifies this, timers
      ensures Ready() && Model() == Schedule(host, old(Model()), fn, delay, repeat)
      ensures r == if !fn.Function? then TypeError
                   else if CanSet(old(Model()), fn) then TimerId(old(nextTimerId))
                   else TooManyTimers
    {
      if !fn.Function? {
        return TypeError;
      }
      var delayMs := if delay < 0 then 0 else delay;
      for i := 0 to MAX_TIMERS
        invariant Model() == old(Model())
        invariant forall j :: 0 <= j < i ==> timers[j].active
      {
        if !timers[i].active {
          FirstFreeIs(timers[..], i);
          var id := Install(i, fn, delayMs, repeat);
          return TimerId(id);
        }
      }
      return TooManyTimers;
    }

    /** The stores into the free entry. */
    method Install(i: nat, fn: JSValue, delayMs: nat, repeat: bool) returns (id: int)
      requires Ready() && fn.Function? && i < MAX_TIMERS && i == FirstFree(Model().slots)
      modifies this, timers
      ensures Ready() && id == old(nextTimerId)
      ensures Model() == Schedule(host, old(Model()), fn, delayMs, repeat)
    {
      hide FirstFree;
      id := nextTimerId;
      nextTimerId := nextTimerId + 1;
      taken := taken + Refs(fn);
      var now := NowMs();
      var fireTime := now + delayMs;
      timers[i] := Timer(id, fn, delayMs, repeat, fireTime, true);
      log := log + [Set(id, Entry(i, fn.callback, delayMs, repeat, now, fireTime))];
    }

    /** js_clear_timer; the argument is absent or does not convert in the `None` case. */
    method ClearTimer(arg: Option<int>)
      requires Ready()
      modifies `released, `log, timers
      ensures Model() == Cancel(old(Model()), arg)
    {
      if arg.None? {
        return;
      }
      for i := 0 to MAX_TIMERS
        invariant Model() == old(Model())
        invariant forall j :: 0 <= j < i ==> !(timers[j].active && timers[j].id == arg.value)
      {
        if timers[i].active && timers[i].id == arg.value {
          FindActiveIs(timers[..], arg.value, i);
          released := released + Refs(timers[i].callback);
          timers[i] := timers[i].(callback := Undefined, active := false);
          log := log + [Cleared(arg.value)];
          return;
        }
      }
      NotFound(timers[..], arg.value);
    }

    /** One thing that JavaScript does to the engine. */
    method RunOp(op: Op)
      requires Ready()
      modifies this, timers
      ensures Ready() && Model() == Step(host, old(Model()), op)
    {
      match op {
        case SetTimer(fn, delay, repeat) => var r := SetTimer(fn, delay, repeat);
        case ClearTimer(arg) => ClearTimer(arg);
        case EnqueueJob => jobs := jobs + 1;
        case Settle(rejected) =>
          if promise.Pending? { promise := if rejected then Rejected else Fulfilled; }
      }
    }

    /** One call into JavaScript, through the functions above. */
    method RunTurn()
      requires Ready()
      modifies this, timers
      ensures Ready() && Model() == Turn(host, old(Model()))
    {
      hide Step;
      var ops := host.script(turns);
      ghost var start := Model().(turns := turns + 1);
      turns := turns + 1;
      assert ops[..0] == [];
      for k := 0 to |ops|
        invariant Ready() && Model() == Run(host, start, ops[..k])
      {
        assert ops[..k + 1][..k] == ops[..k];
        RunOp(ops[k]);
      }
      assert ops[..|ops|] == ops;
    }

    /** JS_ExecutePendingJob. */
    method ExecutePendingJob() returns (r: JobResult)
      requires Ready()
      modifies this, timers
      ensures Ready() && Model() == ExecuteJob(host, old(Model()))
      ensures r == if old(jobs) == 0 then NoJob else if JobThrows(host, old(Model())) then Threw else Executed
    {
      if jobs == 0 {
        return NoJob;
      }
      var throws := host.jobThrows(jobsRun);
      jobs, jobsRun := jobs - 1, jobsRun + 1;
      RunTurn();
      return if throws then Threw else Executed;
    }

    /** What follows a callback: the entry is looked at again, whatever it now holds. */
    method FinishCall(i: nat, now: int)
      requires Ready() && i < MAX_TIMERS
      modifies `released, `log, timers
      ensures Model() == AfterCall(old(Model()), i, now)
    {
      var t := timers[i];
      if t.repeat {
        t := t.(fireTime := t.fireTime + t.delay);
        if t.fireTime < now { t := t.(fireTime := now); }
        timers[i] := t;
        log := log + [if t.active then Rearmed(t.id, t.fireTime) else Vacated];
      } else {
        released := released + Refs(t.callback);
        timers[i] := t.(callback := Undefined, active := false);
        log := log + [if t.active then Retired(t.id) else Vacated];
      }
    }

    /** The body of a pass, for one entry. An exception of the callback is discarded. */
    method FireIfDue(i: nat, now: int) returns (fired: bool)
      requires Ready() && i < MAX_TIMERS
      modifies this, timers
      ensures Ready() && Model() == Visit(host, old(Model()), i, now)
      ensures turns == old(turns) + if fired then 1 else 0
    {
      hide Turn, AfterCall;
      VisitTurns(host, Model(), i, now);
      if !timers[i].active || now < timers[i].fireTime {
        return false;
      }
      log := log + [Fired(timers[i].id, now)];
      RunTurn();
      FinishCall(i, now);
      return true;
    }

    /** process_timers. */
    method ProcessTimers()
      requires Ready()
      modifies this, timers
      ensures Ready() && Model() == TimerTable.ProcessTimers(host, old(Model()))
    {
      hide Visit;
      var now := NowMs();
      samples, backlog := samples + [now], backlog + [jobs];
      ghost var start := Model();
      for i := 0 to MAX_TIMERS
        invariant Ready() && Model() == PassTo(host, start, now, i)
      {
        var fired := FireIfDue(i, now);
      }
    }

    method HasActiveTimers() returns (b: bool)
      requires Ready()
      ensures b == HasActive(Model().slots)
    {
      for i := 0 to MAX_TIMERS
        invariant forall j :: 0 <= j < i ==> !timers[j].active
      {
        if timers[i].active { return true; }
      }
      return false;
    }

    method FreeAllTimers()
      requires Ready()
      modifies `released, `log, timers
      ensures Model() == FreeAll(old(Model()))
    {
      for i := 0 to MAX_TIMERS
        invariant Model() == FreeTo(old(Model()), i)
      {
        if timers[i].active {
          released := released + Refs(timers[i].callback);
          log := log + [Cleared(timers[i].id)];
          timers[i] := timers[i].(callback := Undefined, active := false);
        }
      }
    }

    /** engine_sleep_ms. */
    method SleepMs(ms: int)
      requires Ready()
      modifies `clock
      ensures Model() == Sleep(old(Model()), ms)
    {
      clock := clock + if ms < 1 then 1 else ms;
    }

    /** The inner loop of drain_jobs and run_event_loop: jobs until there is none. */
    method RunQueuedJobs(fuel: nat) returns (s: Status, progress: bool)
      requires Ready()
      modifies this, timers
      ensures Ready() && Reports(s, RunJobs(host, old(Model()), fuel), Model())
      ensures old(turns) <= turns && (progress <==> turns != old(turns))
    {
      progress := false;
      ghost var start := Model();
      for n := 0 to fuel
        invariant Ready() && RunJobs(host, Model(), fuel - n) == RunJobs(host, start, fuel)
        invariant start.turns <= turns && (progress <==> turns != start.turns)
      {
        JobTurns(host, Model());
        var r := ExecutePendingJob();
        match r {
          case NoJob => return Done, progress;
          case Threw => return JobError, true;
          case Executed => progress := true;
        }
      }
      return StillRunning, progress;
    }

    /** The pass that drain_jobs and run_event_loop each repeat from process_timers, with a
        flag that says whether anything fired. */
    method FireDue() returns (progress: bool)
      requires Ready()
      modifies this, timers
      ensures Ready() && Model() == TimerTable.ProcessTimers(host, old(Model()))
      ensures old(turns) <= turns && (progress <==> turns != old(turns))
    {
      progress := false;
      hide Visit;
      var now := NowMs();
      samples, backlog := samples + [now], backlog + [jobs];
      ghost var start := Model();
      for i := 0 to MAX_TIMERS
        invariant Ready() && Model() == PassTo(host, start, now, i)
        invariant start.turns <= turns && (progress <==> turns != start.turns)
      {
        var fired := FireIfDue(i, now);
        if fired { progress := true; }
      }
    }

    /** drain_jobs. */
    method DrainJobs(fuel: nat) returns (s: Status)
      requires Ready()
      modifies this, timers
      ensures Ready() && Reports(s, EventLoop.DrainJobs(host, old(Model()), fuel, fuel), Model())
    {
      hide RunJobs, TimerTable.ProcessTimers;
      ghost var target := EventLoop.DrainJobs(host, Model(), fuel, fuel);
      for n := 0 to fuel
        invariant Ready() && EventLoop.DrainJobs(host, Model(), fuel, fuel - n) == target
      {
        var ran, fired;
        s, ran := RunQueuedJobs(fuel);
        if s != Done {
          return;
        }
        fired := FireDue();
        if !ran && !fired {
          return;
        }
      }
      return StillRunning;
    }

    /** run_event_loop. */
    method RunEventLoop(maxWait: int, fuel: nat) returns (s: Status)
      requires Ready()
      modifies this, timers
      ensures Ready() && Reports(s, EventLoop.RunEventLoop(host, old(Model()), maxWait, fuel), Model())
    {
      hide RunJobs, TimerTable.ProcessTimers, HasActive;
      ghost var target := EventLoop.RunEventLoop(host, Model(), maxWait, fuel);
      var start := NowMs();
      for n := 0 to fuel
        invariant Ready() && EventRounds(host, Model(), start, maxWait, fuel, fuel - n) == target
      {
        var ran, fired;
        s, ran := RunQueuedJobs(fuel);
        if s != Done {
          return;
        }
        fired := FireDue();
        if !ran && !fired {
          var waiting := HasActiveTimers();
          if !waiting {
            return;
          }
          if maxWait > 0 {
            var now := NowMs();
            if now - start >= maxWait { return; }
          }
          SleepMs(1);
        } else if maxWait > 0 {
          var now := NowMs();
          if now - start >= maxWait { return; }
        }
      }
      return StillRunning;
    }

    /** The wait of native_await_promise and native_eval_async. */
    method AwaitPromise(timeoutMs: int, fuel: nat) returns (r: WaitResult)
      requires Ready()
      modifies this, timers
      ensures Ready() && WaitReports(r, Await.AwaitPromise(host, old(Model()), timeoutMs, fuel), Model())
    {
      hide TimerTable.ProcessTimers, Turn;
      ghost var target := Await.AwaitPromise(host, Model(), timeoutMs, fuel);
      var deadline := 0;
      if timeoutMs > 0 {
        var now := NowMs();
        deadline := now + timeoutMs;
      }
      var left := fuel;
      while promise.Pending? && left > 0
        invariant Ready() && Await.AwaitLoop(host, Model(), deadline, left) == target
        decreases left
      {
        left := left - 1;
        ProcessTimers();
        var job := ExecutePendingJob();
        if job == Threw {
          return WaitJobError;
        }
        if job == NoJob {
          if deadline > 0 {
            var now := NowMs();
            if now >= deadline { return Timeout; }
          }
          SleepMs(1);
        }
      }
      return if promise.Pending? then StillWaiting else PromiseSettled;
    }
  }

  /** The status and the state that an outcome stands for. */
  predicate Reports(s: Status, o: Outcome, w: World) {
    && o.world == w
    && match s
       case Done => o.Returned?
       case JobError => o.Failed?
       case StillRunning => o.Running?
  }

  predicate WaitReports(r: WaitResult, e: Await.End, w: World) {
    && e.world == w
    && match r
       case PromiseSettled => e.Settled?
       case WaitJobError => e.JobFailed?
       case Timeout => e.TimedOut?
       case StillWaiting => e.Waiting?
  }

  lemma JobTurns(host: Host, w: World)
    ensures w.jobs > 0 ==> ExecuteJob(host, w).turns == w.turns + 1
  {
    if w.jobs > 0 { TurnEffect(host, w.(jobs := w.jobs - 1, jobsRun := w.jobsRun + 1)); }
  }

  lemma FindActiveIs(slots: seq<Timer>, id: int, i: nat)
    requires i < |slots| && slots[i].active && slots[i].id == id
    requires forall j :: 0 <= j < i ==> !(slots[j].active && slots[j].id == id)
    ensures FindActive(slots, id) == i
  {
  }

  lemma NotFound(slots: seq<Timer>, id: int)
    requires forall j :: 0 <= j < |slots| ==> !(slots[j].active && slots[j].id == id)
    ensures FindActive(slots, id) == |slots|
  {
  }
}
