/** eval_common: the deadline, and what the call owns, on each of its exits. */
module Evaluation {
  import opened Unicode
  import opened Options
  import opened TimerTable
  import opened EventLoop
  import opened PendingJobs
  import opened Exits
  import Await
  import Codec
  import Utf8
  import E = Engine

  /** What JSON.stringify makes of the result. */
  datatype Json = JsonThrew | JsonUndefined | JsonText

  /** The pending exception, as far as reporting it goes. */
  datatype Thrown = Thrown(
    stackUsable: bool,                 // its `stack` is not an exception, undefined or null
    stackText: Option<seq<Byte>>,      // js_value_to_utf8 of the stack
    ownText: Option<seq<Byte>>,        // js_value_to_utf8 of the exception
    fallbackAllocated: bool,           // malloc for the fallback text
    exceptionBuilt: bool)              // utf8_to_jstring of the message, and the Java exception

  /** What the engine and the allocator decide during one call. */
  datatype Choices = Choices(
    sourceConverts: bool,         // jstring_to_utf8 of the source
    filenameConverts: bool,       // jstring_to_utf8 of the file name
    evaluates: bool,              // JS_Eval returns a value
    json: Json,                   // JS_JSONStringify, if asked for
    text: Option<seq<Byte>>,      // js_value_to_utf8 of the output
    exceptionLeft: bool,          // JS_HasException after that failed
    thrown: Thrown,               // the exception to report, if it comes to that
    stringAllocated: bool)        // utf8_to_jstring

  datatype EvalResult =
    | NotConverted                       // an argument could not be converted
    | ScriptThrew(message: Option<seq<Unit>>)
    | JobFailed(message: Option<seq<Unit>>)  // a job threw, or the deadline passed
    | JsonFailed(message: Option<seq<Unit>>)
    | NoJson                             // null: the value has no JSON form
    | NoText(message: Option<seq<Unit>>) // the output could not be converted
    | OutOfMemory                        // the same, without an exception to report
    | NoString                           // the Java string could not be allocated
    | Text(units: seq<Unit>)
    | StillEvaluating                    // still running jobs

  /** "JavaScript exception". */
  const FALLBACK: seq<Byte> :=
    [0x4A, 0x61, 0x76, 0x61, 0x53, 0x63, 0x72, 0x69, 0x70, 0x74, 0x20,
     0x65, 0x78, 0x63, 0x65, 0x70, 0x74, 0x69, 0x6F, 0x6E]

  /** The message that reaches Java: the stack, else the exception's own text, else the fallback;
      or none, and no exception of ours, if that cannot be built. Without even a buffer for the
      fallback, the fallback is thrown from a constant. */
  function Message(t: Thrown): Option<seq<Unit>> {
    var text := if t.stackUsable && t.stackText.Some? then t.stackText
                else if t.ownText.Some? then t.ownText
                else if t.fallbackAllocated then Some(FALLBACK)
                else None;
    if text.None? then Some(Codec.Decode(FALLBACK))
    else if t.exceptionBuilt then Some(Codec.Decode(text.value))
    else None
  }

  /** The result, from what was decided. */
  function Expected(c: Choices, asJson: bool, jobs: PendingEnd): EvalResult {
    if !c.sourceConverts || !c.filenameConverts then NotConverted
    else if !c.evaluates then ScriptThrew(Message(c.thrown))
    else Finished(c, asJson, jobs)
  }

  function Finished(c: Choices, asJson: bool, jobs: PendingEnd): (r: EvalResult)
    ensures !r.NotConverted? && !r.ScriptThrew?
  {
    if jobs.Unfinished? then StillEvaluating
    else if !jobs.Emptied? then JobFailed(Message(c.thrown))
    else OutputResult(asJson, c)
  }

  function OutputResult(asJson: bool, c: Choices): (r: EvalResult)
    ensures r.JsonFailed? || r.NoJson? || r.NoText? || r.OutOfMemory? || r.NoString? || r.Text?
  {
    if asJson && c.json.JsonThrew? then JsonFailed(Message(c.thrown))
    else if asJson && c.json.JsonUndefined? then NoJson
    else if c.text.None? then if c.exceptionLeft then NoText(Message(c.thrown)) else OutOfMemory
    else if !c.stringAllocated then NoString
    else Text(Codec.Decode(c.text.value))
  }

  class Session {
    const engine: E.Engine
    var deadlineMs: int

    // JavaScript values and UTF-8 buffers, by the number of their acquisition
    var acquired: nat
    var held: set<nat>
    var freed: set<nat>

    /** Everything acquired is held or has been freed, and nothing is both. */
    ghost predicate Sound()
      reads this, engine
    {
      && engine.Ready()
      && (forall r :: r in held ==> r < acquired && r !in freed)
      && (forall r :: r in freed ==> r < acquired)
      && (forall r :: 0 <= r < acquired ==> r in held || r in freed)
    }

    constructor (engine: E.Engine)
      requires engine.Ready()
      ensures Sound() && this.engine == engine && deadlineMs == 0 && held == {}
    {
      this.engine := engine;
      deadlineMs, acquired, held, freed := 0, 0, {}, {};
    }

    /** A value or a buffer that the caller must free. */
    method Acquire() returns (r: nat)
      requires Sound()
      modifies `acquired, `held
      ensures Sound() && r !in old(held) && held == old(held) + {r} && acquired == old(acquired) + 1
    {
      r := acquired;
      acquired := acquired + 1;
      held := held + {r};
    }

    /** JS_FreeValue or free: only of what is held, so never twice. */
    method Release(r: nat)
      requires Sound() && r in held
      modifies `held, `freed
      ensures Sound() && held == old(held) - {r} && freed == old(freed) + {r}
    {
      held, freed := held - {r}, freed + {r};
    }

    /** run_pending_jobs. */
    method RunPendingJobs(fuel: nat) returns (ghost end: PendingEnd, status: E.Status)
      requires Sound()
      modifies engine, engine.timers
      ensures Sound() && engine.Model() == end.world
      ensures end == RunPending(engine.host, old(engine.Model()), deadlineMs, fuel)
      ensures status == if end.Emptied? then E.Done else if end.Unfinished? then E.StillRunning else E.JobError
    {
      hide ExecuteJob;
      ghost var start := engine.Model();
      for n := 0 to fuel
        invariant Sound()
        invariant RunPending(engine.host, engine.Model(), deadlineMs, fuel - n)
               == RunPending(engine.host, start, deadlineMs, fuel)
      {
        ghost var before := engine.Model();
        end := RunPending(engine.host, before, deadlineMs, fuel - n);
        IdleJob(engine.host, before);
        var r := engine.ExecutePendingJob();
        match r {
          case NoJob => return end, E.Done;
          case Threw => return end, E.JobError;
          case Executed =>
            if deadlineMs > 0 {
              var now := engine.NowMs();
              if now >= deadlineMs { return end, E.JobError; }
            }
        }
      }
      return RunPending(engine.host, engine.Model(), deadlineMs, 0), E.StillRunning;
    }

    method StartDeadline(timeoutMs: int)
      requires Sound()
      modifies `deadlineMs, engine
      ensures Sound() && engine.Model() == Started(engine.host, old(engine.Model()), timeoutMs)
      ensures deadlineMs == DeadlineFrom(engine.Model(), timeoutMs)
    {
      deadlineMs := 0;
      if timeoutMs > 0 {
        var now := engine.NowMs();
        deadlineMs := now + timeoutMs;
      }
    }

    /** js_exception_to_utf8 and throw_current_js_exception: the message thrown to Java. */
    method ThrowCurrentJsException(t: Thrown) returns (message: Option<seq<Unit>>)
      requires Sound()
      modifies `acquired, `held, `freed
      ensures Sound() && held == old(held) && old(freed) <= freed
      ensures message == Message(t)
    {
      hide Codec.Decode;
      var exception_ := Acquire();
      var stack := Acquire();
      var text := None;
      if t.stackUsable {
        text := t.stackText;
      }
      Release(stack);
      if text.None? {
        text := t.ownText;
        if text.None? && t.fallbackAllocated {
          text := Some(FALLBACK);
        }
      }
      if text.None? {
        Release(exception_);
        return Some(Codec.Decode(FALLBACK));
      }
      var bytes := Acquire();
      Release(exception_);
      message := if t.exceptionBuilt then Some(Codec.Decode(text.value)) else None;
      Release(bytes);
    }

    /** eval_common, on an open engine. Once it has got as far as JS_Eval, the deadline is off
        again however it ends, and in any case it holds nothing that it acquired. */
    method EvalCommon(timeoutMs: int, asJson: bool, c: Choices, fuel: nat) returns (r: EvalResult)
      requires Sound()
      modifies this, engine, engine.timers
      ensures Sound() && old(freed) <= freed
      ensures !r.StillEvaluating? ==>
                held == old(held) && deadlineMs == if r.NotConverted? then old(deadlineMs) else 0
      ensures var e := Evaluated(engine.host, old(engine.Model()), timeoutMs, fuel);
              && r == Expected(c, asJson, e)
              && (r.NotConverted? ==> engine.Model() == old(engine.Model()))
              && (r.ScriptThrew? ==> engine.Model() == Scripted(engine.host, old(engine.Model()), timeoutMs))
              && (!r.NotConverted? && !r.ScriptThrew? ==> engine.Model() == e.world)
    {
      hide Evaluated, Finished, Scripted;
      if !c.sourceConverts {
        return NotConverted;
      }
      var source := Acquire();
      if !c.filenameConverts {
        Release(source);
        return NotConverted;
      }
      var filename := Acquire();
      r := EvalConverted(source, filename, timeoutMs, asJson, c, fuel);
    }

    /** Its middle: the script and the jobs it left, under the deadline. */
    method EvalConverted(source: nat, filename: nat, timeoutMs: int, asJson: bool, c: Choices, fuel: nat)
      returns (r: EvalResult)
      requires Sound() && source in held && filename in held && source != filename
      requires c.sourceConverts && c.filenameConverts
      modifies this, engine, engine.timers
      ensures Sound() && old(freed) <= freed
      ensures !r.StillEvaluating? ==> deadlineMs == 0 && held == old(held) - {source, filename}
      ensures var e := Evaluated(engine.host, old(engine.Model()), timeoutMs, fuel);
              && r == Expected(c, asJson, e) && !r.NotConverted?
              && engine.Model() == if r.ScriptThrew? then Scripted(engine.host, old(engine.Model()), timeoutMs) else e.world
    {
      hide RunPending, Turn, Finished, Started, DeadlineFrom, Message;
      StartDeadline(timeoutMs);
      engine.RunTurn();
      Release(source);
      Release(filename);
      if !c.evaluates {
        deadlineMs := 0;
        var message := ThrowCurrentJsException(c.thrown);
        return ScriptThrew(message);
      }
      r := FinishJobs(asJson, c, fuel);
    }

    /** The jobs that the script left, then its value. */
    method FinishJobs(asJson: bool, c: Choices, fuel: nat) returns (r: EvalResult)
      requires Sound()
      modifies this, engine, engine.timers
      ensures Sound() && old(freed) <= freed
      ensures !r.StillEvaluating? ==> deadlineMs == 0 && held == old(held)
      ensures var e := RunPending(engine.host, old(engine.Model()), old(deadlineMs), fuel);
              && r == Finished(c, asJson, e) && engine.Model() == e.world
    {
      hide RunPending, OutputResult, Message;
      var result := Acquire();
      ghost var end;
      var status;
      end, status := RunPendingJobs(fuel);
      if status == E.StillRunning {
        return StillEvaluating;
      }
      if status == E.JobError {
        Release(result);
        deadlineMs := 0;
        var message := ThrowCurrentJsException(c.thrown);
        return JobFailed(message);
      }
      r := ConvertOutput(result, asJson, c);
    }

    /** Its second half: from the value of the script to a Java string. */
    method ConvertOutput(result: nat, asJson: bool, c: Choices) returns (r: EvalResult)
      requires Sound() && result in held
      modifies `deadlineMs, `acquired, `held, `freed
      ensures Sound() && deadlineMs == 0 && held == old(held) - {result} && old(freed) <= freed
      ensures r == OutputResult(asJson, c)
    {
      hide Message;
      var output := result;
      if asJson {
        if c.json.JsonThrew? {
          Release(result);
          deadlineMs := 0;
          var message := ThrowCurrentJsException(c.thrown);
          return JsonFailed(message);
        }
        output := Acquire();
        Release(result);
        if c.json.JsonUndefined? {
          Release(output);
          deadlineMs := 0;
          return NoJson;
        }
      }
      if c.text.None? {
        Release(output);
        deadlineMs := 0;
        if c.exceptionLeft {
          var message := ThrowCurrentJsException(c.thrown);
          return NoText(message);
        }
        return OutOfMemory;
      }
      var outputUtf8 := Acquire();
      Release(output);
      deadlineMs := 0;
      r := if c.stringAllocated then Text(Codec.Decode(c.text.value)) else NoString;
      Release(outputUtf8);
    }
  }

  lemma IdleJob(host: Host, w: World)
    ensures w.jobs == 0 ==> ExecuteJob(host, w) == w
  {
  }

  // ---- what the answers mean ----------------------------------------------------------

  /** The Java string of an ASCII literal. */
  function Ascii(s: string): seq<int> { seq(|s|, i requires 0 <= i < |s| => s[i] as int) }

  /** The message of an exception: its stack whenever that can be had as text, its own text
      otherwise, and "JavaScript exception" if neither can; and there is none exactly if there
      is a buffer for it but no Java string or exception. Text that is well-formed reaches
      Java unchanged. */
  lemma MessageMeans(t: Thrown)
    ensures Message(t).None? <==>
              !t.exceptionBuilt && ((t.stackUsable && t.stackText.Some?) || t.ownText.Some? || t.fallbackAllocated)
    ensures Message(t).Some? && t.stackUsable && t.stackText.Some? ==>
              Carries(Message(t).value, t.stackText.value)
    ensures Message(t).Some? && !(t.stackUsable && t.stackText.Some?) && t.ownText.Some? ==>
              Carries(Message(t).value, t.ownText.value)
    ensures Message(t).Some? && !(t.stackUsable && t.stackText.Some?) && t.ownText.None? ==>
              Message(t).value == Ascii("JavaScript exception")
  {
    hide Codec.Decode, Codec.Encode, Utf8.WellFormed;
    Codec.DecodeAscii(FALLBACK);
    if t.stackText.Some? { Codec.RoundTripFromBytes(t.stackText.value); }
    if t.ownText.Some? { Codec.RoundTripFromBytes(t.ownText.value); }
  }

  /** The Java string is what the bytes decode to, and holds them all if they are well-formed. */
  ghost predicate Carries(units: seq<Unit>, bytes: seq<Byte>) {
    units == Codec.Decode(bytes) && (Utf8.WellFormed(bytes) <==> Codec.Encode(units) == bytes)
  }

  /** No job threw, and if there was a timeout it had not passed when a job was done. */
  ghost predicate JobsDone(host: Host, w: World, timeout: int, v: World) {
    && NoneThrew(host, w.jobsRun, v.jobsRun)
    && !(timeout > 0 && v.jobsRun > w.jobsRun && v.clock >= ReadClock(host, w).clock + timeout)
  }

  /** Everything that eval can answer, and exactly when: nothing converted, the script threw, its
      jobs failed or ran into the timeout, or else what was made of its value. */
  lemma AnswerIff(host: Host, w: World, timeout: int, asJson: bool, c: Choices, fuel: nat)
    requires w.clock >= 0
    ensures var e := Evaluated(host, w, timeout, fuel);
            var r := Expected(c, asJson, e);
            var ran := c.sourceConverts && c.filenameConverts && c.evaluates && !e.Unfinished?;
            var done := ran && JobsDone(host, w, timeout, e.world);
            var json := done && (asJson ==> c.json.JsonText?);
            && (r.NotConverted? <==> !c.sourceConverts || !c.filenameConverts)
            && (r.ScriptThrew? <==> c.sourceConverts && c.filenameConverts && !c.evaluates)
            && (r.JobFailed? <==> ran && !JobsDone(host, w, timeout, e.world))
            && (r.JsonFailed? <==> done && asJson && c.json.JsonThrew?)
            && (r.NoJson? <==> done && asJson && c.json.JsonUndefined?)
            && (r.NoText? <==> json && c.text.None? && c.exceptionLeft)
            && (r.OutOfMemory? <==> json && c.text.None? && !c.exceptionLeft)
            && (r.NoString? <==> json && c.text.Some? && !c.stringAllocated)
            && (r.Text? <==> json && c.text.Some? && c.stringAllocated)
            && (r.Text? ==> Carries(r.units, c.text.value))
            && (r.ScriptThrew? || r.JobFailed? || r.JsonFailed? || r.NoText? ==> r.message == Message(c.thrown))
  {
    hide Evaluated, Message, Utf8.WellFormed, Codec.Decode, Codec.Encode;
    var e := Evaluated(host, w, timeout, fuel);
    if c.text.Some? { Codec.RoundTripFromBytes(c.text.value); }
    EvaluatedFailsIff(host, w, timeout, fuel);
  }

  /** The jobs of an eval fail exactly if one throws or the timeout passes. */
  lemma EvaluatedFailsIff(host: Host, w: World, timeout: int, fuel: nat)
    requires w.clock >= 0
    ensures var e := Evaluated(host, w, timeout, fuel);
            e.Threw? || e.Interrupted? <==> !JobsDone(host, w, timeout, e.world)
  {
    hide RunPending, Turn;
    var n := Started(host, w, timeout);
    Await.TurnKeepsJobsRun(host, n);
    PendingThrowsIff(host, Turn(host, n), DeadlineFrom(n, timeout), fuel);
    var e := Evaluated(host, w, timeout, fuel);
    if e.Threw? { SomeThrew(host, w.jobsRun, e.world.jobsRun); }
    else { InterruptedIff(host, w, timeout, fuel); }
  }
}
