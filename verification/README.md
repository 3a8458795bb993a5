# A verified model of the quick-engine bridge

quick-engine embeds QuickJS in a JVM. This project models, in Dafny, the parts of its native
bridge (`qjs2j/src/main/c`) that have behaviour of their own, and proves what they promise:

- the **string codec** of `qjs_util.c`, through which every string crosses between Java
  (UTF-16) and QuickJS (UTF-8);
- the **timer table and event loops** of `qjs_timer.c` and `quickjs_jni.c`: setTimeout and
  setInterval over 256 slots, the pass that fires what is due while callbacks set and clear
  any timer, including their own, and the loops that interleave passes with the job queue;
- **eval**: the deadline and the ownership of values and buffers on each of its exits;
- the **callback table** of `qjs_callback.c`, which all engines of a process share.

## How it is modelled

Code that updates memory is written as methods over arrays and fields (`Transcoder`,
`Engine`, `Evaluation`, `CallbackRegistry`), each proved equal to a function on values
(`Codec`, `TimerTable`, `EventLoop`, `Await`, `PendingJobs`, `CallbackTable`). The properties
are lemmas about those functions.

JavaScript itself is an oracle. A `Host` says what the n-th turn of JavaScript does (set,
clear, enqueue a job, settle the awaited promise), whether the n-th job throws, and how far
the clock has moved when it is read for the n-th time, so a statement for every `Host` is one
for all callbacks and jobs and all clocks that do not run backwards. A timer callback may
throw whenever it likes: every copy of the pass discards its exception, so nothing in the
model depends on it. A callback's operations go through the same set and clear functions as
everyone else's, in the middle of the pass, and the code after the call acts on whatever is
then in the slot. Whatever the single steps keep (`EventLoop.StepsKeep`), every loop, wait and
run keeps (`Runs.ExecuteKeeps`). The clock's value at the start of every pass is recorded, in whichever loop
the pass runs, so that the spacing of the passes of a whole run can be spoken of.

One promise is awaited at a time, and its state is a field of the engine; `deadline_ms` is a
field of `Evaluation.Session`, beside the engine that it belongs to.

`TimerHistory` is an independent reference for the timers: an event-sourced map from ids to
entries that says which event may come next. `TimerTable` proves that the table never departs
from it, and the safety properties are then proved of every legal history.

| file | subject |
|---|---|
| `Unicode.dfy`, `Utf8.dfy`, `Utf16.dfy`, `Words.dfy`, `BitFields.dfy`, `Codec.dfy`, `Transcoder.dfy` | the codec, the grammar of section 4 of RFC 3629, the masks and shifts, the buffers |
| `TimerHistory.dfy`, `Intervals.dfy` | legal histories; the fate of every timer; interval arithmetic |
| `Ownership.dfy` | references owned by the slots of a table, for both tables |
| `TimerTable.dfy`, `Passes.dfy`, `Runs.dfy`, `Spacing.dfy`, `Lateness.dfy` | the table, one pass, whole runs, runs with regular passes, how late a timer can be |
| `EventLoop.dfy`, `Liveness.dfy`, `Await.dfy`, `PendingJobs.dfy`, `Exits.dfy`, `Timeouts.dfy` | the loops: what they return, when they end, fail, sleep and give up, and which timeouts can be trusted |
| `Engine.dfy`, `Evaluation.dfy` | the engine and eval as they update memory |
| `CallbackTable.dfy`, `CallbackRegistry.dfy` | the callback table, on values and on the array |

## Where the code does not do what one would expect

- **A self-replacing timer is lost.** A callback that clears its own timer and sets a new one
  can get its own slot back; the code after the call then drops the new one-shot, or puts a
  new interval off by one delay, whatever else the callback does (`Passes.SelfReplacement`, and
  `Passes.SelfReplacementHappens` for a run that gets there). This is the only way a timer can
  end unfired without being cleared (`Passes.FateOfNewTimer`,
  `TimerHistory.UnfiredOnlyByTakingTheSlot`).
- **A callback that clears its own timer gives back the reference it runs on.** The code takes
  none of its own for the call; the table keeps the called one exactly until the timer is
  cleared (`Passes.CalledReferenceOwnedIff`).
- **An interval can leave its grid for good.** It does if and only if one of its firings is more
  than a whole delay late (`Intervals.OnGridIff`), which takes a pass that comes more than a
  delay after the pass before (`Lateness.OffGridOnlyAfterAGap`).
- **An await can time out on a settled promise.** The loop looks at the promise only before
  its pass; a timer callback that settles it in the last round is reported as a timeout
  (`Await.FulfilledYetTimedOut`). Of any JavaScript that can set a timer, every timeout a run
  can reach may be trusted if and only if none of it settles the promise without queueing a
  job (`Timeouts.TimeoutsHonestIff`).
- **drainJobs can block for ever.** `qjs2j/README.md:679` presents it as non-blocking, but it
  also fires due timers. It never returns with a due interval of delay zero
  (`Liveness.DrainNeverEnds`), nor with any interval that is due and whose delay the clock
  outruns, as one of 1 ms when each round takes that long (`Liveness.DrainOutrun`). For any
  clock and for turns that leave the timers alone, it returns if and only if in some round no
  timer is due, each timer being followed by itself (`Liveness.DrainReturnsIff`); at a standing
  clock, if and only if no due interval has delay zero (`Liveness.DrainEndsIff`).
- **Jobs outlast every limit but eval's.** The limit of runEventLoop and the deadline of an await
  are not looked at while jobs are queued: if each job queues another, drainJobs and
  runEventLoop never return and the await never times out (`Exits.JobsOutlastLimits`). Nothing
  else can keep a limited loop at a clock that advances (`Exits.OnlyJobsOutlastTheLimit`).
- **Engines are not independent**, although `qjs2j/README.md:714` promises that instances are.
  Closing one releases the callbacks of every engine of the VM, and a later registration can
  answer for an earlier one (`CallbackTable.EnginesInterfere`). A function reaches its own
  callback if and only if no engine of its VM has been closed since
  (`CallbackTable.CallbackReachedIff`).
- **A character after a broken one can be swallowed.** The decoder consumes the byte that
  fails to continue a sequence (`Codec.FirstCharacterCanBeLost`). The character survives if and
  only if the bytes before it do not leave the decoder inside a sequence that the rest of the
  input is long enough for (`Codec.CharacterSurvivesIff`); what follows that character is
  always decoded unharmed (`Codec.DecoderResynchronises`).

## Model

| member | source | states |
|---|---|---|
| Codec.RoundTripFromJava | qjs2j/src/main/c/qjs_util.c:80-115 | for every Java string, decoding its encoding gives the string with each unpaired surrogate (told from its two neighbours) replaced by U+FFFD, of the same length, equal to the original exactly when that was well-formed; the encoding is always well-formed UTF-8 |
| Codec.RoundTripFromBytes | qjs2j/src/main/c/qjs_util.c:175-200 | for every byte sequence, the decoded string has no unpaired surrogate, re-encoding it is well-formed per RFC 3629, is the input exactly when that was well-formed, and a second trip changes nothing |
| Codec.EncodeIsBijective | qjs2j/src/main/c/qjs_util.c:69-122 | encoding is injective on well-formed strings and onto well-formed byte sequences |
| Codec.DecoderResynchronises | qjs2j/src/main/c/qjs_util.c:124-195 | after any bytes and one whole character, whatever they are, the decoded text ends with what the remaining bytes decode to |
| Codec.CharacterSurvivesIff | qjs2j/src/main/c/qjs_util.c:124-173 | exactly when that character itself survives: the decoder takes a step at its first byte, and the text ends with what it and the rest decode to, if and only if the bytes before it do not leave the decoder inside an announced sequence that fits into the input (of U+FFFD itself, lost or kept, the text cannot tell) |
| Codec.FirstCharacterCanBeLost | qjs2j/src/main/c/qjs_util.c:159-164 | both outcomes occur: after C3, or after F0 when two more bytes follow it, the next character is swallowed; after 80, or F0 when nothing follows it, it is kept; and the bytes C3 41 decode to U+FFFD alone |
| Codec.DecodeAfterWellFormed | qjs2j/src/main/c/qjs_util.c:186-195 | a well-formed prefix decodes independently of what follows |
| Codec.SurrogatesReplacedOnce | qjs2j/src/main/c/qjs_util.c:168-195 | bytes that spell any code points, surrogates included, decode to one U+FFFD for each surrogate, even of a pair, and to the rest as it is |
| Codec.EncodeSize | qjs2j/src/main/c/qjs_util.c:80-95 | the encoding of n units takes at most 3n bytes |
| Codec.DecodeSize | qjs2j/src/main/c/qjs_util.c:177-195 | the decoder never produces more units than it consumed bytes |
| Utf8.StrictAcceptance | qjs2j/src/main/c/qjs_util.c:124-173 | one decoder step returns a scalar whose encoding is exactly the consumed bytes if and only if a UTF8-char of RFC 3629 starts there, U+FFFD otherwise; and any encoded scalar at the front is returned and consumed whole |
| Utf8.ReadRejects | qjs2j/src/main/c/qjs_util.c:149-170 | overlong forms, surrogates, values above 0x10FFFF, stray, bad and missing continuation bytes all give U+FFFD |
| Utf8.StepSize | qjs2j/src/main/c/qjs_util.c:124-173 | on every input, also at its end, how many bytes a decoder step takes: 1 if the announced sequence does not fit, the whole sequence if its continuation bytes are there, whatever they spell, and otherwise up to and with the first byte that does not continue |
| Utf8.ScanForms | qjs2j/src/main/c/qjs_util.c:168-172 | sequences that are complete, whether characters, overlong, surrogates or out of range, are read one by one, each as its scalar or as one U+FFFD |
| Utf8.ScanAt | qjs2j/src/main/c/qjs_util.c:186-195 | the output for any bytes, element by element: at each place where a step begins, what the decoder reads there |
| Utf8.ScanSize | qjs2j/src/main/c/qjs_util.c:186-195 | and there is nothing else in it |
| Utf8.WriteAllScan | qjs2j/src/main/c/qjs_util.c:49-67 | writing back what was scanned gives the input if and only if that was well-formed |
| Utf8.Resynchronises | qjs2j/src/main/c/qjs_util.c:154-172 | on scalars: a step that straddles the start of a character takes at most its first byte, and the rest of it is skipped byte by byte |
| Utf8.InStepIff | qjs2j/src/main/c/qjs_util.c:149-172 | before any byte that continues nothing, whether the decoder is in step is decided by the bytes before it and the number that follow, by that same condition |
| Utf16.WriteAllScan | qjs2j/src/main/c/qjs_util.c:80-93 | combining and splitting surrogate pairs changes nothing but unpaired surrogates |
| Utf16.ScanWriteAll | qjs2j/src/main/c/qjs_util.c:188-194 | the units written for any scalars scan back to those scalars |
| BitFields.LeadMasks | qjs2j/src/main/c/qjs_util.c:137-152 | the chain of masked comparisons on the machine byte classifies it as the model does the integer it stands for, with the same data bits |
| BitFields.TailMasks | qjs2j/src/main/c/qjs_util.c:160-165 | likewise the test for a continuation byte, and its six data bits |
| BitFields.ContinuationBits | qjs2j/src/main/c/qjs_util.c:165 | for every word, shifting in six bits is what the model's reader does to the integer it stands for (its binary value, `Words.Value`) |
| BitFields.EncoderBits | qjs2j/src/main/c/qjs_util.c:49-67 | for every word that stands for a scalar, the words that the writer's comparisons, shifts and masks make stand for the bytes of `Utf8.Write` |
| BitFields.SurrogateBits | qjs2j/src/main/c/qjs_util.c:85 | for every surrogate pair of words, the subtractions, shift and sum give the word of `Utf16.Combined` |
| BitFields.SplitBits | qjs2j/src/main/c/qjs_util.c:189-194 | for every word beyond 0xFFFF, the two units made of it are those of `Utf16.Write` |
| Transcoder.WriteUtf8 | qjs2j/src/main/c/qjs_util.c:49-67 | stores exactly the encoding of the scalar at the position, moves past it and leaves the rest of the buffer alone |
| Transcoder.ReadUtf8 | qjs2j/src/main/c/qjs_util.c:124-173 | takes the specified step, by 1 to 4 bytes and never past the length |
| Transcoder.JstringToUtf8 | qjs2j/src/main/c/qjs_util.c:69-122 | the second pass writes exactly the bytes the first measured, at most 3 per unit, and the terminator fits |
| Transcoder.Utf8ToJstring | qjs2j/src/main/c/qjs_util.c:175-200 | the decoded string, never overrunning a buffer of len + 1 units |
| TimerHistory.NeverAgain | qjs2j/src/main/c/qjs_timer.c:68-75 | in a legal history a cleared or retired id is never named again |
| TimerHistory.OneShotFiresOnce | qjs2j/src/main/c/qjs_timer.c:96-103 | a one-shot fires at most once |
| TimerHistory.EveryTimerAccountedFor | qjs2j/src/main/c/qjs_timer.c:17-28 | every id issued is live, was cleared once or was retired once: exactly one of the three |
| TimerHistory.UnfiredOnlyByTakingTheSlot | qjs2j/src/main/c/qjs_timer.c:88-103 | a timer retired or put off without having fired was set, during the call that is returning, into the slot of the timer being called, after that timer had been cleared in the same call |
| TimerHistory.UnfiredIffNotCalled | qjs2j/src/main/c/qjs_timer.c:96-103 | what is in the slot when a call returns has ever fired if and only if it is the timer that was called |
| TimerHistory.TakingTheSlotSealsFate | qjs2j/src/main/c/qjs_timer.c:96-103 | a timer set into the slot being called is cleared in that call, or dropped if a one-shot, or put off by exactly one delay if an interval |
| Intervals.NeverEarly | qjs2j/src/main/c/qjs_timer.c:47-52 | no timer fires early: a one-shot not before its delay, an interval not for the n-th time before n delays |
| Intervals.AtMostOncePerDelay | qjs2j/src/main/c/qjs_timer.c:96-98 | by time T an interval has fired at most floor((T - t0) / d) times |
| Intervals.NoDrift | qjs2j/src/main/c/qjs_timer.c:96-98 | while no firing is more than a delay late, the due time stays a whole number of delays after what it was at any moment of rest, or after the time the interval was set |
| Intervals.OnGridIff | qjs2j/src/main/c/qjs_timer.c:96-98 | and, in every legal history, only then |
| Intervals.RearmsFollowFirings | qjs2j/src/main/c/qjs_timer.c:96-98 | k counts firings, but for the one extra rearming of an interval that took the slot of a called timer |
| Spacing.RegularPassesDoNotDrift | qjs2j/src/main/c/qjs_timer.c:81-105 | from any reached moment at which no interval of delay g or more is due, whatever came before: as long as the passes are at most g apart, in whichever loops, every firing of such an interval, old or new, is where it belongs or less than g after it, and the live ones are due where they belong |
| Lateness.LateByAtMostTheGap | qjs2j/src/main/c/qjs_timer.c:81-105 | in every run, without any condition, each firing is by a pass whose predecessor came no later than the due time, so none is late by more than the gap between the two |
| Lateness.OffGridOnlyAfterAGap | qjs2j/src/main/c/qjs_timer.c:96-98 | in every run, an interval that is not due where it belongs was fired by a pass that came more than its delay after the one before |
| Runs.EveryRunRefines | qjs2j/src/main/c/qjs_timer.c:17-123 | over every run of evaluations (the script, and the jobs it leaves under its deadline), passes, loops, waits and pauses, the history is legal and the table holds exactly what it leaves live |
| Runs.ReferencesConserved | qjs2j/src/main/c/qjs_timer.c:99-123 | over every run, callback references taken are those released plus one for each active slot, reference by reference, and closing releases exactly the rest |
| Runs.FullIffTooMany | qjs2j/src/main/c/qjs_timer.c:17-29 | there are as many live ids as active slots, at most 256, and setting a function fails only at 256 |
| Runs.SetAndClearOnTheMap | qjs2j/src/main/c/qjs_timer.c:12-28 | setting adds exactly one entry under a fresh id, in the lowest free slot, due its delay after the clock; clearing removes exactly its id; setting that fails, and clearing what is not live, changes nothing at all |
| Runs.NothingFiresAgain | qjs2j/src/main/c/qjs_timer.c:68-103 | over every run, an id that was cleared or retired, or a one-shot that has fired, does not fire again |
| Passes.PassFires | qjs2j/src/main/c/qjs_timer.c:81-105 | a timer active when a pass starts fires exactly once in it if it was due at the sampled clock and not cleared before its slot was reached, and not at all otherwise |
| Passes.PassLeaves | qjs2j/src/main/c/qjs_timer.c:81-105 | and it is still live after the pass if and only if no callback cleared it and it is not a one-shot that was due; then its slot is as it was, but that the due time of an interval that was due is one delay later, or the pass's sample if that is past |
| Passes.EarlierDueNotSkipped | qjs2j/src/main/c/qjs_timer.c:84-88 | if a timer fires in a pass, every timer due no later fires in it too or had been cleared when its slot was reached |
| Passes.AtMostOnceAPass | qjs2j/src/main/c/qjs_timer.c:84-104 | no id, not even one set during the pass, fires twice in a pass |
| Passes.FateOfNewTimer | qjs2j/src/main/c/qjs_timer.c:88-103 | a timer set during a pass is still scheduled at its end, or was cleared, or was retired, exactly one; and if retired, it fired once in the pass, or took the slot of a timer that cleared itself and never fired, exactly one |
| Passes.SelfReplacement | qjs2j/src/main/c/qjs_timer.c:96-103 | that exception happens whenever a callback sets a timer while its own slot is the lowest free one and does not clear it again, whatever else it does before and after |
| Passes.SelfReplacementHappens | qjs2j/src/main/c/qjs_timer.c:96-103 | a run from a new engine that gets there |
| Passes.CalledReferenceOwnedIff | qjs2j/src/main/c/qjs_timer.c:88 | at every moment of a call, the called timer is in its slot, unchanged, if and only if it has not been cleared since the call began; if it has, its reference has been given back |
| EventLoop.DrainedIsQuiescent | qjs2j/src/main/c/qjs_timer.c:151-185 | when drain_jobs returns 0 the queue is empty and every active timer is due strictly after the clock |
| EventLoop.EventLoopIsQuiescent | qjs2j/src/main/c/qjs_timer.c:187-228 | when run_event_loop returns 0, no job and no active timer is left, or a positive limit has elapsed since it started |
| Liveness.EventLoopLiveness | qjs2j/src/main/c/qjs_timer.c:187-228 | without a limit, with one-shots only, turns that add nothing and jobs that do not throw, it returns with an empty queue and table, within one round per job, timer and millisecond to the last due time, and each timer has fired exactly once or was cleared unfired |
| Liveness.EventLoopEndsIff | qjs2j/src/main/c/qjs_timer.c:220-226 | for turns that leave the timers alone and jobs that do not throw, it returns if and only if no interval is active |
| Liveness.EventRoundsAreBounded | qjs2j/src/main/c/qjs_timer.c:220-226 | for any callbacks and jobs, with a positive limit, every round that stays in the loop has called JavaScript or slept a millisecond short of the limit |
| Liveness.LimitedEventLoopEnds | qjs2j/src/main/c/qjs_timer.c:220-226 | with a positive limit, whatever is active, and JavaScript called at most T times, it ends within T + limit + 1 rounds |
| Liveness.DrainEnds | qjs2j/src/main/c/qjs_timer.c:151-185 | at a standing clock, with turns that add nothing and jobs that do not throw, drain_jobs takes at most three rounds and fires no timer more than twice, unless a due interval has delay zero |
| Liveness.DrainReturnsIff | qjs2j/src/main/c/qjs_timer.c:151-185 | for any clock, and turns that leave the timers alone, it returns within n rounds if and only if in one of them no timer is due, by a recurrence for each timer alone that knows neither the loop nor the table; it never fails |
| Liveness.DrainOutrun | qjs2j/src/main/c/qjs_timer.c:172-176 | if the clock moves by g or more at each reading, and an interval with delay at most g is due by the next one, drain_jobs never returns |
| Liveness.DrainNeverEnds | qjs2j/src/main/c/qjs_timer.c:174-176 | in particular with a due interval of delay zero, however the clock moves |
| Liveness.DrainEndsIff | qjs2j/src/main/c/qjs_timer.c:174-176 | at a standing clock the condition is on the table alone: it returns if and only if no due interval has delay zero |
| Liveness.DrainEndsWithoutIntervals | qjs2j/src/main/c/qjs_timer.c:151-185 | without intervals drain_jobs returns, whatever the clock does, within one round more than there are jobs and timers |
| Exits.DrainFailsIff | qjs2j/src/main/c/qjs_timer.c:158-160 | for any callbacks and jobs, drain_jobs fails if and only if one of the jobs it ran threw, which was then the last thing it did |
| Exits.EventLoopFailsIff | qjs2j/src/main/c/qjs_timer.c:194-196 | so does run_event_loop |
| Exits.TimersWaitForJobs | qjs2j/src/main/c/qjs_timer.c:156-163 | in both loops, whatever JavaScript does, every pass begins with an empty job queue |
| Exits.ReturnsAfterIdleRound | qjs2j/src/main/c/qjs_timer.c:153-184 | drain_jobs makes just one pass if and only if no job or callback ran; and without a limit run_event_loop too returns only after a whole round that did nothing |
| Exits.LimitIsKept | qjs2j/src/main/c/qjs_timer.c:220-225 | with a positive limit, however busy the loop is and unless its jobs have no end, it is never found running later than the limit after its start |
| Exits.OnlyJobsOutlastTheLimit | qjs2j/src/main/c/qjs_timer.c:187-228 | if the clock advances between any two looks, the limited loop ends within limit + 1 rounds whatever the callbacks do, unless jobs without end keep it |
| Exits.JobsOutlastLimits | qjs2j/src/main/c/qjs_timer.c:194-195 | if each job queues another, drain_jobs and run_event_loop never return, whatever the limit, and a wait never times out |
| Exits.SleepsOnlyWhenIdle | qjs2j/src/main/c/qjs_timer.c:220-226 | run_event_loop sleeps one millisecond in each round that called no JavaScript, and in no other |
| Await.AwaitEnds | qjs2j/src/main/c/quickjs_jni.c:560-578 | with a positive timeout and at most J jobs ever executed, the loop is left within J + timeout + 1 rounds |
| Await.RoundsAreBounded | qjs2j/src/main/c/quickjs_jni.c:633-651 | every round that stays in the loop has run a job or slept short of the deadline |
| Await.AwaitExits | qjs2j/src/main/c/quickjs_jni.c:560-578 | it is left only with a settled promise, after a job that threw, or with an empty queue at or past the deadline; the promise is then pending if and only if no turn of the wait settled it |
| Exits.AwaitFailsIff | qjs2j/src/main/c/quickjs_jni.c:563-569 | a wait fails if and only if one of the jobs it ran threw, which was then the last thing it did |
| Exits.TimeoutIsKept | qjs2j/src/main/c/quickjs_jni.c:560-577 | a wait is never given up without a timeout, nor before the timeout has passed since it began; and it goes on after a round without a job only if it has not |
| Exits.RoundsOfAWait | qjs2j/src/main/c/quickjs_jni.c:561-577 | each round of a wait makes one pass and runs one job if there is one, and sleeps one millisecond only if there is none |
| Await.TimeoutOfSettled | qjs2j/src/main/c/quickjs_jni.c:561-577 | the round that reports a timeout does so for a settled promise if and only if a callback of its own pass settled it, queueing nothing, and the deadline had passed |
| Await.LastRound | qjs2j/src/main/c/quickjs_jni.c:561-577 | every timeout is that of a round the wait reaches, which began with the promise pending |
| Timeouts.TimeoutsHonestIff | qjs2j/src/main/c/quickjs_jni.c:561-577 | over all runs and waits, clocks and throwing jobs, whose JavaScript is drawn from a set of scripts that can do nothing and set a timer: no wait times out on a settled promise if and only if each of the scripts that settles the promise queues a job |
| Await.FulfilledYetTimedOut | qjs2j/src/main/c/quickjs_jni.c:561-577 | a concrete wait that reports a timeout for a fulfilled promise |
| PendingJobs.PendingExits | qjs2j/src/main/c/qjs_timer.c:230-246 | 0 only with an empty queue, an interruption only at or past a deadline, -1 otherwise only after a job that threw |
| PendingJobs.NoJobAfterDeadline | qjs2j/src/main/c/qjs_timer.c:234-240 | once the deadline has passed at most one more job starts |
| Exits.PendingThrowsIff | qjs2j/src/main/c/qjs_timer.c:234-244 | it fails for a job if and only if one of the jobs it ran threw, which was then the last thing it did |
| Exits.InterruptedIff | qjs2j/src/main/c/quickjs_jni.c:100-114 | the jobs of an eval, short of one that throws, are interrupted if and only if there is a timeout and it has passed, counted from before the script, when a job is done |
| Engine.Engine.SetTimer | qjs2j/src/main/c/qjs_timer.c:5-57 | the scan of the array refines one insertion into the map of live timers (`Runs.SetAndClearOnTheMap`); the id is returned exactly when a slot is free, otherwise nothing changes and the error says why |
| Engine.Engine.ClearTimer | qjs2j/src/main/c/qjs_timer.c:59-77 | the scan refines the removal of one id, releasing its callback once; an unknown or missing id changes nothing |
| Engine.Engine.ProcessTimers | qjs2j/src/main/c/qjs_timer.c:81-105 | the loop over the array is the specified pass, with callbacks run through the methods above |
| Engine.Engine.FireDue | qjs2j/src/main/c/qjs_timer.c:162-182 | the copies of the pass in the two loops are the same pass, and their flag says whether anything fired |
| Engine.Engine.FreeAllTimers | qjs2j/src/main/c/qjs_timer.c:114-123 | the loop refines the release of everything that `Runs.ReferencesConserved` says is left |
| Engine.Engine.DrainJobs | qjs2j/src/main/c/qjs_timer.c:151-185 | on the array, with its `progress` flag, the loop refines the one that `EventLoop.DrainedIsQuiescent` and `Liveness` speak of, result and state |
| Engine.Engine.RunEventLoop | qjs2j/src/main/c/qjs_timer.c:187-228 | on the array, with its `progress` flag and its sleeps, the loop refines the one that `EventLoop.EventLoopIsQuiescent` and `Liveness` speak of, result and state |
| Engine.Engine.AwaitPromise | qjs2j/src/main/c/quickjs_jni.c:560-578 | on the array, the loop refines the wait that `Await.AwaitExits` and `Await.AwaitEnds` speak of, way out and state |
| Evaluation.Session.EvalCommon | qjs2j/src/main/c/quickjs_jni.c:84-154 | on every exit the call holds nothing it acquired, each value and buffer having been released once; the deadline is 0 unless an argument could not be converted, when nothing at all changes; the engine is as the script left it, or as the jobs after it did; and which exit is taken, with the text or the message that reaches Java |
| Evaluation.Session.ThrowCurrentJsException | qjs2j/src/main/c/qjs_util.c:205-288 | the message is the stack of the exception, else its own text, else the fallback, or there is none if the Java exception cannot be built; and the values and the buffer taken for it are all given back |
| Evaluation.AnswerIff | qjs2j/src/main/c/quickjs_jni.c:84-154 | for every answer of eval, if and only if what happened: an argument, the script, a job or the timeout, JSON, the text or the Java string; and text that is well-formed UTF-8 reaches Java unchanged |
| Evaluation.MessageMeans | qjs2j/src/main/c/qjs_util.c:252-288 | what the message says, for every exception: its stack, its own text or "JavaScript exception", byte for byte where that is well-formed; and exactly when there is none |
| Evaluation.Session.RunPendingJobs | qjs2j/src/main/c/qjs_timer.c:230-246 | on the engine, the loop refines the one that `PendingJobs.PendingExits` and `PendingJobs.NoJobAfterDeadline` speak of, under the session's deadline |
| CallbackTable.EveryReferenceAccountedFor | qjs2j/src/main/c/quickjs_jni.c:357-363 | over every run of engines, a global reference made for a callback has been deleted exactly once or is owned by exactly one slot |
| CallbackTable.DeletedOnceOrOwnedOnce | qjs2j/src/main/c/qjs_callback.c:75-96 | the same for one table, from which a deleted reference can no longer be reached |
| CallbackTable.CallbackReachedIff | qjs2j/src/main/c/qjs_callback.c:10-14 | a JavaScript function reaches the global reference it was registered with if and only if no open engine of its VM has been closed since (the same object registered again is reached by another function, through another reference) |
| CallbackTable.RegisteredIsReached | qjs2j/src/main/c/qjs_callback.c:75-87 | registering takes the lowest free slot, which no function reached, leaves the others alone, and fails only when all are used |
| CallbackTable.EnginesInterfere | qjs2j/src/main/c/quickjs_jni.c:59-65 | closing one engine silences another's function, and a third engine's callback then answers for it |
| CallbackRegistry.Registry.SetCallback | qjs2j/src/main/c/quickjs_jni.c:351-371 | a new global reference ends up in the first unused slot, or deleted at once when there is none; a null callback changes nothing |
| CallbackRegistry.Registry.Close | qjs2j/src/main/c/quickjs_jni.c:59-65 | the loop empties every used slot of the VM and deletes its reference once, as the runs of `CallbackTable` assume |
| CallbackRegistry.Registry.UnregisterCallback | qjs2j/src/main/c/qjs_callback.c:89-96 | a used slot's reference is deleted and the slot freed; any other argument, and every other slot, is left alone |
| CallbackRegistry.Registry.FindCallback | qjs2j/src/main/c/qjs_callback.c:10-14 | the reference called, or the error for a released callback |

## Left out

- Engine.Engine.DrainJobs: a loop that need not end is run for at most `fuel` rounds, and its inner job loop for at most `fuel` jobs each time; the lemmas of `Liveness` say when no fuel runs out.
- Engine.Engine.RunEventLoop: the same fuel, for the same reason.
- Engine.Engine.AwaitPromise: the same fuel; `Await.AwaitEnds` says how much is enough with a positive timeout.
- Evaluation.Session.RunPendingJobs: the same fuel, one for each job.
- Engine.Engine.SetTimer: `next_timer_id` is unbounded here, so wrap-around of a C int after 2^31 timers is not modelled, nor is overflow of the 64-bit `now + delay`; a delay argument arrives already converted; `js_set_timeout` and `js_set_interval` are one method here, which takes `repeat`.
- Engine.Engine.FireDue: `drain_jobs` and `run_event_loop` each contain their own copy of this pass; the model has one method for both.
- Evaluation.Session.EvalCommon: the handle is taken to be open; interruption of a single long script by the engine's own interrupt handler is one of the ways a turn may throw; JavaScript that runs while the result is converted (toJSON, toString) is a `Convert` of `Runs`, not part of this method.
- QuickJS itself (evaluation, garbage collection, JSON, bytecode): oracles, or not part of this model.
- Callbacks that re-enter the engine's API through Java (drainJobs, runEventLoop, eval, close from inside a callback).
- JNI plumbing: class lookup, attaching threads, local references, the method table.
- `native_call`, `native_get_global`, `native_set_global`, `native_compile`, `native_load`: wrappers around the codec and QuickJS that would add only easy members.
- The wrapping of the source text by `native_eval_async`, and the conversion of the awaited result: only the wait is modelled.
- Console handlers and their global references, `qjs_console.c`, `NativeLoader.java`, the overloads of `QuickJs.java`.
- Clocks that run backwards, and true data races on the callback table: each API call is one step.
- The order of firing within a pass is slot order, not due order, and no claim is made about it.
