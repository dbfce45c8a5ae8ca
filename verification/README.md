# Breath-hold training timer: the session state machine

This project models the core of a breath-hold (apnea) training timer. A
*table* configures a number of rounds. Each round is a HOLD (breath held)
and then a BREATHE (rest). The hold grows by `holdIncrement` seconds per
round, and the rest shrinks by `restDecrement` seconds per round, never going
below zero. The application store drives a session once per second:
PREPARATION (a 15 s countdown) → HOLD ⇄ BREATHE → FINISHED. A separate
DIAGNOSTIC mode counts up until the user stops it. Stopping it stores the
count as the profile's breath-hold baseline. The store also keeps a profile
and a history of at most 100 records, newest first. The timer screen
formats the remaining time as m:ss, chooses the audio cues for each state,
and guards the history log so that it adds at most one record per finished
session (whether that effect ever sees a FINISHED state is discussed under
"## Left out").

Files:

- `session.dfy` (module `Session`) has the table, the session fields, the
  per-round durations, and start/tick/stop as pure functions on a snapshot of
  the session fields. It also has the invariant `Inv`, which each of them
  keeps.
- `session_runs.dfy` (module `SessionRuns`) has lemmas about runs of `n`
  ticks. They cover each mode, the fixed order of phases within a round, and
  the whole course of a session. A ranking function `Remaining` counts the
  ticks left until FINISHED.
- `records.dfy` (module `Records`) has the profile, the session record, and
  the value-level profile and history updates.
- `store.dfy` (module `Store`) has class `AppStore`, which holds the store's
  fields. Each action is a method proved against the functions of `Session`
  and `Records`, and each keeps `Valid()`.
- `timer_view.dfy` (module `TimerView`) has `formatTime` together with an
  inverse it is checked against, the cue selection (as written and
  corrected), and the history guard. The guard is class `HistoryLogger` plus
  lemmas about traces of effect runs.
- `wrappers.dfy` has the `Option` type, which stands for the source's
  nullable fields.

Integers are unbounded `int` seconds. The source does no validation, so
negative durations can be represented. The invariants assume `ValidConfig`:
`rounds >= 1`, `initialHoldTime >= 0` and `holdIncrement >= 0`. The rest
fields need no condition, because the rest time is floored at zero.
`Date.now()` and `crypto.randomUUID()` are parameters (`now`, `id`).

Facts about the source that shape the model:

- `startSession` does not validate its table (src/store/useAppStore.ts:112-120).
- There is no pause: a diagnostic session counts up from its first tick.
- `dynamicScaling` (src/types/index.ts:23) is declared but never read.

## Model

| member | source | states |
|---|---|---|
| `Session.HoldDuration` | src/store/useAppStore.ts:149 | the hold time of a round (from round 1 on) is never below the initial hold time when the hold fields are not negative |
| `Session.RestDuration` | src/store/useAppStore.ts:154 | the rest time is the larger of 0 and `initialRestTime - restDecrement*(round-1)`: never negative, never below that value, and equal to one of the two |
| `Session.Start` | src/store/useAppStore.ts:112-120 | round 1, active, the given table; DIAGNOSTIC at 0 for a diagnostic table, otherwise PREPARATION at 15; the invariant holds when the table is valid |
| `Session.Next` | src/store/useAppStore.ts:132-169 | one tick keeps the invariant (time ≥ 0, 1 ≤ round ≤ rounds, FINISHED ⇒ inactive) and the active table |
| `Session.Stop` | src/store/useAppStore.ts:122-130 | always FINISHED and inactive; time, round and table kept; the invariant is kept |
| `Session.Run` | src/store/useAppStore.ts:132-169 | any number of ticks keeps the invariant and the table |
| `SessionRuns.InactiveRun` | src/store/useAppStore.ts:133-134 | without an active session or a table, any number of ticks changes nothing |
| `SessionRuns.DiagnosticRun` | src/store/useAppStore.ts:136-140 | in DIAGNOSTIC, n ticks add exactly n seconds; phase, round and activity are unchanged |
| `SessionRuns.CountdownRun` | src/store/useAppStore.ts:142-143 | in a round-based phase, n ticks with at least n seconds left take off exactly n seconds and change nothing else |
| `SessionRuns.PreparationLeadsToHold` | src/store/useAppStore.ts:146-150 | 16 ticks after a round-based start the session is at the start of round 1's hold |
| `SessionRuns.HoldLeadsToBreathe` | src/store/useAppStore.ts:151-155 | a hold lasts its duration, then one tick enters the same round's rest with its rest duration |
| `SessionRuns.BreatheLeadsOn` | src/store/useAppStore.ts:156-166 | a rest lasts its duration, then one tick enters the next round's hold, or after the last round FINISHED and inactive |
| `SessionRuns.NextCountsDown` | src/store/useAppStore.ts:142-166 | each tick of a running session lowers the ticks-to-finish count by exactly one; on the last one it finishes in the last round |
| `SessionRuns.RunBeforeEnd` | src/store/useAppStore.ts:132-169 | before its last tick a running session stays running, with exactly n fewer ticks to go |
| `SessionRuns.RunToEnd` | src/store/useAppStore.ts:156-166 | after exactly the remaining ticks a running session is FINISHED, inactive, in its last round |
| `SessionRuns.WholeSession` | src/store/useAppStore.ts:112-169 | a round-based session is active, not FINISHED and within its rounds for every tick before `SessionTicks(c)`; from then on it is FINISHED in round `rounds` |
| `SessionRuns.RoundSteps` | src/store/useAppStore.ts:156-163 | the round never decreases, grows by at most one per tick, and only at BREATHE → HOLD at time 0 |
| `Records.WithBaseline` | src/store/useAppStore.ts:84-95 | the new baseline and date are set, and the username and preferences are kept |
| `Records.WithSafetyAcknowledged` | src/store/useAppStore.ts:97-110 | only `safetyAcknowledged` changes; every other profile field is kept |
| `Records.Prepend` | src/store/useAppStore.ts:171-173 | the record comes first and the earlier records follow in order; the length is min(old length + 1, 100) |
| `Records.PrependAllKeepsNewest` | src/store/useAppStore.ts:171-173 | after any number of additions to an empty history, it holds the last 100 of them, newest first |
| `Store.AppStore.constructor` | src/store/useAppStore.ts:62-68 | the initial store: no profile, empty history, idle session fields |
| `Store.AppStore.SetProfile` | src/store/useAppStore.ts:70-82 | a fresh profile with baseline 0, date 0, voice cues on and safety not acknowledged; nothing else changes |
| `Store.AppStore.UpdateMaxHold` | src/store/useAppStore.ts:84-95 | with a profile, the baseline and date are updated; without one, nothing changes |
| `Store.AppStore.SetSafetyAcknowledged` | src/store/useAppStore.ts:97-110 | with a profile, only the acknowledgement changes; without one, nothing changes |
| `Store.AppStore.StartSession` | src/store/useAppStore.ts:112-120 | the session fields become `Start(config)`; profile and history are kept; a valid table keeps `Valid()` |
| `Store.AppStore.StopSession` | src/store/useAppStore.ts:122-130 | the session fields become `Stop(old)`; from DIAGNOSTIC with a profile, the baseline becomes the old time and the date `now`; otherwise the profile is kept |
| `Store.AppStore.Tick` | src/store/useAppStore.ts:132-169 | the session fields become `Next(old)`; profile and history are kept; `Valid()` is kept |
| `Store.AppStore.AddHistory` | src/store/useAppStore.ts:171-173 | the history becomes `Prepend(record, old history)`; the bound of 100 is kept |
| `Store.AppStore.ClearHistory` | src/store/useAppStore.ts:175 | the history is empty; nothing else changes |
| `Store.DiagnosticBaseline` | src/store/useAppStore.ts:122-140 | start a diagnostic table, tick three times, stop: the baseline is 3, dated `now`, and the session is FINISHED |
| `TimerView.FormatTime` | src/components/TimerView.tsx:87-91 | `formatTime` for every integer, with `Math.floor`, JavaScript's `%` and `padStart(2, '0')`; its properties are carried by `FormatTimeFields`, `FormatTimeRoundTrip`, `FormatTimeExamples` and `FormatTimeNegative` |
| `TimerView.JsRem` | src/components/TimerView.tsx:89 | JavaScript's `%`: the remainder lies in [0, 60) for a non-negative time and in (-60, 0] for a negative one |
| `TimerView.FormatTimeFields` | src/components/TimerView.tsx:87-91 | for s ≥ 0 the text is the digits of s / 60, a colon, then exactly two digits (s % 60 zero-padded) |
| `TimerView.FormatTimeExamples` | src/components/TimerView.tsx:90 | 0 shows as "0:00" and 75 as "1:15" |
| `TimerView.FormatTimeNegative` | src/components/TimerView.tsx:87-91 | a negative time (ruled out by the invariant) shows as "-1:-5" for -5 |
| `TimerView.FormatTimeRoundTrip` | src/components/TimerView.tsx:87-91 | for s ≥ 0, reading the display back gives minutes*60 + seconds == s with seconds < 60 |
| `TimerView.HoldCueTime` | src/components/TimerView.tsx:36 | the optional-chaining default of the initial hold time: that time, or 0 without a table; `Cues`, `HighBeepMidHold` and `FirstRoundCuesAgree` state what it does to the high beep |
| `TimerView.RestCueTime` | src/components/TimerView.tsx:39 | the optional-chaining default of the initial rest time: that time, or 0 without a table; `Cues` and `LowBeepNeverInLaterRests` state what it does to the low beep |
| `TimerView.Cues` | src/components/TimerView.tsx:32-52 | no cue without an active session; countdown iff 0 < time ≤ 3; warning iff time == 10; high beep iff HOLD at the initial hold time; low beep iff BREATHE at the initial rest time; at most two cues |
| `TimerView.IntendedCues` | src/components/TimerView.tsx:35-41 | the corrected choice: high beep iff HOLD at the current round's hold duration, low beep iff BREATHE at its rest duration; the other cues are as written |
| `TimerView.FirstRoundCuesAgree` | src/components/TimerView.tsx:36-41 | in round 1 the written and corrected cue choices coincide |
| `TimerView.HighBeepMidHold` | src/components/TimerView.tsx:36-38 | as written, with growing holds, from round 2 on the high beep is silent at the hold's start and sounds `holdIncrement*(i-1)` seconds into it |
| `TimerView.LowBeepNeverInLaterRests` | src/components/TimerView.tsx:39-41 | as written, with shrinking positive rests, from round 2 on the low beep never sounds during the rest |
| `TimerView.StandardO2SecondHold` | src/components/Dashboard.tsx:17-26 | on the Standard O2 table, round 2's 135 s hold beeps high 15 s in, not at its start |
| `TimerView.StandardCO2SecondRest` | src/components/Dashboard.tsx:7-16 | on the Standard CO2 table, round 2's 105 s rest never beeps low |
| `TimerView.IntendedHighBeepAtStart` | src/components/TimerView.tsx:36-38 | corrected: in every round the high beep sounds during the hold exactly at its first second |
| `TimerView.IntendedLowBeepAtStart` | src/components/TimerView.tsx:39-41 | corrected: in every round the low beep sounds during the rest exactly at its first second |
| `TimerView.ShouldLog` | src/components/TimerView.tsx:58 | the logging condition: FINISHED, a table, guard clear; `AtMostOnceWhileFinished`, `OnceWhenFinished`, `StoppedSessionLoggedCompleted` and `HistoryLogger.Effect` state its consequences |
| `TimerView.GuardAfter` | src/components/TimerView.tsx:57-73 | the guard is cleared while a session runs, set when a record is logged, and, in FINISHED, set iff it was already set or a table exists |
| `TimerView.LogRecord` | src/components/TimerView.tsx:59-67 | the logged record has completedRounds == currentRound, completed == true, totalDuration == 0, and the table's id and name |
| `TimerView.AtMostOnceWhileFinished` | src/components/TimerView.tsx:57-69 | while the session stays FINISHED, at most one record is logged, and none once the guard is set |
| `TimerView.OnceWhenFinished` | src/components/TimerView.tsx:57-69 | a FINISHED session with a table is logged exactly once unless the guard was already set |
| `TimerView.NothingWhileRunning` | src/components/TimerView.tsx:71-73 | while a session runs, nothing is logged and the guard ends clear |
| `TimerView.OncePerSession` | src/components/TimerView.tsx:55-74 | a session that runs and then stays FINISHED is logged exactly once, whatever the guard held before |
| `TimerView.SessionLoggedOnce` | src/components/TimerView.tsx:55-74 | from `startSession` of a round-based table through its last tick, plus any number of later effect runs, exactly one record is logged |
| `TimerView.StoppedSessionLoggedCompleted` | src/components/TimerView.tsx:58-67 | a session stopped early is still logged, marked completed, with the round it had reached |
| `TimerView.HistoryLogger.constructor` | src/components/TimerView.tsx:55 | the guard starts clear |
| `TimerView.HistoryLogger.Effect` | src/components/TimerView.tsx:57-74 | one effect run: the guard becomes `GuardAfter(old guard, state)`; when `ShouldLog` holds, `LogRecord` is prepended to the history, otherwise the history is kept; the session fields and profile are kept |

## Findings

| source | as written | input that shows it | evidently intended | confidence | as-written member | corrected member |
|---|---|---|---|---|---|---|
| src/components/TimerView.tsx:36-38 | the "phase start" high beep fires when `timeLeft == initialHoldTime`, the round-1 hold time | Standard O2 table, round 2: the hold starts at 135 s and the beep sounds at 120 s left, 15 s into the hold | beep when each round's hold starts, at `timeLeft == HoldDuration(round)` | medium, not executed | `TimerView.HighBeepMidHold` | `TimerView.IntendedHighBeepAtStart` |
| src/components/TimerView.tsx:39-41 | the "phase start" low beep fires when `timeLeft == initialRestTime`, the round-1 rest time | Standard CO2 table, round 2: the rest starts at 105 s, so the low beep never sounds | beep when each round's rest starts, at `timeLeft == RestDuration(round)` | medium, not executed | `TimerView.LowBeepNeverInLaterRests` | `TimerView.IntendedLowBeepAtStart` |

## Left out

- The `dynamicScaling` field of the table type (src/types/index.ts:23) is never read, so the model's table has no such field.
- Persisting the store to local storage, and the remote profile and history sync, are I/O.
- `Date.now()` and `crypto.randomUUID()` are parameters, not modelled sources of time and identity.
- Seconds are whole numbers (`int`). JavaScript numbers can be fractional, but nothing in the core produces a fraction from whole-number tables.
- Audio playback, the wake lock, the one-second `setInterval` driver and React's effect scheduling are timer and concurrency plumbing. `Tick` and `HistoryLogger.Effect` are steps the environment calls. `Cues` chooses the cues for a state, but does not model that React re-runs the effect only when its inputs change.
- TimerView.SessionLoggedOnce and TimerView.HistoryLogger.Effect assume that the history effect runs on a state whose phase is FINISHED. The store sets FINISHED and `isActive: false` in one update (src/store/useAppStore.ts:129, :165), and src/App.tsx:11 shows the timer screen only while `isActive`, so in the assembled application the screen is replaced in that same render and the logging branch may never run. Render order is React's and is not modelled; the lemmas state only what the guard does whenever the effect does run.
- The progress bar (a floating-point percentage), the phase colours and all rendering, and the authentication and dashboard screens are left out. The dashboard's two default tables appear only as the constants `StandardO2` and `StandardCO2`.
- The store's `SessionRecord` requires a `username`, but the timer screen adds records without one. The model makes `username` (and `notes`) optional, and the logged record has neither.
- The profile type in src/types/index.ts has an `id` field. The store uses its own profile type without one, and the model follows the store.
