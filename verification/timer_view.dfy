/**
 * The logic of the timer screen (src/components/TimerView.tsx) without its
 * rendering: the m:ss formatter, the choice of audio cues for a state of the
 * store, and the guard that logs one history record per finished session.
 * Playback, the one-second interval driver and React's effect scheduling
 * are not part of this model; the effects are modelled as steps the
 * environment runs after a change of the store.
 */
module TimerView {
  import opened Wrappers
  import opened Session
  import opened SessionRuns
  import opened Records
  import Store

  // ---------------------------------------------------------------------
  // Formatting of the remaining time
  // ---------------------------------------------------------------------

  function DigitChar(d: int): char
    requires 0 <= d < 10
  {
    ('0' as int + d) as char
  }

  predicate IsDigit(ch: char) {
    '0' <= ch <= '9'
  }

  predicate AllDigits(str: string) {
    forall i :: 0 <= i < |str| ==> IsDigit(str[i])
  }

  /** Decimal digits of a natural number, without leading zeros (`Number.prototype.toString`). */
  function NatToString(n: nat): string
    decreases n
  {
    if n < 10 then [DigitChar(n)] else NatToString(n / 10) + [DigitChar(n % 10)]
  }

  /** `toString` of an integer: a minus sign before the digits of a negative one. */
  function IntToString(i: int): string {
    if i < 0 then "-" + NatToString(-i) else NatToString(i)
  }

  /** `str.padStart(width, '0')`: zeros in front up to `width` characters. */
  function PadStart(str: string, width: nat): string {
    if |str| >= width then str else seq(width - |str|, _ => '0') + str
  }

  /** JavaScript's `%`, which truncates toward zero: the remainder has the sign of `a`. */
  function JsRem(a: int, b: int): (r: int)
    requires b > 0
    ensures a >= 0 ==> 0 <= r < b
    ensures a < 0 ==> -b < r <= 0
  {
    if a >= 0 then a % b else -((-a) % b)
  }

  /**
   * `formatTime(s)`: whole minutes (`Math.floor(s / 60)`, which is Dafny's
   * `/` since the divisor is positive), a colon, and the remainder padded to
   * two characters.
   */
  function FormatTime(s: int): string {
    IntToString(s / 60) + ":" + PadStart(IntToString(JsRem(s, 60)), 2)
  }

  /** For a non-negative time, the seconds field is exactly two digits, zero-padded. */
  lemma FormatTimeFields(s: int)
    requires s >= 0
    ensures FormatTime(s) == NatToString(s / 60) + ":" + [DigitChar(s % 60 / 10), DigitChar(s % 60 % 10)]
  {
    var secs := s % 60;
    assert JsRem(s, 60) == secs;
    if secs < 10 {
      assert PadStart(NatToString(secs), 2) == ['0', DigitChar(secs)];
    } else {
      assert NatToString(secs) == NatToString(secs / 10) + [DigitChar(secs % 10)];
    }
  }

  /** The two examples 0 -> "0:00" and 75 -> "1:15". */
  lemma FormatTimeExamples()
    ensures FormatTime(0) == "0:00"
    ensures FormatTime(75) == "1:15"
  {
  }

  /** A negative time, which the session invariant rules out, is rendered with two signs. */
  lemma FormatTimeNegative()
    ensures FormatTime(-5) == "-1:-5"
  {
  }

  function DigitValue(ch: char): int {
    ch as int - '0' as int
  }

  /** The number a string of decimal digits denotes. */
  function DigitsValue(ds: string): int
    decreases |ds|
  {
    if ds == [] then 0 else DigitsValue(ds[..|ds| - 1]) * 10 + DigitValue(ds[|ds| - 1])
  }

  lemma {:induction false} NatToStringDigits(n: nat)
    ensures |NatToString(n)| >= 1
    ensures AllDigits(NatToString(n))
    ensures DigitsValue(NatToString(n)) == n
    decreases n
  {
    if n >= 10 {
      NatToStringDigits(n / 10);
      var str := NatToString(n);
      assert str[..|str| - 1] == NatToString(n / 10);
    }
  }

  /**
   * Reading an "m:ss" display back into seconds: digits, a colon, and exactly
   * two digits below 60. It is the inverse `FormatTime` is checked against.
   */
  function ParseTime(t: string): Option<int> {
    if |t| >= 4 && t[|t| - 3] == ':' && AllDigits(t[..|t| - 3]) && AllDigits(t[|t| - 2..])
       && DigitsValue(t[|t| - 2..]) < 60
    then Some(DigitsValue(t[..|t| - 3]) * 60 + DigitsValue(t[|t| - 2..]))
    else None
  }

  /** The display of a non-negative time reads back as that time: minutes * 60 + seconds, seconds below 60. */
  lemma FormatTimeRoundTrip(s: int)
    requires s >= 0
    ensures ParseTime(FormatTime(s)) == Some(s)
  {
    FormatTimeFields(s);
    NatToStringDigits(s / 60);
    var t := FormatTime(s);
    var mins := NatToString(s / 60);
    var secs := [DigitChar(s % 60 / 10), DigitChar(s % 60 % 10)];
    assert t[..|t| - 3] == mins;
    assert t[|t| - 2..] == secs;
    var tens := s % 60 / 10;
    assert secs[..1] == [secs[0]] && [secs[0]][..0] == [];
    assert DigitsValue([secs[0]]) == tens;
    assert DigitsValue(secs) == tens * 10 + s % 60 % 10 == s % 60;
  }

  // ---------------------------------------------------------------------
  // Audio cues
  // ---------------------------------------------------------------------

  datatype Cue = BeepHigh | BeepLow | BeepCountdown | BeepWarning

  /** `activeConfig?.initialHoldTime || 0`: a missing table and a zero both give 0. */
  function HoldCueTime(config: Option<TableConfig>): int {
    if config.Some? then config.value.initialHoldTime else 0
  }

  /** `activeConfig?.initialRestTime || 0`. */
  function RestCueTime(config: Option<TableConfig>): int {
    if config.Some? then config.value.initialRestTime else 0
  }

  /** The cue played for one condition, if it holds. */
  function CueIf(b: bool, cue: Cue): seq<Cue> {
    if b then [cue] else []
  }

  /**
   * The cues the timer screen plays for a state of the store, in the order
   * it plays them. The phase-start beeps compare the time left with the
   * table's INITIAL hold and rest times, whatever the round.
   */
  function Cues(s: Session): (cues: seq<Cue>)
    ensures !s.isActive ==> cues == []
    ensures BeepHigh in cues <==> s.isActive && s.phase == Hold && s.timeLeft == HoldCueTime(s.config)
    ensures BeepLow in cues <==> s.isActive && s.phase == Breathe && s.timeLeft == RestCueTime(s.config)
    ensures BeepCountdown in cues <==> s.isActive && 0 < s.timeLeft <= 3
    ensures BeepWarning in cues <==> s.isActive && s.timeLeft == 10
    ensures |cues| <= 2
  {
    if !s.isActive then []
    else
      CueIf(s.timeLeft == HoldCueTime(s.config) && s.phase == Hold, BeepHigh)
      + CueIf(s.timeLeft == RestCueTime(s.config) && s.phase == Breathe, BeepLow)
      + CueIf(s.timeLeft <= 3 && s.timeLeft > 0, BeepCountdown)
      + CueIf(s.timeLeft == 10, BeepWarning)
  }

  /** The time a hold of the current round starts from (0 without a table). */
  function HoldStartTime(s: Session): int {
    if s.config.Some? then HoldDuration(s.config.value, s.round) else 0
  }

  /** The time a rest of the current round starts from (0 without a table). */
  function RestStartTime(s: Session): int {
    if s.config.Some? then RestDuration(s.config.value, s.round) else 0
  }

  /** The cues with the phase-start beeps keyed to the current round's own hold and rest times. */
  function IntendedCues(s: Session): (cues: seq<Cue>)
    ensures BeepHigh in cues <==> s.isActive && s.phase == Hold && s.timeLeft == HoldStartTime(s)
    ensures BeepLow in cues <==> s.isActive && s.phase == Breathe && s.timeLeft == RestStartTime(s)
    ensures BeepCountdown in cues <==> BeepCountdown in Cues(s)
    ensures BeepWarning in cues <==> BeepWarning in Cues(s)
  {
    if !s.isActive then []
    else
      CueIf(s.timeLeft == HoldStartTime(s) && s.phase == Hold, BeepHigh)
      + CueIf(s.timeLeft == RestStartTime(s) && s.phase == Breathe, BeepLow)
      + CueIf(s.timeLeft <= 3 && s.timeLeft > 0, BeepCountdown)
      + CueIf(s.timeLeft == 10, BeepWarning)
  }

  /** In the first round (with a rest time that is not negative) both ways of choosing the cues agree. */
  lemma FirstRoundCuesAgree(s: Session)
    requires s.round == 1
    requires s.config.Some? ==> s.config.value.initialRestTime >= 0
    ensures Cues(s) == IntendedCues(s)
  {
  }

  /**
   * As written, from round 2 on with a growing hold, the "phase start" high
   * beep is silent when the hold starts and sounds `holdIncrement * (i - 1)`
   * seconds into it.
   */
  lemma HighBeepMidHold(c: TableConfig, i: int)
    requires ValidConfig(c) && c.holdIncrement > 0 && 2 <= i <= c.rounds
    ensures BeepHigh !in Cues(HoldStart(c, i))
    ensures var k := HoldDuration(c, i) - c.initialHoldTime;
      k > 0 && BeepHigh in Cues(Run(HoldStart(c, i), k))
  {
    var k := HoldDuration(c, i) - c.initialHoldTime;
    assert k == c.holdIncrement * (i - 1) > 0;
    CountdownRun(HoldStart(c, i), k);
  }

  /**
   * As written, from round 2 on with a shrinking positive rest, the low beep
   * never sounds during the rest: the countdown starts below the initial
   * rest time.
   */
  lemma LowBeepNeverInLaterRests(c: TableConfig, i: int, k: nat)
    requires c.restDecrement > 0 && c.initialRestTime > 0 && i >= 2
    requires k <= RestDuration(c, i)
    ensures BeepLow !in Cues(Run(BreatheStart(c, i), k))
  {
    assert c.restDecrement * (i - 1) > 0;
    CountdownRun(BreatheStart(c, i), k);
  }

  /** The Standard O2 table of the dashboard: 8 rounds, holds from 120 s growing by 15 s, rests of 120 s. */
  const StandardO2 := TableConfig("o2-standard", "Standard O2", O2, 8, 120, 120, 15, 0)

  /** The Standard CO2 table of the dashboard: 8 rounds, holds of 120 s, rests from 120 s shrinking by 15 s. */
  const StandardCO2 := TableConfig("co2-standard", "Standard CO2", CO2, 8, 120, 120, 0, 15)

  /** On Standard O2, the round-2 hold lasts 135 s and its high beep sounds 15 s in, at 120 s left. */
  lemma StandardO2SecondHold()
    ensures HoldDuration(StandardO2, 2) == 135
    ensures BeepHigh !in Cues(HoldStart(StandardO2, 2))
    ensures Run(HoldStart(StandardO2, 2), 15).timeLeft == 120
    ensures BeepHigh in Cues(Run(HoldStart(StandardO2, 2), 15))
  {
    HighBeepMidHold(StandardO2, 2);
  }

  /** On Standard CO2, the round-2 rest lasts 105 s and never sounds the low beep. */
  lemma StandardCO2SecondRest(k: nat)
    requires k <= 105
    ensures RestDuration(StandardCO2, 2) == 105
    ensures BeepLow !in Cues(Run(BreatheStart(StandardCO2, 2), k))
  {
    LowBeepNeverInLaterRests(StandardCO2, 2, k);
  }

  /**
   * With the cues keyed to the round's own durations, the high beep sounds
   * exactly once per hold, at its start, in every round.
   */
  lemma IntendedHighBeepAtStart(c: TableConfig, i: int, k: nat)
    requires ValidConfig(c) && 1 <= i <= c.rounds
    requires k <= HoldDuration(c, i)
    ensures BeepHigh in IntendedCues(Run(HoldStart(c, i), k)) <==> k == 0
  {
    CountdownRun(HoldStart(c, i), k);
  }

  /** Likewise the low beep sounds exactly once per rest, at its start, in every round. */
  lemma IntendedLowBeepAtStart(c: TableConfig, i: int, k: nat)
    requires k <= RestDuration(c, i)
    ensures BeepLow in IntendedCues(Run(BreatheStart(c, i), k)) <==> k == 0
  {
    CountdownRun(BreatheStart(c, i), k);
  }

  // ---------------------------------------------------------------------
  // Logging a finished session once
  // ---------------------------------------------------------------------

  /** Whether the history effect adds a record: the session is FINISHED, has a table, and the guard is clear. */
  predicate ShouldLog(saved: bool, s: Session) {
    s.phase == Finished && s.config.Some? && !saved
  }

  /** The guard after the history effect: set once a record is added, cleared while a session runs. */
  function GuardAfter(saved: bool, s: Session): (g: bool)
    ensures s.isActive && s.phase != Finished ==> !g
    ensures ShouldLog(saved, s) ==> g
    ensures s.phase == Finished ==> (g <==> saved || s.config.Some?)
  {
    if ShouldLog(saved, s) then !(s.isActive && s.phase != Finished)
    else if s.isActive && s.phase != Finished then false
    else saved
  }

  /** The record the effect adds; `crypto.randomUUID()` is `id`, `Date.now()` is `now`. */
  function LogRecord(s: Session, id: string, now: int): (r: SessionRecord)
    requires s.config.Some?
    ensures r.completedRounds == s.round && r.completed && r.totalDuration == 0
    ensures r.configId == s.config.value.id && r.tableName == s.config.value.name
    ensures r.id == id && r.timestamp == now && r.username == None && r.notes == None
  {
    SessionRecord(id, None, s.config.value.id, s.config.value.name, now, s.round, 0, true, None)
  }

  /** The number of records the effect adds when it runs once on each state of `trace`, starting from guard `saved`. */
  function LoggedCount(saved: bool, trace: seq<Session>): nat
    decreases |trace|
  {
    if trace == [] then 0
    else (if ShouldLog(saved, trace[0]) then 1 else 0) + LoggedCount(GuardAfter(saved, trace[0]), trace[1..])
  }

  /** The guard after the effect has run on each state of `trace`. */
  function FinalGuard(saved: bool, trace: seq<Session>): bool
    decreases |trace|
  {
    if trace == [] then saved else FinalGuard(GuardAfter(saved, trace[0]), trace[1..])
  }

  lemma {:induction false} LoggedSplit(saved: bool, a: seq<Session>, b: seq<Session>)
    ensures LoggedCount(saved, a + b) == LoggedCount(saved, a) + LoggedCount(FinalGuard(saved, a), b)
    ensures FinalGuard(saved, a + b) == FinalGuard(FinalGuard(saved, a), b)
    decreases |a|
  {
    if a != [] {
      assert (a + b)[0] == a[0];
      assert (a + b)[1..] == a[1..] + b;
      LoggedSplit(GuardAfter(saved, a[0]), a[1..], b);
    } else {
      assert a + b == b;
    }
  }

  /** While the session stays FINISHED, at most one record is logged, and none once the guard is set. */
  lemma {:induction false} AtMostOnceWhileFinished(saved: bool, trace: seq<Session>)
    requires forall i :: 0 <= i < |trace| ==> trace[i].phase == Finished
    ensures LoggedCount(saved, trace) <= 1
    ensures saved ==> LoggedCount(saved, trace) == 0
    decreases |trace|
  {
    if trace != [] {
      AtMostOnceWhileFinished(GuardAfter(saved, trace[0]), trace[1..]);
    }
  }

  /** A FINISHED session with a table is logged exactly once unless the guard was already set. */
  lemma {:induction false} OnceWhenFinished(saved: bool, trace: seq<Session>)
    requires trace != []
    requires forall i :: 0 <= i < |trace| ==> trace[i].phase == Finished && trace[i].config.Some?
    ensures LoggedCount(saved, trace) == if saved then 0 else 1
  {
    AtMostOnceWhileFinished(saved, trace);
    AtMostOnceWhileFinished(true, trace[1..]);
  }

  /** While a session runs, nothing is logged and the guard ends up clear. */
  lemma {:induction false} NothingWhileRunning(saved: bool, trace: seq<Session>)
    requires trace != []
    requires forall i :: 0 <= i < |trace| ==> trace[i].isActive && trace[i].phase != Finished
    ensures LoggedCount(saved, trace) == 0
    ensures !FinalGuard(saved, trace)
    decreases |trace|
  {
    if |trace| > 1 {
      NothingWhileRunning(GuardAfter(saved, trace[0]), trace[1..]);
    }
  }

  /** A session that runs and then stays FINISHED is logged exactly once, whatever the guard was before. */
  lemma OncePerSession(saved: bool, running: seq<Session>, finished: seq<Session>)
    requires running != [] && finished != []
    requires forall i :: 0 <= i < |running| ==> running[i].isActive && running[i].phase != Finished
    requires forall i :: 0 <= i < |finished| ==> finished[i].phase == Finished && finished[i].config.Some?
    ensures LoggedCount(saved, running + finished) == 1
  {
    LoggedSplit(saved, running, finished);
    NothingWhileRunning(saved, running);
    OnceWhenFinished(false, finished);
  }

  /** The states seen by the effect when it runs after each of `n` successive ticks from `s` (and once on `s`). */
  function Trace(s: Session, n: nat): (t: seq<Session>)
    ensures |t| == n
    decreases n
  {
    if n == 0 then [] else [s] + Trace(Next(s), n - 1)
  }

  lemma {:induction false} TraceAt(s: Session, n: nat, k: nat)
    requires k < n
    ensures Trace(s, n)[k] == Run(s, k)
    decreases n
  {
    if k > 0 {
      TraceAt(Next(s), n - 1, k - 1);
    }
  }

  /**
   * Whole round-based sessions are logged exactly once: from `startSession`
   * through the last tick and any number of further effect runs, exactly one
   * record is added, whatever the guard held before.
   */
  lemma SessionLoggedOnce(c: TableConfig, saved: bool, extra: nat)
    requires ValidConfig(c) && c.tableType != DiagnosticTable
    ensures LoggedCount(saved, Trace(Start(c), SessionTicks(c) + 1 + extra)) == 1
  {
    var total := SessionTicks(c) + 1 + extra;
    var t := Trace(Start(c), total);
    var running := t[..SessionTicks(c)];
    var finished := t[SessionTicks(c)..];
    assert t == running + finished;
    forall i | 0 <= i < |running|
      ensures running[i].isActive && running[i].phase != Finished
    {
      TraceAt(Start(c), total, i);
      WholeSession(c, i);
    }
    forall i | 0 <= i < |finished|
      ensures finished[i].phase == Finished && finished[i].config.Some?
    {
      TraceAt(Start(c), total, SessionTicks(c) + i);
      WholeSession(c, SessionTicks(c) + i);
    }
    OncePerSession(saved, running, finished);
  }

  /** A session stopped early is still logged, as completed, with the round it had reached. */
  lemma StoppedSessionLoggedCompleted(s: Session, id: string, now: int)
    requires s.config.Some?
    ensures ShouldLog(false, Stop(s))
    ensures LogRecord(Stop(s), id, now).completed && LogRecord(Stop(s), id, now).completedRounds == s.round
  {
  }

  /** The `hasSavedHistory` ref of the timer screen and the history effect that reads and sets it. */
  class HistoryLogger {
    var hasSavedHistory: bool

    constructor ()
      ensures !hasSavedHistory
    {
      hasSavedHistory := false;
    }

    /** One run of the history effect on the current store state. */
    method Effect(store: Store.AppStore, id: string, now: int)
      modifies this, store
      ensures hasSavedHistory == GuardAfter(old(hasSavedHistory), old(store.State()))
      ensures ShouldLog(old(hasSavedHistory), old(store.State())) ==>
                store.history == Prepend(LogRecord(old(store.State()), id, now), old(store.history))
      ensures !ShouldLog(old(hasSavedHistory), old(store.State())) ==> store.history == old(store.history)
      ensures store.State() == old(store.State()) && store.profile == old(store.profile)
      ensures old(store.Valid()) ==> store.Valid()
    {
      if store.currentPhase == Finished && store.activeConfig.Some? && !hasSavedHistory {
        store.AddHistory(LogRecord(store.State(), id, now));
        hasSavedHistory := true;
      }
      if store.isActive && store.currentPhase != Finished {
        hasSavedHistory := false;
      }
    }
  }
}
