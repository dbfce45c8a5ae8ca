/**
 * The session timer state machine of the application store
 * (src/store/useAppStore.ts): the table configuration, the session fields
 * of the store, the per-round durations, and the three actions that move a
 * session (start, one tick, stop) as pure functions on a snapshot of those
 * fields. The store class in module Store is proved against these functions.
 *
 * All times are whole seconds. The source does not validate a configuration,
 * so every duration field is an unbounded `int`; the invariant `Inv` holds for
 * configurations satisfying `ValidConfig`.
 */
module Session {
  import opened Wrappers

  datatype Phase = Preparation | Hold | Breathe | Finished | Diagnostic

  /** The `type` field of a table: CO2, O2, Custom or Diagnostic. */
  datatype TableType = CO2 | O2 | Custom | DiagnosticTable

  datatype TableConfig = TableConfig(
    id: string,
    name: string,
    tableType: TableType,
    rounds: int,
    initialHoldTime: int,
    initialRestTime: int,
    holdIncrement: int,
    restDecrement: int)

  /** Length of the countdown before the first hold of a round-based table. */
  const PreparationSeconds := 15

  /**
   * What the invariants need of a configuration: at least one round and a
   * hold time that never goes below zero. The rest time needs no condition,
   * since it is floored at zero.
   */
  predicate ValidConfig(c: TableConfig) {
    c.rounds >= 1 && c.initialHoldTime >= 0 && c.holdIncrement >= 0
  }

  /** Hold time of the 1-indexed round `round`: it grows by `holdIncrement` per round. */
  function HoldDuration(c: TableConfig, round: int): (d: int)
    ensures c.initialHoldTime >= 0 && c.holdIncrement >= 0 && round >= 1 ==> d >= c.initialHoldTime
  {
    c.initialHoldTime + c.holdIncrement * (round - 1)
  }

  /**
   * Rest time of the 1-indexed round `round`: it shrinks by `restDecrement`
   * per round and never goes below zero.
   */
  function RestDuration(c: TableConfig, round: int): (d: int)
    ensures d >= 0
    ensures d >= c.initialRestTime - c.restDecrement * (round - 1)
    ensures d == 0 || d == c.initialRestTime - c.restDecrement * (round - 1)
  {
    var base := c.initialRestTime - c.restDecrement * (round - 1);
    if base > 0 then base else 0
  }

  /** The session fields of the store: `currentPhase`, `timeLeft`, `currentRound`, `activeConfig`, `isActive`. */
  datatype Session = Session(
    phase: Phase,
    timeLeft: int,
    round: int,
    config: Option<TableConfig>,
    isActive: bool)

  /** The store's initial session fields, before any session has been started. */
  const Idle := Session(Preparation, 0, 1, None, false)

  /**
   * The invariant every action keeps: the time is never negative, the round
   * is 1-indexed and never beyond the table's rounds, and a finished session
   * is not active.
   */
  predicate Inv(s: Session) {
    && s.timeLeft >= 0
    && s.round >= 1
    && (s.phase == Finished ==> !s.isActive)
    && (s.config.Some? ==> ValidConfig(s.config.value) && s.round <= s.config.value.rounds)
  }

  /** `startSession(config)`: no validation; a diagnostic table counts up from 0, any other table begins with the preparation countdown. */
  function Start(c: TableConfig): (s: Session)
    ensures s.round == 1 && s.isActive && s.config == Some(c)
    ensures c.tableType == DiagnosticTable ==> s.phase == Diagnostic && s.timeLeft == 0
    ensures c.tableType != DiagnosticTable ==> s.phase == Preparation && s.timeLeft == PreparationSeconds
    ensures ValidConfig(c) ==> Inv(s)
  {
    Session(
      if c.tableType == DiagnosticTable then Diagnostic else Preparation,
      if c.tableType == DiagnosticTable then 0 else PreparationSeconds,
      1, Some(c), true)
  }

  /**
   * `tick()`: one second of progress. Nothing happens without an active
   * session; a diagnostic session counts up; otherwise the time counts down,
   * and a phase that has reached zero moves on
   * PREPARATION -> HOLD -> BREATHE -> HOLD of the next round ... -> FINISHED.
   */
  function Next(s: Session): (t: Session)
    ensures Inv(s) ==> Inv(t)
    ensures t.config == s.config
  {
    if !s.isActive || s.config.None? then s
    else if s.phase == Diagnostic then s.(timeLeft := s.timeLeft + 1)
    else if s.timeLeft > 0 then s.(timeLeft := s.timeLeft - 1)
    else
      var c := s.config.value;
      match s.phase
      case Preparation => s.(phase := Hold, timeLeft := HoldDuration(c, s.round))
      case Hold => s.(phase := Breathe, timeLeft := RestDuration(c, s.round))
      case Breathe =>
        if s.round < c.rounds then
          s.(round := s.round + 1, phase := Hold, timeLeft := HoldDuration(c, s.round + 1))
        else
          s.(phase := Finished, isActive := false)
      case Finished => s
      case Diagnostic => s
  }

  /** `stopSession()`: whatever the prior phase, the session is finished and inactive; time, round and table are kept. */
  function Stop(s: Session): (t: Session)
    ensures t.phase == Finished && !t.isActive
    ensures t.timeLeft == s.timeLeft && t.round == s.round && t.config == s.config
    ensures Inv(s) ==> Inv(t)
  {
    s.(phase := Finished, isActive := false)
  }

  /** The state after `n` calls of `tick()`. */
  function Run(s: Session, n: nat): (t: Session)
    ensures Inv(s) ==> Inv(t)
    ensures t.config == s.config
    decreases n
  {
    if n == 0 then s else Run(Next(s), n - 1)
  }
}
