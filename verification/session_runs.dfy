/**
 * Properties of runs of the session machine: what repeated ticks do in each
 * mode, and the fixed course of a round-based session from its start to
 * FINISHED, measured in ticks.
 */
module SessionRuns {
  import opened Wrappers
  import opened Session

  /** `n + m` ticks are `n` ticks followed by `m` ticks. */
  lemma {:induction false} RunAdd(s: Session, n: nat, m: nat)
    ensures Run(s, n + m) == Run(Run(s, n), m)
    decreases n
  {
    if n > 0 {
      RunAdd(Next(s), n - 1, m);
    }
  }

  /** Without an active session, any number of ticks changes nothing. */
  lemma {:induction false} InactiveRun(s: Session, n: nat)
    requires !s.isActive || s.config.None?
    ensures Run(s, n) == s
    decreases n
  {
    if n > 0 {
      InactiveRun(Next(s), n - 1);
    }
  }

  /** A diagnostic session counts up by exactly one per tick and never leaves DIAGNOSTIC by itself. */
  lemma {:induction false} DiagnosticRun(s: Session, n: nat)
    requires s.isActive && s.config.Some? && s.phase == Diagnostic
    ensures Run(s, n) == s.(timeLeft := s.timeLeft + n)
    decreases n
  {
    if n > 0 {
      DiagnosticRun(Next(s), n - 1);
    }
  }

  predicate CountingDown(s: Session) {
    s.isActive && s.config.Some? && (s.phase.Preparation? || s.phase.Hold? || s.phase.Breathe?)
  }

  /** While time is left in a round-based phase, each tick takes exactly one second off and changes nothing else. */
  lemma {:induction false} CountdownRun(s: Session, n: nat)
    requires CountingDown(s)
    requires n <= s.timeLeft
    ensures Run(s, n) == s.(timeLeft := s.timeLeft - n)
    decreases n
  {
    if n > 0 {
      CountdownRun(Next(s), n - 1);
    }
  }

  /** The state at the beginning of the hold of round `i`. */
  function HoldStart(c: TableConfig, i: int): Session {
    Session(Hold, HoldDuration(c, i), i, Some(c), true)
  }

  /** The state at the beginning of the rest of round `i`. */
  function BreatheStart(c: TableConfig, i: int): Session {
    Session(Breathe, RestDuration(c, i), i, Some(c), true)
  }

  /** The state in which a session that ran to its end rests. */
  function Completed(c: TableConfig): Session {
    Session(Finished, 0, c.rounds, Some(c), false)
  }

  /** The preparation countdown leads, after 15 seconds and one transition tick, into the hold of round 1. */
  lemma PreparationLeadsToHold(c: TableConfig)
    requires c.tableType != DiagnosticTable
    ensures Run(Start(c), PreparationSeconds + 1) == HoldStart(c, 1)
  {
    RunAdd(Start(c), PreparationSeconds, 1);
    CountdownRun(Start(c), PreparationSeconds);
  }

  /** The hold of round `i` lasts its hold duration, then one tick moves into the rest of the same round. */
  lemma HoldLeadsToBreathe(c: TableConfig, i: int)
    requires HoldDuration(c, i) >= 0
    ensures Run(HoldStart(c, i), HoldDuration(c, i) + 1) == BreatheStart(c, i)
  {
    RunAdd(HoldStart(c, i), HoldDuration(c, i), 1);
    CountdownRun(HoldStart(c, i), HoldDuration(c, i));
  }

  /**
   * The rest of round `i` lasts its rest duration, then one tick moves into
   * the hold of round `i + 1`, or, after the last round, finishes the session.
   */
  lemma BreatheLeadsOn(c: TableConfig, i: int)
    requires 1 <= i <= c.rounds
    ensures Run(BreatheStart(c, i), RestDuration(c, i) + 1)
         == if i < c.rounds then HoldStart(c, i + 1) else Session(Finished, 0, i, Some(c), false)
  {
    RunAdd(BreatheStart(c, i), RestDuration(c, i), 1);
    CountdownRun(BreatheStart(c, i), RestDuration(c, i));
  }

  /** Ticks from the beginning of the hold of round `i` until the session finishes. */
  function TicksFrom(c: TableConfig, i: int): (n: int)
    requires ValidConfig(c) && 1 <= i <= c.rounds
    ensures n >= 2 * (c.rounds - i + 1)
    decreases c.rounds - i
  {
    HoldDuration(c, i) + 1 + RestDuration(c, i) + 1 + TicksAfter(c, i)
  }

  /** Ticks from the end of round `i` until the session finishes (none after the last round). */
  function TicksAfter(c: TableConfig, i: int): (n: int)
    requires ValidConfig(c) && 1 <= i <= c.rounds
    ensures n >= 2 * (c.rounds - i)
    decreases c.rounds - i, 0
  {
    if i < c.rounds then TicksFrom(c, i + 1) else 0
  }

  /** A round-based session that is still running. */
  predicate Running(s: Session) {
    Inv(s) && CountingDown(s)
  }

  /** How many more ticks a running session takes to reach FINISHED. */
  function Remaining(s: Session): (n: int)
    requires Running(s)
    ensures n >= 1
  {
    var c := s.config.value;
    match s.phase
    case Preparation => s.timeLeft + 1 + TicksFrom(c, s.round)
    case Hold => s.timeLeft + 1 + RestDuration(c, s.round) + 1 + TicksAfter(c, s.round)
    case Breathe => s.timeLeft + 1 + TicksAfter(c, s.round)
  }

  /**
   * Every tick of a running session brings it exactly one tick closer to
   * the end: it either keeps running with one tick less to go, or, on its
   * last tick, finishes in the last round.
   */
  lemma NextCountsDown(s: Session)
    requires Running(s)
    ensures Remaining(s) == 1 ==> Next(s) == Completed(s.config.value)
    ensures Remaining(s) > 1 ==> Running(Next(s)) && Remaining(Next(s)) == Remaining(s) - 1
  {
    var c := s.config.value;
    if s.timeLeft == 0 && s.phase == Breathe && s.round < c.rounds {
      assert TicksAfter(c, s.round) == TicksFrom(c, s.round + 1);
    }
  }

  /** Before its last tick a running session is still running, round-based, and not FINISHED. */
  lemma {:induction false} RunBeforeEnd(s: Session, n: nat)
    requires Running(s)
    requires n < Remaining(s)
    ensures Running(Run(s, n))
    ensures Remaining(Run(s, n)) == Remaining(s) - n
    decreases n
  {
    if n > 0 {
      NextCountsDown(s);
      RunBeforeEnd(Next(s), n - 1);
    }
  }

  /** After exactly `Remaining(s)` ticks a running session is FINISHED in its last round. */
  lemma {:induction false} RunToEnd(s: Session)
    requires Running(s)
    ensures Run(s, Remaining(s)) == Completed(s.config.value)
    decreases Remaining(s)
  {
    NextCountsDown(s);
    if Remaining(s) > 1 {
      RunToEnd(Next(s));
    }
  }

  /** Ticks from `startSession` of a round-based table until FINISHED. */
  function SessionTicks(c: TableConfig): (n: int)
    requires ValidConfig(c)
    ensures n >= PreparationSeconds + 1 + 2 * c.rounds
  {
    PreparationSeconds + 1 + TicksFrom(c, 1)
  }

  /**
   * The whole course of a round-based session: for every tick before
   * `SessionTicks(c)` it is running, round-based and within its rounds;
   * after exactly `SessionTicks(c)` ticks it is FINISHED and inactive with
   * the last round reached; further ticks change nothing.
   */
  lemma WholeSession(c: TableConfig, n: nat)
    requires ValidConfig(c) && c.tableType != DiagnosticTable
    ensures n < SessionTicks(c) ==>
      var s := Run(Start(c), n);
      s.isActive && s.phase != Finished && s.phase != Diagnostic && 1 <= s.round <= c.rounds
    ensures n >= SessionTicks(c) ==> Run(Start(c), n) == Completed(c)
  {
    var s := Start(c);
    assert Running(s) && Remaining(s) == SessionTicks(c);
    if n < SessionTicks(c) {
      RunBeforeEnd(s, n);
    } else {
      RunToEnd(s);
      RunAdd(s, SessionTicks(c), n - SessionTicks(c));
      InactiveRun(Completed(c), n - SessionTicks(c));
    }
  }

  /** The round never decreases along a session, and grows by at most one per tick. */
  lemma RoundSteps(s: Session)
    requires Inv(s)
    ensures s.round <= Next(s).round <= s.round + 1
    ensures Next(s).round == s.round + 1 ==> s.phase == Breathe && Next(s).phase == Hold && s.timeLeft == 0
  {
  }
}
