/**
 * The application store of src/store/useAppStore.ts as a class: its fields
 * are the store's state, and each action is a method that overwrites them
 * as the source's `set` calls do. The session actions are proved against
 * the pure functions of module Session, and every action keeps `Valid()`.
 *
 * `Date.now()` is the parameter `now`; persistence to local storage is not
 * part of this model.
 */
module Store {
  import opened Wrappers
  import opened Session
  import opened Records

  class AppStore {
    var profile: Option<UserProfile>
    var currentPhase: Phase
    var timeLeft: int
    var currentRound: int
    var history: seq<SessionRecord>
    var activeConfig: Option<TableConfig>
    var isActive: bool

    /** The session fields of the store as one value. */
    function State(): Session
      reads this
    {
      Session(currentPhase, timeLeft, currentRound, activeConfig, isActive)
    }

    /** The store invariant: the session invariant and a bounded history. */
    ghost predicate Valid()
      reads this
    {
      Inv(State()) && |history| <= MaxHistory
    }

    /** The store's initial state. */
    constructor ()
      ensures State() == Idle && profile == None && history == []
      ensures Valid()
    {
      profile := None;
      currentPhase := Preparation;
      timeLeft := 0;
      currentRound := 1;
      history := [];
      activeConfig := None;
      isActive := false;
    }

    /** `setProfile(username)`: a fresh profile with no baseline, voice cues on and the safety notice not acknowledged. */
    method SetProfile(username: string)
      modifies this
      ensures profile.Some?
      ensures profile.value.username == username
      ensures profile.value.maxHoldBaseline == 0 && profile.value.lastDiagnosticDate == 0
      ensures profile.value.preferences.voiceCues && !profile.value.preferences.safetyAcknowledged
      ensures State() == old(State()) && history == old(history)
      ensures old(Valid()) ==> Valid()
    {
      profile := Some(UserProfile(username, 0, 0, Preferences(true, false)));
    }

    /** `updateMaxHold(seconds)`: records a new baseline dated `now`; nothing happens without a profile. */
    method UpdateMaxHold(seconds: int, now: int)
      modifies this
      ensures old(profile).None? ==> profile == None
      ensures old(profile).Some? ==> profile == Some(WithBaseline(old(profile).value, seconds, now))
      ensures State() == old(State()) && history == old(history)
      ensures old(Valid()) ==> Valid()
    {
      if profile.Some? {
        profile := Some(profile.value.(maxHoldBaseline := seconds, lastDiagnosticDate := now));
      }
    }

    /** `setSafetyAcknowledged(acknowledged)`: nothing happens without a profile. */
    method SetSafetyAcknowledged(acknowledged: bool)
      modifies this
      ensures old(profile).None? ==> profile == None
      ensures old(profile).Some? ==> profile == Some(WithSafetyAcknowledged(old(profile).value, acknowledged))
      ensures State() == old(State()) && history == old(history)
      ensures old(Valid()) ==> Valid()
    {
      if profile.Some? {
        var p := profile.value;
        profile := Some(p.(preferences := p.preferences.(safetyAcknowledged := acknowledged)));
      }
    }

    /** `startSession(config)`: replaces every session field; the configuration is taken as it is. */
    method StartSession(config: TableConfig)
      modifies this
      ensures State() == Start(config)
      ensures profile == old(profile) && history == old(history)
      ensures old(Valid()) && ValidConfig(config) ==> Valid()
    {
      activeConfig := Some(config);
      currentPhase := if config.tableType == DiagnosticTable then Diagnostic else Preparation;
      timeLeft := if config.tableType == DiagnosticTable then 0 else PreparationSeconds;
      currentRound := 1;
      isActive := true;
    }

    /**
     * `stopSession()`: the session ends whatever its phase. Stopping a
     * diagnostic session first stores the counted seconds as the profile's
     * new baseline, dated `now`.
     */
    method StopSession(now: int)
      modifies this
      ensures State() == Stop(old(State()))
      ensures old(currentPhase) == Diagnostic && old(profile).Some? ==>
                profile == Some(WithBaseline(old(profile).value, old(timeLeft), now))
      ensures old(currentPhase) != Diagnostic || old(profile).None? ==> profile == old(profile)
      ensures history == old(history)
      ensures old(Valid()) ==> Valid()
    {
      if currentPhase == Diagnostic {
        var duration := timeLeft;
        UpdateMaxHold(duration, now);
      }
      isActive := false;
      currentPhase := Finished;
    }

    /** `tick()`: one second of progress, as `Next` describes it. */
    method Tick()
      modifies this
      ensures State() == Next(old(State()))
      ensures profile == old(profile) && history == old(history)
      ensures old(Valid()) ==> Valid()
    {
      if !isActive || activeConfig.None? {
        return;
      }
      if currentPhase == Diagnostic {
        timeLeft := timeLeft + 1;
        return;
      }
      if timeLeft > 0 {
        timeLeft := timeLeft - 1;
      } else {
        var c := activeConfig.value;
        if currentPhase == Preparation {
          currentPhase := Hold;
          timeLeft := c.initialHoldTime + c.holdIncrement * (currentRound - 1);
        } else if currentPhase == Hold {
          currentPhase := Breathe;
          var rest := c.initialRestTime - c.restDecrement * (currentRound - 1);
          timeLeft := if 0 < rest then rest else 0;
        } else if currentPhase == Breathe {
          if currentRound < c.rounds {
            var nextRound := currentRound + 1;
            currentRound := nextRound;
            currentPhase := Hold;
            timeLeft := c.initialHoldTime + c.holdIncrement * (nextRound - 1);
          } else {
            currentPhase := Finished;
            isActive := false;
          }
        }
      }
    }

    /** `addHistory(record)`: the record goes first, the history stays at most `MaxHistory` long. */
    method AddHistory(record: SessionRecord)
      modifies this
      ensures history == Prepend(record, old(history))
      ensures State() == old(State()) && profile == old(profile)
      ensures old(Valid()) ==> Valid()
    {
      var all := [record] + history;
      history := if |all| <= MaxHistory then all else all[..MaxHistory];
    }

    /** `clearHistory()`. */
    method ClearHistory()
      modifies this
      ensures history == []
      ensures State() == old(State()) && profile == old(profile)
      ensures old(Valid()) ==> Valid()
    {
      history := [];
    }
  }

  /** A client of the store: a diagnostic session that counts three seconds and is then stopped leaves a baseline of 3. */
  method DiagnosticBaseline(store: AppStore, config: TableConfig, now: int)
    requires config.tableType == DiagnosticTable
    requires store.profile.Some?
    modifies store
    ensures store.profile.Some? && store.profile.value.maxHoldBaseline == 3
    ensures store.profile.value.lastDiagnosticDate == now
    ensures store.currentPhase == Finished && !store.isActive
  {
    store.StartSession(config);
    store.Tick();
    store.Tick();
    store.Tick();
    store.StopSession(now);
  }
}
