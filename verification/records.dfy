/**
 * The user profile and the session history kept by the store
 * (src/store/useAppStore.ts), with the value-level updates the store's
 * profile and history actions perform.
 */
module Records {
  import opened Wrappers

  datatype Preferences = Preferences(voiceCues: bool, safetyAcknowledged: bool)

  datatype UserProfile = UserProfile(
    username: string,
    maxHoldBaseline: int,
    lastDiagnosticDate: int,
    preferences: Preferences)

  /** One logged session; `username` and `notes` are optional, and the timer view leaves both out. */
  datatype SessionRecord = SessionRecord(
    id: string,
    username: Option<string>,
    configId: string,
    tableName: string,
    timestamp: int,
    completedRounds: int,
    totalDuration: int,
    completed: bool,
    notes: Option<string>)

  /** The history keeps at most this many records. */
  const MaxHistory := 100

  /** The profile after a measured breath-hold: new baseline and date, every other field kept. */
  function WithBaseline(p: UserProfile, seconds: int, now: int): (q: UserProfile)
    ensures q.maxHoldBaseline == seconds && q.lastDiagnosticDate == now
    ensures q.username == p.username && q.preferences == p.preferences
  {
    p.(maxHoldBaseline := seconds, lastDiagnosticDate := now)
  }

  /** The profile with the safety notice acknowledged (or not): every other field kept. */
  function WithSafetyAcknowledged(p: UserProfile, acknowledged: bool): (q: UserProfile)
    ensures q.preferences.safetyAcknowledged == acknowledged
    ensures q.preferences.voiceCues == p.preferences.voiceCues
    ensures q.username == p.username && q.maxHoldBaseline == p.maxHoldBaseline
    ensures q.lastDiagnosticDate == p.lastDiagnosticDate
  {
    p.(preferences := p.preferences.(safetyAcknowledged := acknowledged))
  }

  /**
   * `[record, ...history].slice(0, 100)`: the new record first, then the
   * previous records in their order, cut to at most `MaxHistory` entries.
   */
  function Prepend(r: SessionRecord, h: seq<SessionRecord>): (out: seq<SessionRecord>)
    ensures |out| == if |h| < MaxHistory then |h| + 1 else MaxHistory
    ensures out[0] == r
    ensures forall i :: 1 <= i < |out| ==> out[i] == h[i - 1]
  {
    var all := [r] + h;
    if |all| <= MaxHistory then all else all[..MaxHistory]
  }

  /** The history after adding the records `rs` one by one, `rs[0]` first. */
  function PrependAll(rs: seq<SessionRecord>, h: seq<SessionRecord>): (out: seq<SessionRecord>)
    ensures |out| <= MaxHistory || (rs == [] && out == h)
    decreases |rs|
  {
    if rs == [] then h else Prepend(rs[|rs| - 1], PrependAll(rs[..|rs| - 1], h))
  }

  /**
   * After adding the records `rs` one by one (oldest first) to an empty
   * history, the history holds the last `MaxHistory` of them, newest first.
   */
  lemma {:induction false} PrependAllKeepsNewest(rs: seq<SessionRecord>, i: nat)
    requires i < |PrependAll(rs, [])|
    ensures |PrependAll(rs, [])| == if |rs| < MaxHistory then |rs| else MaxHistory
    ensures PrependAll(rs, [])[i] == rs[|rs| - 1 - i]
    decreases |rs|
  {
    var rest := rs[..|rs| - 1];
    if |rest| > 0 {
      if i > 0 {
        PrependAllKeepsNewest(rest, i - 1);
        assert rest[|rest| - 1 - (i - 1)] == rs[|rs| - 1 - i];
      } else {
        PrependAllKeepsNewest(rest, 0);
      }
    }
  }
}
