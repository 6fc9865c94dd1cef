/** The durable manifests of recovery operations and the compare-and-set moves on them. */
module RecoverySnapshots {
  import opened RecoveryState

  datatype Option<+T> = None | Some(value: T)

  /** Nanoseconds; 0 is the zero time. */
  type Time = int

  datatype Source = Automatic | User

  datatype Step = Step(name: string, summary: string, state: State, at: Time)

  datatype Report = Report(
    operationId: string, diagnosticId: string, action: string, source: Source, state: State, steps: seq<Step>,
    snapshotReference: string, validationOutcome: string, rollbackOutcome: string, error: string,
    startedAt: Time, finishedAt: Time)

  /** The captured entries never change after creation; `entries` names them. */
  datatype Manifest = Manifest(
    operationId: string, action: string, fingerprint: string, createdAt: Time, updatedAt: Time,
    state: State, report: Report, entries: string)

  function StateName(state: State): string {
    match state
    case Detected => "detected"
    case DiagnosisOnly => "diagnosis_only"
    case Planned => "planned"
    case Snapshotted => "snapshotted"
    case Applying => "applying"
    case Validating => "validating"
    case Succeeded => "succeeded"
    case RollingBack => "rolling_back"
    case RolledBack => "rolled_back"
    case RollbackFailed => "rollback_failed"
    case Suppressed => "suppressed"
  }

  function Later(a: Time, b: Time): Time {
    if a < b then b else a
  }

  // ----- validity; `clean` says that a text is sanitized and bounded -----

  predicate ValidStep(clean: string -> bool, r: Report, i: nat)
    requires i < |r.steps|
  {
    var s := r.steps[i];
    && s.name != "" && clean(s.name) && clean(s.summary) && s.at != 0
    && r.startedAt <= s.at && (r.finishedAt != 0 ==> s.at <= r.finishedAt)
    && (i > 0 ==> r.steps[i - 1].at <= s.at)
  }

  predicate ValidReport(clean: string -> bool, r: Report) {
    && r.operationId != "" && r.diagnosticId != "" && r.action != "" && r.startedAt != 0
    && (r.finishedAt != 0 ==> r.startedAt <= r.finishedAt)
    && clean(r.error) && clean(r.validationOutcome) && clean(r.rollbackOutcome) && clean(r.snapshotReference)
    && forall i | 0 <= i < |r.steps| :: ValidStep(clean, r, i)
  }

  predicate ValidManifest(clean: string -> bool, m: Manifest) {
    && m.operationId != "" && m.action != "" && m.createdAt != 0 && m.updatedAt != 0 && m.createdAt <= m.updatedAt
    && m.report.operationId == m.operationId && m.report.action == m.action && m.report.state == m.state
    && ValidReport(clean, m.report)
  }

  // ----- one move -----

  datatype Move = Refused | Already(m: Manifest) | Moved(m: Manifest)

  /** A report may replace the stored one if it is the same operation's, in the new state, and only
      adds to its history. */
  predicate Continues(clean: string -> bool, m: Manifest, next: State, r: Report) {
    && r.operationId == m.operationId && r.diagnosticId == m.report.diagnosticId && r.action == m.action
    && r.source == m.report.source && r.startedAt == m.report.startedAt
    && r.snapshotReference == m.report.snapshotReference && r.state == next
    && ValidReport(clean, r) && m.report.steps <= r.steps
  }

  function Replaced(m: Manifest, next: State, report: Option<Report>, now: Time): Manifest {
    var r := match report
      case Some(r) => r
      case None => m.report.(state := next, steps := m.report.steps + [Step(StateName(next), "", next, now)]);
    m.(report := r, state := next, updatedAt := Later(now, m.updatedAt))
  }

  /** What a move from `expected` to `next` makes of a manifest. */
  function MoveOf(clean: string -> bool, m: Manifest, expected: State, next: State, report: Option<Report>, now: Time): Move {
    if m.state == next && ValidTransition(expected, next) then
      if report.Some? && report.value != m.report then Refused else Already(m)
    else if m.state != expected || !ValidTransition(expected, next) then Refused
    else if report.Some? && !Continues(clean, m, next, report.value) then Refused
    else
      var replaced := Replaced(m, next, report, now);
      if ValidManifest(clean, replaced) then Moved(replaced) else Refused
  }

  function RestartStep(m: Manifest, at: Time): Step {
    Step(StateName(RollingBack), "resuming rollback after restart", RollingBack, at)
  }

  function RestartReport(m: Manifest, now: Time): Report {
    m.report.(state := RollingBack, steps := m.report.steps + [RestartStep(m, Later(now, m.updatedAt))])
  }

  // ----- any sequence of moves -----

  datatype Call =
    | Transition(expected: State, next: State, now: Time)
    | TransitionReport(expected: State, report: Report, now: Time)
    | PrepareRestart(now: Time)

  /** A call may also fail to write, and then changes nothing. */
  datatype Attempt = Attempt(call: Call, written: bool)

  function Outcome(clean: string -> bool, m: Manifest, call: Call): Move {
    match call
    case Transition(expected, next, now) => MoveOf(clean, m, expected, next, None, now)
    case TransitionReport(expected, report, now) => MoveOf(clean, m, expected, report.state, Some(report), now)
    case PrepareRestart(now) =>
      if !RestartDispositionFor(m.state).BeginRollback? then Already(m)
      else MoveOf(clean, m, Applying, RollingBack, Some(RestartReport(m, now)), Later(now, m.updatedAt))
  }

  function After(clean: string -> bool, m: Manifest, a: Attempt): Manifest {
    match Outcome(clean, m, a.call)
    case Moved(next) => if a.written then next else m
    case _ => m
  }

  /** The manifest on disk after each attempt, the first one included. */
  function Persisted(clean: string -> bool, m: Manifest, attempts: seq<Attempt>): (ms: seq<Manifest>)
    ensures |ms| == |attempts| + 1 && ms[0] == m
  {
    if attempts == [] then [m]
    else
      var before := Persisted(clean, m, attempts[..|attempts| - 1]);
      before + [After(clean, before[|attempts| - 1], attempts[|attempts| - 1])]
  }

  /** Nothing of the history is lost between two manifests of an operation. */
  ghost predicate Evolves(a: Manifest, b: Manifest) {
    && a.operationId == b.operationId && a.action == b.action && a.fingerprint == b.fingerprint
    && a.createdAt == b.createdAt && a.entries == b.entries
    && a.report.diagnosticId == b.report.diagnosticId && a.report.source == b.report.source
    && a.report.startedAt == b.report.startedAt && a.report.snapshotReference == b.report.snapshotReference
    && a.report.steps <= b.report.steps && a.updatedAt <= b.updatedAt
  }

  /** A move writes a valid manifest that continues the old one, or nothing; it never repeats itself. */
  lemma MoveEvolves(clean: string -> bool, m: Manifest, call: Call)
    requires ValidManifest(clean, m)
    ensures match Outcome(clean, m, call)
            case Moved(n) => ValidManifest(clean, n) && Evolves(m, n) && ValidTransition(m.state, n.state) && n.state != m.state
            case Already(n) => n == m
            case Refused => true
  {
    match call
    case Transition(expected, next, now) =>
      assert m.report.steps <= m.report.steps + [Step(StateName(next), "", next, now)];
    case TransitionReport(expected, report, now) =>
    case PrepareRestart(now) =>
  }

  lemma {:induction false} PersistedValid(clean: string -> bool, m: Manifest, attempts: seq<Attempt>)
    requires ValidManifest(clean, m)
    ensures forall n | n in Persisted(clean, m, attempts) :: ValidManifest(clean, n)
  {
    if attempts != [] {
      PersistedValid(clean, m, attempts[..|attempts| - 1]);
      var before := Persisted(clean, m, attempts[..|attempts| - 1]);
      assert before[|attempts| - 1] in before;
      MoveEvolves(clean, before[|attempts| - 1], attempts[|attempts| - 1].call);
    }
  }

  lemma PersistedNext(clean: string -> bool, m: Manifest, attempts: seq<Attempt>, i: nat)
    requires ValidManifest(clean, m) && i < |attempts|
    ensures var ms := Persisted(clean, m, attempts); ms[i + 1] == After(clean, ms[i], attempts[i])
    decreases |attempts|
  {
    if i < |attempts| - 1 {
      PersistedNext(clean, m, attempts[..|attempts| - 1], i);
    }
  }

  /** The states on disk trace a path of valid transitions. */
  lemma PersistedTracesPath(clean: string -> bool, m: Manifest, attempts: seq<Attempt>)
    requires ValidManifest(clean, m)
    ensures Path(seq(|attempts| + 1, i requires 0 <= i <= |attempts| => Persisted(clean, m, attempts)[i].state))
  {
    var ms := Persisted(clean, m, attempts);
    PersistedValid(clean, m, attempts);
    forall i | 0 <= i < |attempts| ensures ValidTransition(ms[i].state, ms[i + 1].state) {
      PersistedNext(clean, m, attempts, i);
      assert ms[i] in ms;
      MoveEvolves(clean, ms[i], attempts[i].call);
    }
  }

  /** No update loses history, however calls and failed writes interleave. */
  lemma {:induction false} NoHistoryLost(clean: string -> bool, m: Manifest, attempts: seq<Attempt>, i: nat, j: nat)
    requires ValidManifest(clean, m) && i <= j <= |attempts|
    ensures Evolves(Persisted(clean, m, attempts)[i], Persisted(clean, m, attempts)[j])
    decreases j - i
  {
    var ms := Persisted(clean, m, attempts);
    if i < j {
      NoHistoryLost(clean, m, attempts, i, j - 1);
      PersistedValid(clean, m, attempts);
      PersistedNext(clean, m, attempts, j - 1);
      assert ms[j - 1] in ms;
      MoveEvolves(clean, ms[j - 1], attempts[j - 1].call);
    }
  }

  /** A caller that expected another state changes nothing, unless the manifest already is where it
      wanted to go; and doing the same again is a no-op. */
  lemma StaleAndRepeatedCalls(clean: string -> bool, m: Manifest, expected: State, report: Report, now: Time, again: Time)
    requires ValidManifest(clean, m)
    ensures m.state != expected && m.state != report.state ==> Outcome(clean, m, TransitionReport(expected, report, now)).Refused?
    ensures var first := Outcome(clean, m, TransitionReport(expected, report, now));
            !first.Refused? ==> Outcome(clean, first.m, TransitionReport(expected, report, again)) == Already(first.m)
  {
    MoveEvolves(clean, m, TransitionReport(expected, report, now));
  }

  // ----- the store -----

  function Lookup(manifests: map<string, Manifest>, id: string): Option<Manifest> {
    if id in manifests then Some(manifests[id]) else None
  }

  /** The call moved this operation's manifest as specified, or failed and left it; no other moved. */
  predicate Did(
    clean: string -> bool, before: map<string, Manifest>, after: map<string, Manifest>, id: string, call: Call, result: Option<Manifest>)
  {
    if id !in before then after == before && result.None?
    else match Outcome(clean, before[id], call)
      case Refused => after == before && result.None?
      case Already(m) => after == before && result == Some(m)
      case Moved(m) => (after == before && result.None?) || (after == before[id := m] && result == Some(m))
  }

  class SnapshotStore {
    var manifests: map<string, Manifest>
    const clean: string -> bool

    constructor (manifests: map<string, Manifest>, clean: string -> bool)
      ensures this.manifests == manifests && this.clean == clean
    {
      this.manifests, this.clean := manifests, clean;
    }

    ghost predicate Valid()
      reads this
    {
      forall id | id in manifests :: manifests[id].operationId == id && ValidManifest(clean, manifests[id])
    }

    method Move(operationId: string, expected: State, next: State, report: Option<Report>, now: Time) returns (result: Option<Manifest>)
      requires Valid() && (report.Some? ==> report.value.state == next)
      modifies this`manifests
      ensures Valid()
      ensures Did(clean, old(manifests), manifests, operationId,
                  if report.None? then Transition(expected, next, now) else TransitionReport(expected, report.value, now), result)
    {
      if operationId !in manifests {
        return None;
      }
      var m := manifests[operationId];
      if m.state == next && ValidTransition(expected, next) {
        if report.Some? && report.value != m.report {
          return None;
        }
        return Some(m);
      }
      if m.state != expected || !ValidTransition(expected, next) {
        return None;
      }
      if report.Some? {
        if !Continues(clean, m, next, report.value) {
          return None;
        }
        m := m.(report := report.value);
      } else {
        m := m.(report := m.report.(state := next, steps := m.report.steps + [Step(StateName(next), "", next, now)]));
      }
      m := m.(state := next);
      var transitionAt := now;
      if transitionAt < m.updatedAt {
        transitionAt := m.updatedAt;
      }
      m := m.(updatedAt := transitionAt);
      result := Persist(m);
    }

    /** Writes a manifest if it is valid; the write may fail. */
    method Persist(m: Manifest) returns (result: Option<Manifest>)
      requires Valid() && m.operationId in manifests
      modifies this`manifests
      ensures Valid() && (!ValidManifest(clean, m) ==> result.None?)
      ensures result == Some(m) || result.None?
      ensures manifests == if result.None? then old(manifests) else old(manifests)[m.operationId := m]
    {
      var written := *;
      if !written || !ValidManifest(clean, m) {
        return None;
      }
      manifests := manifests[m.operationId := m];
      return Some(m);
    }

    /** Marks an operation that died while applying as rolling back; any other is left as it is. */
    method PrepareRestart(operationId: string, clock: Time) returns (disposition: Option<Disposition>)
      requires Valid()
      modifies this`manifests
      ensures Valid()
      ensures operationId !in old(manifests) ==> disposition.None? && manifests == old(manifests)
      ensures operationId in old(manifests) && !old(manifests)[operationId].state.Applying? ==>
                manifests == old(manifests) && disposition == Some(RestartDispositionFor(old(manifests)[operationId].state))
      ensures operationId in old(manifests) && old(manifests)[operationId].state.Applying? ==>
                && (disposition == None || disposition == Some(ResumeRollback))
                && Did(clean, old(manifests), manifests, operationId, Call.PrepareRestart(clock),
                       if disposition.None? then None else Lookup(manifests, operationId))
    {
      if operationId !in manifests {
        return None;
      }
      var m := manifests[operationId];
      var found := RestartDispositionFor(m.state);
      if !found.BeginRollback? {
        return Some(found);
      }
      var at := clock;
      if at < m.updatedAt {
        at := m.updatedAt;
      }
      var report := m.report.(state := RollingBack, steps := m.report.steps + [RestartStep(m, at)]);
      if !ValidReport(clean, report) {
        return None;
      }
      var result := Move(operationId, Applying, RollingBack, Some(report), at);
      return if result.None? then None else Some(ResumeRollback);
    }
  }
}
