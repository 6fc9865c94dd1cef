/** The agent's repairs: planning one, carrying it out, undoing it, and resuming after a crash.

    The proxy backend, the clock, the breaker's and the path guard's answers are arbitrary (`*`); each
    call into the backend is noted in `trace`, and `Valid()` says that whatever happened was a legal run
    of the protocol whose durable states are those of the manifests. */
module RecoveryCoordinator {
  import opened RecoveryProtocol
  import opened RecoverySnapshots
  import opened RecoveryState

  datatype Diagnostic = Diagnostic(id: string, action: string, fingerprint: string, eligible: bool)

  datatype Request = Request(operationId: string, diagnosticId: string, action: string, startedAt: Time, initialStep: Step)

  /** What the protocol demands of a request: the planned step the orchestrator stored when it asked. */
  predicate ValidRequest(clean: string -> bool, r: Request) {
    && r.operationId != "" && r.diagnosticId != "" && r.action != "" && r.startedAt != 0
    && r.initialStep.state.Planned? && r.initialStep.at == r.startedAt && r.initialStep.name != ""
    && clean(r.initialStep.name) && clean(r.initialStep.summary)
  }

  ghost predicate TextsClean(clean: string -> bool, sanitize: string -> string) {
    (forall t :: clean(sanitize(t))) && (forall s :: clean(StateName(s))) && clean("") && clean("valid")
  }

  // ----- reports under construction -----

  /** The last step is at or before `t`; in a valid report so are the others. */
  predicate StepsBy(r: Report, t: Time) {
    r.steps != [] ==> r.steps[|r.steps| - 1].at <= t
  }

  lemma {:induction false} LastIsLatest(clean: string -> bool, r: Report, i: nat)
    requires ValidReport(clean, r) && i < |r.steps|
    ensures r.steps[i].at <= r.steps[|r.steps| - 1].at
    decreases |r.steps| - i
  {
    if i < |r.steps| - 1 {
      LastIsLatest(clean, r, i + 1);
      assert ValidStep(clean, r, i + 1);
    }
  }

  /** A valid report that is not finished. */
  ghost predicate Open(clean: string -> bool, r: Report, t: Time) {
    forall n: nat | n == |r.steps| :: OpenWith(clean, r, t, n)
  }

  ghost predicate OpenWith(clean: string -> bool, r: Report, t: Time, n: nat) {
    n == |r.steps| && ValidReport(clean, r) && r.finishedAt == 0 && StepsBy(r, t) && r.startedAt <= t
  }

  lemma OpenMeans(clean: string -> bool, r: Report, t: Time)
    ensures Open(clean, r, t) <==> ValidReport(clean, r) && r.finishedAt == 0 && StepsBy(r, t) && r.startedAt <= t
  {
    assert Open(clean, r, t) ==> OpenWith(clean, r, t, |r.steps|);
  }

  function Stepped(r: Report, state: State, summary: string, at: Time): Report {
    r.(state := state, steps := r.steps + [Step(StateName(state), summary, state, at)])
  }

  lemma SteppedIsOpen(clean: string -> bool, r: Report, state: State, summary: string, t: Time, at: Time)
    requires Open(clean, r, t) && t <= at && at > 0 && clean(summary) && clean(StateName(state))
    ensures Open(clean, Stepped(r, state, summary, at), at) && r.steps <= Stepped(r, state, summary, at).steps
  {
    var n := Stepped(r, state, summary, at);
    OpenMeans(clean, r, t);
    OpenMeans(clean, n, at);
    forall i | 0 <= i < |n.steps| ensures ValidStep(clean, n, i) {
      if i < |r.steps| {
        assert ValidStep(clean, r, i);
      }
    }
  }

  lemma OpenLater(clean: string -> bool, r: Report, t: Time, later: Time)
    requires Open(clean, r, t) && t <= later
    ensures Open(clean, r, later)
  {
    OpenMeans(clean, r, t);
    OpenMeans(clean, r, later);
  }

  lemma ClosedIsValid(clean: string -> bool, r: Report, t: Time, at: Time, valid: string, undone: string, error: string)
    requires Open(clean, r, t) && t <= at && clean(valid) && clean(undone) && clean(error)
    ensures ValidReport(clean, r.(finishedAt := at, validationOutcome := valid, rollbackOutcome := undone, error := error))
  {
    OpenMeans(clean, r, t);
    var n := r.(finishedAt := at, validationOutcome := valid, rollbackOutcome := undone, error := error);
    forall i | 0 <= i < |n.steps| ensures ValidStep(clean, n, i) {
      assert ValidStep(clean, r, i);
      LastIsLatest(clean, r, i);
    }
  }

  /** The stored manifest is not finished and records nothing from the future. */
  ghost predicate Timely(m: Manifest) {
    && 0 < m.updatedAt && StepsBy(m.report, m.updatedAt) && (Finished(m.state) || m.report.finishedAt == 0) && m.report.startedAt <= m.updatedAt
  }

  predicate Finished(state: State) {
    state.Succeeded? || state.RolledBack? || state.RollbackFailed?
  }

  /** The report is the stored one carried on: same operation, nothing of the history lost. */
  ghost predicate CarriesOn(m: Manifest, r: Report) {
    && r.operationId == m.operationId && r.diagnosticId == m.report.diagnosticId && r.action == m.action
    && r.source == m.report.source && r.startedAt == m.report.startedAt
    && r.snapshotReference == m.report.snapshotReference && m.report.steps <= r.steps
  }

  /** Such a report is never refused: only the write itself can fail. */
  lemma CarriedIsAccepted(clean: string -> bool, m: Manifest, expected: State, r: Report, now: Time)
    requires ValidManifest(clean, m) && m.state == expected && expected != r.state && ValidTransition(expected, r.state)
    requires CarriesOn(m, r) && ValidReport(clean, r) && now > 0
    ensures Outcome(clean, m, TransitionReport(expected, r, now)) == Moved(Replaced(m, r.state, Some(r), now))
  {
  }

  /** Nothing but this operation's manifest may differ. */
  ghost predicate OthersSame(before: map<string, Manifest>, after: map<string, Manifest>, op: string) {
    before - {op} == after - {op}
  }

  lemma OnlyThis(manifests: map<string, Manifest>, op: string, m: Manifest)
    ensures OthersSame(manifests, manifests[op := m], op)
  {
    assert forall id | id in manifests - {op} :: id in manifests[op := m] - {op};
  }

  ghost predicate Holds(manifests: map<string, Manifest>, op: string, report: Report) {
    op in manifests && manifests[op].report == report && manifests[op].state == report.state
  }

  /** The report was stored, or nothing changed. */
  ghost predicate Stored(before: map<string, Manifest>, after: map<string, Manifest>, op: string, report: Report, ok: bool) {
    OthersSame(before, after, op) && if ok then Holds(after, op, report) else after == before
  }

  ghost predicate Mirrors(manifests: map<string, Manifest>, states: map<string, State>) {
    && manifests.Keys == states.Keys
    && (forall id | id in manifests :: manifests[id].state == states[id] && Timely(manifests[id]))
  }

  class Coordinator {
    const store: SnapshotStore
    const sanitize: string -> string
    const autoId: (Time, nat) -> string
    var operations: map<string, Report>
    var diagnostics: map<string, Diagnostic>
    var candidates: map<string, string>
    var policy: Option<bool>
    var sequence: nat
    var lastNow: Time
    ghost var trace: Trace
    ghost var system: System

    ghost predicate Valid()
      reads this, store
    {
      && store.Valid() && TextsClean(store.clean, sanitize) && lastNow >= 0
      && Runs(trace, system) && Mirrors(store.manifests, system.manifests)
    }

    ghost function Control(): Control
      reads this
    {
      system.control
    }

    /** A new process over what the earlier ones left on disk. */
    constructor (store: SnapshotStore, sanitize: string -> string, autoId: (Time, nat) -> string, ghost past: Trace)
      requires store.Valid() && TextsClean(store.clean, sanitize)
      requires Legal(past) && Mirrors(store.manifests, Replay(past).manifests)
      ensures Valid() && Control().Idle? && trace == Then(past, Crash) && this.store == store && operations == map[]
    {
      this.store, this.sanitize, this.autoId := store, sanitize, autoId;
      operations, diagnostics, candidates, policy := map[], map[], map[], None;
      sequence, lastNow := 0, 0;
      trace, system := Then(past, Crash), Replay(past).(control := Idle);
      RunsFrom(Then(past, Crash));
    }

    /** A repair or resumption of `op` is at `c`, and `report` is what the manifest holds. */
    ghost predicate At(c: Control, report: Report)
      requires Valid()
      reads this, store
    {
      && Control() == c && !c.Idle? && c.op in store.manifests
      && store.manifests[c.op].report == report && Open(store.clean, report, lastNow) && lastNow > 0
    }

    /** Appends one event to the run. */
    ghost method Note(e: Event)
      requires Runs(trace, system) && Enabled(system, e)
      modifies this`trace, this`system
      ensures trace == Then(old(trace), e) && system == Apply(old(system), e) && Runs(trace, system)
    {
      RunsThen(trace, system, e);
      trace, system := Then(trace, e), Apply(system, e);
    }

    /** Time never runs backwards, whatever the clock says. */
    method Now() returns (now: Time)
      modifies this`lastNow
      ensures now == lastNow && lastNow >= old(lastNow) && lastNow > 0
    {
      var reading: Time :| reading > 0;
      if reading < lastNow {
        return lastNow;
      }
      lastNow := reading;
      return reading;
    }

    method AddStep(report: Report, state: State, summary: string) returns (stepped: Report)
      requires Valid() && Open(store.clean, report, lastNow)
      modifies this`lastNow
      ensures Valid() && lastNow >= old(lastNow) && lastNow > 0
      ensures stepped == Stepped(report, state, sanitize(summary), lastNow)
      ensures Open(store.clean, stepped, lastNow) && report.steps <= stepped.steps
    {
      var now := Now();
      stepped := Stepped(report, state, sanitize(summary), now);
      SteppedIsOpen(store.clean, report, state, sanitize(summary), old(lastNow), now);
    }

    /** Writes the move that is due; only the write itself can fail. */
    method TransitionReport(op: string, expected: State, report: Report) returns (ok: bool)
      requires Valid() && Writes(Control()) && Control().op == op && Due(Control()) == (expected, report.state)
      requires op in store.manifests && Continued(store.manifests[op].report, report)
      requires ValidReport(store.clean, report) && StepsBy(report, lastNow) && report.startedAt <= lastNow
      requires Finished(report.state) || report.finishedAt == 0
      modifies this`lastNow, this`trace, this`system, store`manifests
      ensures Valid() && lastNow >= old(lastNow) && lastNow > 0
      ensures Control() == AfterWrite(old(Control()), ok) && Extends(trace, old(trace))
      ensures Stored(old(store.manifests), store.manifests, op, report, ok)
    {
      DueIsOnDisk(trace, system);
      var now := Now();
      ghost var before := store.manifests[op];
      CarriesFrom(store.clean, before, report);
      CarriedIsAccepted(store.clean, before, expected, report, now);
      WriteMirrors(system, store.manifests, op, report, now);
      OnlyThis(store.manifests, op, Replaced(before, report.state, Some(report), now));
      var result := store.Move(op, expected, report.state, Some(report), now);
      ok := result.Some?;
      Note(Write(ok));
    }

    // ----- the backend -----

    method ExecuteRecovery(op: string) returns (ok: bool)
      requires Valid() && Control() == Mutating(op)
      modifies this`trace, this`system
      ensures Valid() && Extends(trace, old(trace))
      ensures Control() == if ok then Mutated(op) else GivingUp(op, Applying)
    {
      ok := *;
      Note(Execute(ok));
    }

    method ValidateProxy(op: string) returns (ok: bool)
      requires Valid() && (Control() == Proving(op) || Control() == Rewound(op))
      modifies this`trace, this`system
      ensures Valid() && Extends(trace, old(trace))
      ensures old(Control()) == Proving(op) ==> Control() == if ok then Proven(op) else GivingUp(op, Validating)
      ensures old(Control()) == Rewound(op) ==> Control() == if ok then Rechecked(op) else Settling(op, RollbackFailed)
    {
      ok := *;
      Note(Validate(ok));
    }

    method ActivateValidated(op: string) returns (ok: bool)
      requires Valid() && (Control() == Proven(op) || Control() == Rechecked(op))
      modifies this`trace, this`system
      ensures Valid() && Extends(trace, old(trace))
      ensures old(Control()) == Proven(op) ==> Control() == if ok then Activated(op) else GivingUp(op, Validating)
      ensures old(Control()) == Rechecked(op) ==> Control() == Settling(op, if ok then RolledBack else RollbackFailed)
    {
      ok := *;
      Note(Reload(ok));
    }

    method RestoreSnapshot(op: string) returns (ok: bool)
      requires Valid() && Control() == Rewinding(op)
      modifies this`trace, this`system
      ensures Valid() && Extends(trace, old(trace))
      ensures Control() == if ok then Rewound(op) else Settling(op, RollbackFailed)
    {
      ok := *;
      Note(Restore(ok));
    }

    // ----- undoing -----

    /** Restores, validates and reloads, as far as each succeeds. */
    method Rewind(op: string) returns (ok: bool)
      requires Valid() && Control() == Rewinding(op)
      modifies this`trace, this`system
      ensures Valid() && Extends(trace, old(trace))
      ensures Control() == Settling(op, if ok then RolledBack else RollbackFailed)
    {
      ok := RestoreSnapshot(op);
      if ok {
        ghost var mid := trace;
        ok := ValidateProxy(op);
        ExtendsTransitive(trace, mid, old(trace));
      }
      if ok {
        ghost var mid := trace;
        ok := ActivateValidated(op);
        ExtendsTransitive(trace, mid, old(trace));
      }
    }

    /** The last step of a report, with its outcome texts. */
    method Finish(report: Report, state: State, summary: string, valid: string, undone: string, error: string) returns (done: Report)
      requires Valid() && Open(store.clean, report, lastNow)
      requires store.clean(valid) && store.clean(undone) && store.clean(error)
      modifies this`lastNow
      ensures Valid() && lastNow >= old(lastNow) && lastNow > 0
      ensures done.state == state && Continued(report, done)
      ensures ValidReport(store.clean, done) && StepsBy(done, lastNow) && done.startedAt <= lastNow
    {
      var stepped := AddStep(report, state, summary);
      ghost var soon := lastNow;
      var at := Now();
      ClosedIsValid(store.clean, stepped, soon, at, valid, undone, error);
      done := stepped.(finishedAt := at, validationOutcome := valid, rollbackOutcome := undone, error := error);
    }

    method Remember(op: string, report: Report)
      requires Valid()
      modifies this`operations
      ensures Valid() && operations == old(operations)[op := report]
    {
      operations := operations[op := report];
    }

    /** Writes the outcome that is due, and remembers it if the write went through. */
    method Close(op: string, report: Report, expected: State, state: State, summary: string, valid: string, undone: string, error: string)
      returns (done: Report, persisted: bool)
      requires Valid() && At(Control(), report) && Control().op == op && Writes(Control())
      requires Due(Control()) == (expected, state) && Finished(state)
      requires store.clean(valid) && store.clean(undone) && store.clean(error)
      modifies this`lastNow, this`trace, this`system, this`operations, store`manifests
      ensures Valid() && Control().Idle? && Extends(trace, old(trace)) && done.state == state
      ensures Stored(old(store.manifests), store.manifests, op, done, persisted)
      ensures operations == if persisted then old(operations)[op := done] else old(operations)
    {
      done := Finish(report, state, summary, valid, undone, error);
      persisted := TransitionReport(op, expected, done);
      if persisted {
        Remember(op, done);
      }
    }

    /** Undoes an operation whose rolling_back is durable and writes how that went. */
    method Undo(op: string, rolling: Report, error: string) returns (done: Report, undone: bool, persisted: bool)
      requires Valid() && At(Rewinding(op), rolling) && store.clean(error)
      modifies this`lastNow, this`trace, this`system, this`operations, store`manifests
      ensures Valid() && Control().Idle? && Extends(trace, old(trace))
      ensures Stored(old(store.manifests), store.manifests, op, done, persisted)
      ensures done.state == if undone then RolledBack else RollbackFailed
      ensures operations == if persisted then old(operations)[op := done] else old(operations)
    {
      undone := Rewind(op);
      ghost var mid := trace;
      var outcome := sanitize(if undone then "restored and valid" else "rollback failed");
      done, persisted := Close(op, rolling, RollingBack, if undone then RolledBack else RollbackFailed, outcome, rolling.validationOutcome, outcome, error);
      ExtendsTransitive(trace, mid, old(trace));
    }

    /** Adds the step that is due and writes it. */
    method Advance(op: string, report: Report, from: State, to: State, summary: string) returns (next: Report, moved: bool)
      requires Valid() && At(Control(), report) && Control().op == op && Writes(Control())
      requires Due(Control()) == (from, to) && !Finished(to)
      modifies this`lastNow, this`trace, this`system, store`manifests
      ensures Valid() && Extends(trace, old(trace)) && lastNow >= old(lastNow) && lastNow > 0
      ensures Open(store.clean, next, lastNow) && Open(store.clean, report, lastNow)
      ensures Control() == AfterWrite(old(Control()), moved)
      ensures Stored(old(store.manifests), store.manifests, op, next, moved) && next.state == to
      ensures op in old(store.manifests) && old(store.manifests)[op].state == from
    {
      DueIsOnDisk(trace, system);
      next := AddStep(report, to, summary);
      OpenMeans(store.clean, next, lastNow);
      OpenLater(store.clean, report, old(lastNow), lastNow);
      ghost var soon := lastNow;
      moved := TransitionReport(op, from, next);
      OpenLater(store.clean, next, soon, lastNow);
      OpenLater(store.clean, report, soon, lastNow);
    }

    /** Marks the operation rolling back and undoes it. If even the mark cannot be written, the manifest
        stays where it was and the next process finds it there. */
    method RollBack(op: string, report: Report, from: State, cause: string) returns (done: Report, persisted: bool)
      requires Valid() && At(GivingUp(op, from), report)
      modifies this`lastNow, this`trace, this`system, this`operations, store`manifests
      ensures Valid() && Control().Idle? && Extends(trace, old(trace))
      ensures OthersSame(old(store.manifests), store.manifests, op)
      ensures done.state.RolledBack? || done.state.RollbackFailed?
      ensures persisted ==> Holds(store.manifests, op, done)
      ensures operations == if persisted then old(operations)[op := done] else old(operations)
    {
      DueIsOnDisk(trace, system);
      var rolling, moved := Advance(op, report, from, RollingBack, "restoring captured state");
      ghost var mid := trace;
      done, persisted := Conclude(op, from, rolling, moved, sanitize(cause));
      ExtendsTransitive(trace, mid, old(trace));
    }

    /** What follows an attempt to mark the operation rolling back. */
    method Conclude(op: string, from: State, rolling: Report, marked: bool, error: string) returns (done: Report, persisted: bool)
      requires Valid() && store.clean(error) && !from.RollingBack? && !from.RollbackFailed?
      requires if marked then At(Rewinding(op), rolling)
               else Control().Idle? && op in store.manifests && store.manifests[op].state == from && Open(store.clean, rolling, lastNow)
      modifies this`lastNow, this`trace, this`system, this`operations, store`manifests
      ensures Valid() && Control().Idle? && Extends(trace, old(trace))
      ensures OthersSame(old(store.manifests), store.manifests, op)
      ensures done.state.RolledBack? || done.state.RollbackFailed?
      ensures persisted ==> marked && Holds(store.manifests, op, done)
      ensures operations == if persisted then old(operations)[op := done] else old(operations)
    {
      if marked {
        done, persisted := UndoMarked(op, rolling, error);
      } else {
        done := GiveUp(op, from, rolling, error);
        persisted := false;
      }
    }

    /** The mark is written: undoes the operation and writes the outcome. */
    method UndoMarked(op: string, rolling: Report, error: string) returns (done: Report, persisted: bool)
      requires Valid() && At(Rewinding(op), rolling) && store.clean(error)
      modifies this`lastNow, this`trace, this`system, this`operations, store`manifests
      ensures Valid() && Control().Idle? && Extends(trace, old(trace))
      ensures OthersSame(old(store.manifests), store.manifests, op)
      ensures done.state.RolledBack? || done.state.RollbackFailed?
      ensures persisted ==> Holds(store.manifests, op, done)
      ensures !persisted ==> store.manifests == old(store.manifests)
      ensures operations == if persisted then old(operations)[op := done] else old(operations)
    {
      var undone;
      done, undone, persisted := Undo(op, rolling, error);
    }

    method GiveUp(op: string, from: State, rolling: Report, error: string) returns (done: Report)
      requires Valid() && op in store.manifests && store.manifests[op].state == from && !from.RollingBack? && !from.RollbackFailed?
      requires Open(store.clean, rolling, lastNow) && store.clean(error)
      modifies this`lastNow, store`manifests
      ensures Valid() && store.manifests == old(store.manifests) && Control() == old(Control())
      ensures done.state.RollbackFailed?
    {
      OpenMeans(store.clean, rolling, lastNow);
      var why := sanitize("rolling back could not be recorded");
      done := Finish(rolling, RollbackFailed, why, rolling.validationOutcome, why, error);
      RefusedAsStale(op, from, done);
    }

    /** The outcome is offered all the same, but the store refuses it: the manifest never became
        rolling_back. */
    method RefusedAsStale(op: string, from: State, done: Report)
      requires Valid() && op in store.manifests && store.manifests[op].state == from && done.state.RollbackFailed?
      requires !from.RollingBack? && !from.RollbackFailed?
      modifies this`lastNow, store`manifests
      ensures Valid() && store.manifests == old(store.manifests) && lastNow >= old(lastNow)
      ensures trace == old(trace) && Control() == old(Control())
    {
      var now := Now();
      var refused := store.Move(op, RollingBack, RollbackFailed, Some(done), now);
    }

    // ----- carrying out a repair -----

    /** Captures the prior state and stores the first manifest; an operation that already has one, or a
        capture that fails, creates nothing. */
    method CreateManifest(op: string, report: Report, fingerprint: string) returns (ok: bool)
      requires Valid() && Control().Idle? && report.operationId == op && report.state.Snapshotted?
      requires Open(store.clean, report, lastNow)
      modifies this`lastNow, this`trace, this`system, store`manifests
      ensures Valid() && Extends(trace, old(trace)) && lastNow >= old(lastNow)
      ensures ok ==> At(Prepared(op), report) && op !in old(store.manifests) && OthersSame(old(store.manifests), store.manifests, op)
      ensures !ok ==> Control().Idle? && store.manifests == old(store.manifests)
    {
      OpenMeans(store.clean, report, lastNow);
      var now := Now();
      OpenLater(store.clean, report, old(lastNow), lastNow);
      var captured: bool, entries: string := *, *;
      ok := captured && op !in store.manifests;
      CreateMirrors(system, store.manifests, op, Manifest(op, report.action, fingerprint, now, now, Snapshotted, report, entries));
      OnlyThis(store.manifests, op, Manifest(op, report.action, fingerprint, now, now, Snapshotted, report, entries));
      if ok {
        store.manifests := store.manifests[op := Manifest(op, report.action, fingerprint, now, now, Snapshotted, report, entries)];
      }
      Note(Create(op, ok));
    }

    /** From the durable snapshot to a durable outcome. */
    method CarryOut(op: string, report: Report, diagnosticId: string) returns (done: Report, failed: bool, persisted: bool)
      requires Valid() && At(Prepared(op), report)
      modifies this`lastNow, this`trace, this`system, this`operations, this`diagnostics, this`candidates, store`manifests
      ensures Valid() && Control().Idle? && Extends(trace, old(trace))
      ensures OthersSame(old(store.manifests), store.manifests, op) && Finished(done.state)
      ensures persisted ==> Holds(store.manifests, op, done)
      ensures operations == if persisted then old(operations)[op := done] else old(operations)
      ensures !failed ==> persisted && done.state.Succeeded?
    {
      var applying, ok := Advance(op, report, Snapshotted, Applying, "typed recovery action started");
      ghost var mid := trace;
      if !ok {
        done, persisted := RollBack(op, report, Snapshotted, "applying could not be recorded");
        failed := true;
      } else {
        done, failed, persisted := Mutate(op, applying, diagnosticId);
      }
      ExtendsTransitive(trace, mid, old(trace));
    }

    /** Calls the mutation, once, and goes on to prove it. */
    method Mutate(op: string, applying: Report, diagnosticId: string) returns (done: Report, failed: bool, persisted: bool)
      requires Valid() && At(Mutating(op), applying)
      modifies this`lastNow, this`trace, this`system, this`operations, this`diagnostics, this`candidates, store`manifests
      ensures Valid() && Control().Idle? && Extends(trace, old(trace))
      ensures OthersSame(old(store.manifests), store.manifests, op) && Finished(done.state)
      ensures persisted ==> Holds(store.manifests, op, done)
      ensures operations == if persisted then old(operations)[op := done] else old(operations)
      ensures !failed ==> persisted && done.state.Succeeded?
    {
      var ok := ExecuteRecovery(op);
      ghost var first := trace;
      if !ok {
        done, persisted := RollBack(op, applying, Applying, "the mutation failed");
        failed := true;
      } else {
        done, failed, persisted := Prove(op, applying, diagnosticId);
      }
      ExtendsTransitive(trace, first, old(trace));
    }

    /** Marks the mutated state validating, validates and activates it. */
    method Prove(op: string, applying: Report, diagnosticId: string) returns (done: Report, failed: bool, persisted: bool)
      requires Valid() && At(Mutated(op), applying)
      modifies this`lastNow, this`trace, this`system, this`operations, this`diagnostics, this`candidates, store`manifests
      ensures Valid() && Control().Idle? && Extends(trace, old(trace))
      ensures OthersSame(old(store.manifests), store.manifests, op) && Finished(done.state)
      ensures persisted ==> Holds(store.manifests, op, done)
      ensures operations == if persisted then old(operations)[op := done] else old(operations)
      ensures !failed ==> persisted && done.state.Succeeded?
    {
      var validating, ok := Advance(op, applying, Applying, Validating, "full proxy validation started");
      ghost var mid := trace;
      if !ok {
        done, persisted := RollBack(op, applying, Applying, "validating could not be recorded");
        failed := true;
      } else {
        done, failed, persisted := Confirm(op, validating, diagnosticId);
      }
      ExtendsTransitive(trace, mid, old(trace));
    }

    /** Validates and reloads; the outcome is written either way. */
    method Confirm(op: string, validating: Report, diagnosticId: string) returns (done: Report, failed: bool, persisted: bool)
      requires Valid() && At(Proving(op), validating)
      modifies this`lastNow, this`trace, this`system, this`operations, this`diagnostics, this`candidates, store`manifests
      ensures Valid() && Control().Idle? && Extends(trace, old(trace))
      ensures OthersSame(old(store.manifests), store.manifests, op) && Finished(done.state)
      ensures persisted ==> Holds(store.manifests, op, done)
      ensures operations == if persisted then old(operations)[op := done] else old(operations)
      ensures !failed ==> persisted && done.state.Succeeded?
    {
      var proven := ValidateAndActivate(op);
      ghost var mid := trace;
      if !proven {
        done, persisted := RollBack(op, validating, Validating, "validation or reload failed");
        failed := true;
      } else {
        done, persisted := Close(op, validating, Validating, Succeeded, "repair validated and activated", "valid", "", "");
        failed := !persisted;
        if persisted {
          Forget(diagnosticId);
        }
      }
      ExtendsTransitive(trace, mid, old(trace));
    }

    /** A repaired diagnostic is no longer active. */
    method Forget(diagnosticId: string)
      requires Valid()
      modifies this`diagnostics, this`candidates
      ensures Valid() && diagnostics == old(diagnostics) - {diagnosticId} && candidates == old(candidates) - {diagnosticId}
    {
      diagnostics, candidates := diagnostics - {diagnosticId}, candidates - {diagnosticId};
    }

    method ValidateAndActivate(op: string) returns (ok: bool)
      requires Valid() && Control() == Proving(op)
      modifies this`trace, this`system
      ensures Valid() && Extends(trace, old(trace))
      ensures Control() == if ok then Activated(op) else GivingUp(op, Validating)
    {
      ok := ValidateProxy(op);
      if ok {
        ghost var mid := trace;
        ok := ActivateValidated(op);
        ExtendsTransitive(trace, mid, old(trace));
      }
    }

    // ----- planning a repair -----

    /** Ends a repair that changed nothing. */
    method Decline(op: string, report: Report, state: State, why: string) returns (done: Report)
      requires Valid() && Control().Idle? && Open(store.clean, report, lastNow)
      modifies this`lastNow, this`operations
      ensures Valid() && Control().Idle? && lastNow >= old(lastNow)
      ensures done.state == state && Continued(report, done) && ValidReport(store.clean, done)
      ensures operations == old(operations)[op := done]
    {
      OpenMeans(store.clean, report, lastNow);
      var error := sanitize(why);
      done := Finish(report, state, why, report.validationOutcome, report.rollbackOutcome, error);
      operations := operations[op := done];
    }

    /** The report a repair starts from: a detected condition, or the planned step of a request. */
    method StartReport(op: string, d: Diagnostic, request: Option<Request>, now: Time) returns (report: Report)
      requires Valid() && op != "" && d.id != "" && d.action != "" && now == lastNow > 0
      requires request.Some? ==> ValidRequest(store.clean, request.value)
      modifies this`lastNow
      ensures Valid() && lastNow >= old(lastNow) && Open(store.clean, report, lastNow)
      ensures report.operationId == op && report.diagnosticId == d.id && report.action == d.action
      ensures report.source == if request.Some? then User else Automatic
      ensures report.steps != [] && (request.Some? ==> report.startedAt == request.value.startedAt && report.steps == [request.value.initialStep])
    {
      report := Report(op, d.id, d.action, if request.Some? then User else Automatic, Detected, [], "", "", "", "", now, 0);
      if request.None? {
        report := AddStep(report, Detected, "recovery condition detected");
      } else {
        if lastNow < request.value.startedAt {
          lastNow := request.value.startedAt;
        }
        report := report.(startedAt := request.value.startedAt, state := Planned, steps := [request.value.initialStep]);
      }
    }

    /** One repair, from the decision to its outcome. Nothing is written unless the diagnostic is
        eligible, the policy and the breaker allow it, and the prior state is captured first. */
    method Repair(d: Diagnostic, request: Option<Request>) returns (op: string, report: Report, failed: bool, persisted: bool)
      requires Valid() && Control().Idle? && d.id != "" && d.action != ""
      requires request.Some? ==> ValidRequest(store.clean, request.value)
      modifies this`lastNow, this`trace, this`system, this`operations, this`diagnostics, this`candidates, this`sequence, store`manifests
      ensures Valid() && Control().Idle? && Extends(trace, old(trace))
      ensures OthersSame(old(store.manifests), store.manifests, op)
      ensures !d.eligible || (request.None? && policy != Some(true)) ==> store.manifests == old(store.manifests)
      ensures persisted ==> Holds(store.manifests, op, report)
      ensures !failed && report.state.Succeeded? ==> persisted
    {
      persisted, op := false, "";
      report := Report("", d.id, d.action, Automatic, Detected, [], "", "", "", "", 0, 0);
      if d.id !in candidates || candidates[d.id] != d.action {
        return op, report, true, false;
      }
      var now := Now();
      op := OperationId(request, now);
      if op == "" {
        return op, report, true, false;
      }
      report := StartReport(op, d, request, now);
      var queued: bool := *;
      if !queued {
        return op, report, true, false;
      }
      var state, why := Hindrance(d, request.None?);
      if why != "" {
        report := Decline(op, report, state, why);
        return op, report, false, false;
      }
      report, failed, persisted := CaptureAndCarryOut(op, d, report);
    }

    /** What stands in the way of a repair, if anything: the diagnostic, the policy or the circuit breaker. */
    method Hindrance(d: Diagnostic, automatic: bool) returns (state: State, why: string)
      ensures !d.eligible || (automatic && policy != Some(true)) ==> why != "" && state.DiagnosisOnly?
      ensures why != "" ==> state.DiagnosisOnly? || state.Suppressed?
    {
      if !d.eligible {
        return DiagnosisOnly, "diagnostic is not eligible for safe repair";
      }
      if automatic && policy != Some(true) {
        return DiagnosisOnly, "automatic repair policy is disabled or unavailable";
      }
      var allowed: bool := *;
      if !allowed {
        return Suppressed, "circuit breaker";
      }
      return Planned, "";
    }

    /** The request's operation id; an automatic repair makes its own from the time and a counter. */
    method OperationId(request: Option<Request>, now: Time) returns (op: string)
      requires Valid() && (request.Some? ==> ValidRequest(store.clean, request.value))
      modifies this`sequence
      ensures Valid() && sequence == old(sequence) + if request.None? then 1 else 0
      ensures op == if request.Some? then request.value.operationId else autoId(now, sequence)
    {
      if request.Some? {
        return request.value.operationId;
      }
      sequence := sequence + 1;
      op := autoId(now, sequence);
    }

    /** Resolves the paths, captures them and makes the first manifest durable. */
    method Capture(op: string, d: Diagnostic, detected: Report) returns (snapshotted: Report, created: bool)
      requires Valid() && Control().Idle? && Open(store.clean, detected, lastNow) && detected.operationId == op
      modifies this`lastNow, this`trace, this`system, store`manifests
      ensures Valid() && Extends(trace, old(trace)) && lastNow >= old(lastNow)
      ensures created ==> At(Prepared(op), snapshotted) && op !in old(store.manifests) && OthersSame(old(store.manifests), store.manifests, op)
      ensures !created ==> Control().Idle? && store.manifests == old(store.manifests)
    {
      snapshotted := detected;
      if detected.source.Automatic? {
        snapshotted := AddStep(detected, Planned, "safe typed repair planned");
      }
      var guarded: bool := *;
      if !guarded || !store.clean(op) {
        return snapshotted, false;
      }
      ReferenceKept(store.clean, snapshotted, op, lastNow);
      snapshotted := AddStep(snapshotted.(snapshotReference := op), Snapshotted, "prior filesystem state captured");
      created := CreateManifest(op, snapshotted, d.fingerprint);
    }

    method CaptureAndCarryOut(op: string, d: Diagnostic, detected: Report) returns (report: Report, failed: bool, persisted: bool)
      requires Valid() && Control().Idle? && Open(store.clean, detected, lastNow) && detected.operationId == op
      modifies this`lastNow, this`trace, this`system, this`operations, this`diagnostics, this`candidates, store`manifests
      ensures Valid() && Control().Idle? && Extends(trace, old(trace))
      ensures OthersSame(old(store.manifests), store.manifests, op)
      ensures persisted ==> Holds(store.manifests, op, report)
      ensures !failed ==> persisted && report.state.Succeeded?
    {
      var snapshotted, created := Capture(op, d, detected);
      if !created {
        OpenLater(store.clean, detected, old(lastNow), lastNow);
        report := Decline(op, detected, DiagnosisOnly, "the prior state could not be captured");
        return report, true, false;
      }
      ghost var mid := trace;
      report, failed, persisted := CarryOut(op, snapshotted, d.id);
      ExtendsTransitive(trace, mid, old(trace));
    }

    // ----- requests -----

    method AutoRepair(d: Diagnostic) returns (op: string, report: Report, failed: bool, persisted: bool)
      requires Valid() && Control().Idle? && d.id != "" && d.action != ""
      modifies this`lastNow, this`trace, this`system, this`operations, this`diagnostics, this`candidates, this`sequence, store`manifests
      ensures Valid() && Control().Idle? && Extends(trace, old(trace))
      ensures !d.eligible || policy != Some(true) ==> store.manifests == old(store.manifests)
      ensures persisted ==> Holds(store.manifests, op, report)
      ensures !failed && report.state.Succeeded? ==> persisted
    {
      op, report, failed, persisted := Repair(d, None);
    }

    /** A request is carried out once: the same one again gets the stored report, and its operation id
        is refused to any other. */
    method HandleRequest(request: Request) returns (answer: Option<Report>)
      requires Valid() && Control().Idle? && forall id | id in diagnostics :: diagnostics[id].id == id
      modifies this`lastNow, this`trace, this`system, this`operations, this`diagnostics, this`candidates, this`sequence, store`manifests
      ensures Valid() && Control().Idle? && Extends(trace, old(trace))
      ensures !ValidRequest(store.clean, request) ==> answer.None? && trace == old(trace) && store.manifests == old(store.manifests)
      ensures ValidRequest(store.clean, request) && request.operationId in old(operations) ==>
                && trace == old(trace) && store.manifests == old(store.manifests) && operations == old(operations)
                && answer == if Asked(old(operations)[request.operationId], request) then Some(old(operations)[request.operationId]) else None
    {
      if !ValidRequest(store.clean, request) {
        return None;
      }
      if request.operationId in operations {
        return if Asked(operations[request.operationId], request) then Some(operations[request.operationId]) else None;
      }
      if request.diagnosticId !in diagnostics || diagnostics[request.diagnosticId].action != request.action {
        return None;
      }
      var op, report, failed, persisted := Repair(diagnostics[request.diagnosticId], Some(request));
      return Some(report);
    }

    // ----- resuming after a crash -----

    /** Resumes an operation the last process left behind: validates or undoes it, and never mutates. */
    method Recover(op: string) returns (report: Option<Report>, failed: bool)
      requires Valid() && Control().Idle?
      modifies this`lastNow, this`trace, this`system, this`operations, store`manifests
      ensures Valid() && Control().Idle? && Extends(trace, old(trace))
      ensures OthersSame(old(store.manifests), store.manifests, op)
      ensures op !in old(store.manifests) ==> report.None? && store.manifests == old(store.manifests)
      ensures op in old(store.manifests) && RestartDispositionFor(old(store.manifests)[op].state).NoRestart? ==>
                && store.manifests == old(store.manifests) && trace == old(trace) && report == Some(old(store.manifests)[op].report)
                && (failed <==> !old(store.manifests)[op].state.RollbackFailed?)
      ensures op in old(store.manifests) && !RestartDispositionFor(old(store.manifests)[op].state).NoRestart? && !failed ==>
                && report.Some? && Holds(store.manifests, op, report.value)
                && report.value.state == if old(store.manifests)[op].state.Validating? then Succeeded else RolledBack
    {
      if op !in store.manifests {
        return None, true;
      }
      var m := store.manifests[op];
      CatchUp(m.updatedAt);
      var disposition := RestartDispositionFor(m.state);
      if disposition.NoRestart? {
        if m.state.RollbackFailed? {
          Remember(op, m.report);
        }
        return Some(m.report), !m.state.RollbackFailed?;
      }
      var done;
      done, failed := ResumeBy(op, m, disposition);
      report := Some(done);
    }

    /** The clock never falls behind what is on disk. */
    method CatchUp(at: Time)
      requires Valid()
      modifies this`lastNow
      ensures Valid() && lastNow == Later(old(lastNow), at)
    {
      if lastNow < at {
        lastNow := at;
      }
    }

    /** Each disposition has its own way to an outcome. */
    method ResumeBy(op: string, m: Manifest, disposition: Disposition) returns (done: Report, failed: bool)
      requires Valid() && Control().Idle? && op in store.manifests && store.manifests[op] == m && m.updatedAt <= lastNow
      requires disposition == RestartDispositionFor(m.state) && !disposition.NoRestart?
      modifies this`lastNow, this`trace, this`system, this`operations, store`manifests
      ensures Valid() && Control().Idle? && Extends(trace, old(trace))
      ensures OthersSame(old(store.manifests), store.manifests, op)
      ensures !failed ==> Holds(store.manifests, op, done) && done.state == if m.state.Validating? then Succeeded else RolledBack
    {
      Resume(op, m);
      ghost var mid := trace;
      match disposition {
        case BeginRollback => done, failed := ResumeApplying(op, m.report);
        case ResumeValidation => done, failed := ResumeValidating(op, m.report);
        case ResumeRollback => done, failed := UndoLoaded(op, m.report);
      }
      ExtendsTransitive(trace, mid, old(trace));
    }

    ghost method Resume(op: string, m: Manifest)
      requires Valid() && Control().Idle? && op in store.manifests && store.manifests[op] == m
      requires m.updatedAt <= lastNow && !RestartDispositionFor(m.state).NoRestart?
      modifies this`trace, this`system
      ensures Valid() && Extends(trace, old(trace)) && At(Resumed(op, m.state), m.report)
    {
      Note(Event.Resume(op));
    }

    /** Validates what the last process had applied; if that fails, undoes it. */
    method ResumeValidating(op: string, report: Report) returns (done: Report, failed: bool)
      requires Valid() && At(Proving(op), report)
      modifies this`lastNow, this`trace, this`system, this`operations, store`manifests
      ensures Valid() && Control().Idle? && Extends(trace, old(trace))
      ensures OthersSame(old(store.manifests), store.manifests, op)
      ensures !failed ==> Holds(store.manifests, op, done) && done.state.Succeeded?
    {
      var proven := ValidateAndActivate(op);
      ghost var mid := trace;
      var persisted;
      if proven {
        done, persisted := Close(op, report, Validating, Succeeded, "post-crash validation succeeded", "valid", report.rollbackOutcome, report.error);
        failed := !persisted;
      } else {
        done := ResumeByUndoing(op, report);
        failed := true;
      }
      ExtendsTransitive(trace, mid, old(trace));
    }

    method ResumeByUndoing(op: string, report: Report) returns (done: Report)
      requires Valid() && At(GivingUp(op, Validating), report)
      modifies this`lastNow, this`trace, this`system, this`operations, store`manifests
      ensures Valid() && Control().Idle? && Extends(trace, old(trace))
      ensures OthersSame(old(store.manifests), store.manifests, op)
      ensures Undoing(done.state) && (done.state.RollingBack? ==> store.manifests == old(store.manifests))
    {
      var moved;
      done, moved := Advance(op, report, Validating, RollingBack, "resuming rollback after restart");
      if moved {
        ghost var mid := trace;
        var persisted;
        done, persisted := UndoMarked(op, done, done.error);
        ExtendsTransitive(trace, mid, old(trace));
      }
    }

    method PrepareRestart(op: string, clock: Time) returns (moved: bool)
      requires store.Valid() && op in store.manifests && store.manifests[op].state.Applying?
      modifies store`manifests
      ensures store.Valid()
      ensures store.manifests == if !moved then old(store.manifests) else
                var m := old(store.manifests)[op];
                old(store.manifests)[op := Replaced(m, RollingBack, Some(RestartReport(m, clock)), Later(clock, m.updatedAt))]
    {
      var disposition := store.PrepareRestart(op, clock);
      moved := disposition.Some?;
    }

    method WriteRestart(op: string) returns (moved: bool)
      requires Valid() && Control() == GivingUp(op, Applying) && op in store.manifests
      modifies this`trace, this`system, store`manifests
      ensures Valid() && Extends(trace, old(trace)) && Control() == if moved then Rewinding(op) else Idle
      ensures OthersSame(old(store.manifests), store.manifests, op) && (!moved ==> store.manifests == old(store.manifests))
      ensures op in store.manifests && (moved ==> store.manifests[op].report.finishedAt == 0)
    {
      DueIsOnDisk(trace, system);
      var m := store.manifests[op];
      var clock: Time :| clock > 0;
      WriteMirrors(system, store.manifests, op, RestartReport(m, clock), Later(clock, m.updatedAt));
      OnlyThis(store.manifests, op, Replaced(m, RollingBack, Some(RestartReport(m, clock)), Later(clock, m.updatedAt)));
      moved := PrepareRestart(op, clock);
      Note(Write(moved));
    }

    /** Marks an operation that died while applying; its manifest then says rolling back. */
    method MarkRestarted(op: string, ghost report: Report) returns (rolling: Report, moved: bool)
      requires Valid() && At(GivingUp(op, Applying), report)
      modifies this`lastNow, this`trace, this`system, store`manifests
      ensures Valid() && Extends(trace, old(trace)) && OthersSame(old(store.manifests), store.manifests, op)
      ensures moved ==> At(Rewinding(op), rolling)
      ensures !moved ==> Control().Idle? && store.manifests == old(store.manifests)
    {
      rolling := store.manifests[op].report;
      moved := WriteRestart(op);
      if moved {
        rolling := store.manifests[op].report;
        if lastNow < store.manifests[op].updatedAt {
          lastNow := store.manifests[op].updatedAt;
        }
      }
    }

    /** The mutation may be half done: it is undone, not repeated. */
    method ResumeApplying(op: string, report: Report) returns (done: Report, failed: bool)
      requires Valid() && At(GivingUp(op, Applying), report)
      modifies this`lastNow, this`trace, this`system, this`operations, store`manifests
      ensures Valid() && Control().Idle? && Extends(trace, old(trace))
      ensures OthersSame(old(store.manifests), store.manifests, op)
      ensures !failed ==> Holds(store.manifests, op, done) && done.state.RolledBack?
    {
      var moved;
      done, moved := MarkRestarted(op, report);
      failed := !moved;
      if moved {
        ghost var mid := trace;
        done, failed := UndoLoaded(op, done);
        ExtendsTransitive(trace, mid, old(trace));
      }
    }

    method UndoLoaded(op: string, rolling: Report) returns (done: Report, failed: bool)
      requires Valid() && At(Rewinding(op), rolling)
      modifies this`lastNow, this`trace, this`system, this`operations, store`manifests
      ensures Valid() && Control().Idle? && Extends(trace, old(trace))
      ensures OthersSame(old(store.manifests), store.manifests, op)
      ensures !failed ==> Holds(store.manifests, op, done) && done.state.RolledBack?
    {
      var undone, persisted;
      done, undone, persisted := Undo(op, rolling, rolling.error);
      failed := !undone || !persisted;
    }
  }

  /** The stored report answers this request: same diagnostic, action, start and first step. */
  predicate Asked(r: Report, request: Request) {
    && r.diagnosticId == request.diagnosticId && r.action == request.action && r.startedAt == request.startedAt
    && r.steps != [] && r.steps[0] == request.initialStep
  }

  lemma ReferenceKept(clean: string -> bool, r: Report, reference: string, t: Time)
    requires Open(clean, r, t) && clean(reference)
    ensures Open(clean, r.(snapshotReference := reference), t)
  {
    var n := r.(snapshotReference := reference);
    OpenMeans(clean, r, t);
    OpenMeans(clean, n, t);
    forall i | 0 <= i < |n.steps| ensures ValidStep(clean, n, i) { assert ValidStep(clean, r, i); }
  }

  lemma CreateMirrors(s: System, manifests: map<string, Manifest>, op: string, m: Manifest)
    requires s.control.Idle? && Mirrors(manifests, s.manifests) && Timely(m) && m.state.Snapshotted?
    ensures Mirrors(manifests, Apply(s, Create(op, false)).manifests)
    ensures op !in manifests ==> Mirrors(manifests[op := m], Apply(s, Create(op, true)).manifests)
  {
  }

  /** The same operation's report, with nothing of its history lost. */
  ghost predicate Continued(r: Report, n: Report) {
    && n.operationId == r.operationId && n.diagnosticId == r.diagnosticId && n.action == r.action && n.source == r.source
    && n.startedAt == r.startedAt && n.snapshotReference == r.snapshotReference && r.steps <= n.steps
  }

  lemma CarriesFrom(clean: string -> bool, m: Manifest, n: Report)
    requires ValidManifest(clean, m) && Continued(m.report, n)
    ensures CarriesOn(m, n)
  {
  }

  lemma WriteMirrors(s: System, manifests: map<string, Manifest>, op: string, report: Report, now: Time)
    requires Writes(s.control) && s.control.op == op && Due(s.control).1 == report.state
    requires Mirrors(manifests, s.manifests) && op in manifests
    requires StepsBy(report, now) && (Finished(report.state) || report.finishedAt == 0) && report.startedAt <= now && now > 0
    ensures Mirrors(manifests, Apply(s, Write(false)).manifests)
    ensures Mirrors(manifests[op := Replaced(manifests[op], report.state, Some(report), now)], Apply(s, Write(true)).manifests)
  {
  }

  /** Stated for every length a trace may have, so that it is unfolded only where its length is named. */
  ghost predicate Runs(tr: Trace, s: System) {
    forall n: nat | n == Length(tr) :: RunOf(tr, s, n)
  }

  ghost function Length(tr: Trace): nat {
    match tr case Start => 0 case Then(before, _) => Length(before) + 1
  }

  ghost predicate RunOf(tr: Trace, s: System, n: nat) {
    n == Length(tr) && Legal(tr) && Replay(tr) == s
  }

  lemma RunsFrom(tr: Trace)
    requires Legal(tr)
    ensures Runs(tr, Replay(tr))
  {
  }

  lemma RunsIs(tr: Trace, s: System)
    requires Runs(tr, s)
    ensures Legal(tr) && Replay(tr) == s
  {
    assert RunOf(tr, s, Length(tr));
  }

  lemma RunsThen(tr: Trace, s: System, e: Event)
    requires Runs(tr, s) && Enabled(s, e)
    ensures Runs(Then(tr, e), Apply(s, e))
  {
    RunsIs(tr, s);
    RunsFrom(Then(tr, e));
  }

  /** What is due is a change of state, from what is on disk. */
  lemma DueIsOnDisk(tr: Trace, s: System)
    requires Runs(tr, s) && Writes(s.control)
    ensures s.control.op in s.manifests && s.manifests[s.control.op] == Due(s.control).0
    ensures Due(s.control).0 != Due(s.control).1 && ValidTransition(Due(s.control).0, Due(s.control).1)
    ensures s.control.GivingUp? ==> s.control.from.Snapshotted? || s.control.from.Applying? || s.control.from.Validating?
  {
    RunsIs(tr, s);
    AlwaysTruthful(tr, s.control.op);
  }

  /** What the manifests of a coordinator say was done, was done: at most one mutation each, successes
      validated and reloaded after it, rollbacks restored, validated and reloaded. */
  lemma ManifestsAreEarned(c: Coordinator, op: string)
    requires c.Valid() && op in c.store.manifests
    ensures Legal(c.trace) && FactsOf(c.trace, op).executions <= 1
    ensures var f := FactsOf(c.trace, op);
            && (c.store.manifests[op].state.Succeeded? ==> f.executions == 1 && f.applied && !f.restored && f.valid && f.active)
            && (c.store.manifests[op].state.RolledBack? ==> f.restored && f.valid && f.active)
  {
    RunsIs(c.trace, c.system);
    MutatesAtMostOnce(c.trace, op);
    DurableOutcomesAreEarned(c.trace, op);
  }
}
