/** A recovery operation as a labelled transition system.

    One event is one durable manifest write, one call into the proxy backend, one restore, or the start
    of a resumption. A crash may come between any two events and drops everything but the manifests. */
module RecoveryProtocol {
  import opened RecoveryState

  /** Where the one running repair or resumption stands. */
  datatype Control =
    | Idle
    | Prepared(op: string)               // the snapshotted manifest is durable
    | Mutating(op: string)               // applying is durable
    | Mutated(op: string)                // the mutation returned without error
    | Proving(op: string)                // validating is durable
    | Proven(op: string)                 // the proxy accepts the configuration
    | Activated(op: string)              // and reloaded it
    | GivingUp(op: string, from: State)  // about to mark rolling_back
    | Rewinding(op: string)              // rolling_back is durable
    | Rewound(op: string)                // every captured path is restored
    | Rechecked(op: string)              // and the proxy accepts it
    | Settling(op: string, outcome: State)

  datatype Event =
    | Create(op: string, ok: bool)
    | Write(ok: bool)
    | Execute(ok: bool)
    | Validate(ok: bool)
    | Reload(ok: bool)
    | Restore(ok: bool)
    | Resume(op: string)
    | Crash
    | Prune(op: string)

  /** `manifests` gives the durable state of every operation that has one. */
  datatype System = System(manifests: map<string, State>, control: Control)

  /** The move the control is about to write. */
  function Due(c: Control): (State, State)
    requires Writes(c)
  {
    match c
    case Prepared(_) => (Snapshotted, Applying)
    case Mutated(_) => (Applying, Validating)
    case Activated(_) => (Validating, Succeeded)
    case GivingUp(_, from) => (from, RollingBack)
    case Settling(_, outcome) => (RollingBack, outcome)
  }

  predicate Writes(c: Control) {
    c.Prepared? || c.Mutated? || c.Activated? || c.GivingUp? || c.Settling?
  }

  predicate Enabled(s: System, e: Event) {
    match e
    case Create(op, ok) => s.control.Idle? && (ok ==> op !in s.manifests)
    case Write(_) => Writes(s.control)
    case Execute(_) => s.control.Mutating?
    case Validate(_) => s.control.Proving? || s.control.Rewound?
    case Reload(_) => s.control.Proven? || s.control.Rechecked?
    case Restore(_) => s.control.Rewinding?
    case Resume(op) => s.control.Idle? && op in s.manifests
    case Crash => true
    case Prune(op) => op in s.manifests && !Active(s.manifests[op])
  }

  function NextManifests(s: System, e: Event): map<string, State>
    requires Enabled(s, e)
  {
    match e
    case Create(op, true) => s.manifests[op := Snapshotted]
    case Write(true) => s.manifests[s.control.op := Due(s.control).1]
    case Prune(op) => s.manifests - {op}
    case _ => s.manifests
  }

  function AfterWrite(c: Control, ok: bool): Control
    requires Writes(c)
  {
    match c
    case Prepared(op) => if ok then Mutating(op) else GivingUp(op, Snapshotted)
    case Mutated(op) => if ok then Proving(op) else GivingUp(op, Applying)
    case GivingUp(op, _) => if ok then Rewinding(op) else Idle
    case _ => Idle
  }

  function Resumed(op: string, state: State): Control {
    match RestartDispositionFor(state)
    case BeginRollback => GivingUp(op, Applying)
    case ResumeValidation => Proving(op)
    case ResumeRollback => Rewinding(op)
    case NoRestart => Idle
  }

  function NextControl(s: System, e: Event): Control
    requires Enabled(s, e)
  {
    match e
    case Create(op, ok) => if ok then Prepared(op) else Idle
    case Write(ok) => AfterWrite(s.control, ok)
    case Execute(ok) => if ok then Mutated(s.control.op) else GivingUp(s.control.op, Applying)
    case Validate(ok) =>
      if s.control.Proving? then (if ok then Proven(s.control.op) else GivingUp(s.control.op, Validating))
      else if ok then Rechecked(s.control.op) else Settling(s.control.op, RollbackFailed)
    case Reload(ok) =>
      if s.control.Proven? then (if ok then Activated(s.control.op) else GivingUp(s.control.op, Validating))
      else Settling(s.control.op, if ok then RolledBack else RollbackFailed)
    case Restore(ok) => if ok then Rewound(s.control.op) else Settling(s.control.op, RollbackFailed)
    case Resume(op) => Resumed(op, s.manifests[op])
    case Crash => Idle
    case Prune(_) => s.control
  }

  function Apply(s: System, e: Event): System
    requires Enabled(s, e)
  {
    System(NextManifests(s, e), NextControl(s, e))
  }

  datatype Trace = Start | Then(before: Trace, event: Event)

  ghost predicate Legal(tr: Trace)
    decreases tr, 0
  {
    match tr
    case Start => true
    case Then(before, e) => Legal(before) && Enabled(Replay(before), e)
  }

  ghost function Replay(tr: Trace): System
    requires Legal(tr)
    decreases tr, 1
  {
    match tr
    case Start => System(map[], Idle)
    case Then(before, e) => Apply(Replay(before), e)
  }

  ghost predicate Extends(longer: Trace, shorter: Trace) {
    longer == shorter || (longer.Then? && Extends(longer.before, shorter))
  }

  lemma {:induction false} ExtendsTransitive(a: Trace, b: Trace, c: Trace)
    requires Extends(a, b) && Extends(b, c)
    ensures Extends(a, c)
  {
    if a != b {
      ExtendsTransitive(a.before, b, c);
    }
  }

  // ----- what was done for an operation since its manifest was created -----

  /** `applied`: the mutation returned without error. `restored`, `valid` and `active` hold the latest
      restore, validation and reload; each mutation or restore makes the later ones void. `crashes`
      counts the process deaths. */
  datatype Facts = Facts(executions: nat, applied: bool, restored: bool, valid: bool, active: bool, crashes: nat)

  const NOTHING := Facts(0, false, false, false, false, 0)

  predicate Concerns(c: Control, op: string) {
    !c.Idle? && c.op == op
  }

  ghost function FactsOf(tr: Trace, op: string): Facts
    requires Legal(tr)
  {
    match tr
    case Start => NOTHING
    case Then(before, e) => NextFacts(Replay(before).control, e, op, FactsOf(before, op))
  }

  function NextFacts(c: Control, e: Event, op: string, f: Facts): Facts {
    if e == Create(op, true) then NOTHING
    else if e.Crash? then f.(crashes := f.crashes + 1)
    else if !Concerns(c, op) then f
    else match e
      case Execute(ok) => Facts(f.executions + 1, ok, false, false, false, f.crashes)
      case Restore(ok) => f.(restored := ok, valid := false, active := false)
      case Validate(ok) => f.(valid := ok, active := false)
      case Reload(ok) => f.(active := f.valid && ok)
      case _ => f
  }

  /** A manifest says no more than what was done. */
  predicate StateTruth(state: State, f: Facts) {
    match state
    case Snapshotted => f.executions == 0
    case Applying => f.executions <= 1
    case Validating => f.executions == 1 && f.applied && !f.restored
    case Succeeded => f.executions == 1 && f.applied && !f.restored && f.valid && f.active
    case RolledBack => f.executions <= 1 && f.restored && f.valid && f.active
    case RollingBack => f.executions <= 1
    case RollbackFailed => f.executions <= 1
    case _ => false
  }

  /** What the control knows that the manifest does not say yet. */
  predicate ControlTruth(c: Control, state: State, f: Facts) {
    match c
    case Idle => true
    case Prepared(_) => state.Snapshotted? && f.executions == 0 && f.crashes == 0
    case Mutating(_) => state.Applying? && f.executions == 0 && f.crashes == 0
    case Mutated(_) => state.Applying? && f.executions == 1 && f.applied && !f.restored
    case Proving(_) => state.Validating?
    case Proven(_) => state.Validating? && f.valid
    case Activated(_) => state.Validating? && f.valid && f.active
    case GivingUp(_, from) => state == from && (from.Snapshotted? || from.Applying? || from.Validating?)
    case Rewinding(_) => state.RollingBack?
    case Rewound(_) => state.RollingBack? && f.restored
    case Rechecked(_) => state.RollingBack? && f.restored && f.valid
    case Settling(_, outcome) =>
      state.RollingBack? && (outcome.RollbackFailed? || (outcome.RolledBack? && f.restored && f.valid && f.active))
  }

  predicate Truthful(s: System, op: string, f: Facts) {
    && (op in s.manifests ==> StateTruth(s.manifests[op], f))
    && (Concerns(s.control, op) ==> op in s.manifests && ControlTruth(s.control, s.manifests[op], f))
  }

  lemma TruthStep(s: System, e: Event, op: string, f: Facts)
    requires Enabled(s, e) && Truthful(s, op, f)
    ensures Truthful(Apply(s, e), op, NextFacts(s.control, e, op, f))
  {
  }

  lemma {:induction false} AlwaysTruthful(tr: Trace, op: string)
    requires Legal(tr)
    ensures Truthful(Replay(tr), op, FactsOf(tr, op))
  {
    match tr
    case Start =>
    case Then(before, e) =>
      AlwaysTruthful(before, op);
      TruthStep(Replay(before), e, op, FactsOf(before, op));
  }

  // ----- the main results -----

  /** Across any crashes and resumptions the mutation of an operation is called at most once while its
      manifest exists, and only by the process that created it. */
  lemma MutatesAtMostOnce(tr: Trace, op: string)
    requires Legal(tr) && op in Replay(tr).manifests
    ensures FactsOf(tr, op).executions <= 1
    ensures Replay(tr).control == Mutating(op) ==> FactsOf(tr, op).executions == 0 && FactsOf(tr, op).crashes == 0
  {
    AlwaysTruthful(tr, op);
  }

  /** A durable success was validated and reloaded after the mutation and not undone since; a durable
      rollback was restored, then validated, then reloaded. */
  lemma DurableOutcomesAreEarned(tr: Trace, op: string)
    requires Legal(tr) && op in Replay(tr).manifests
    ensures var f := FactsOf(tr, op);
            && (Replay(tr).manifests[op].Succeeded? ==> f.executions == 1 && f.applied && !f.restored && f.valid && f.active)
            && (Replay(tr).manifests[op].RolledBack? ==> f.restored && f.valid && f.active)
  {
    AlwaysTruthful(tr, op);
  }

  /** A failed rollback is never forgotten: its manifest stays as it is, whatever happens later. */
  lemma {:induction false} RollbackFailedStays(tr: Trace, later: Trace, op: string)
    requires Legal(later) && Extends(later, tr) && Legal(tr)
    requires op in Replay(tr).manifests && Replay(tr).manifests[op].RollbackFailed?
    ensures op in Replay(later).manifests && Replay(later).manifests[op].RollbackFailed?
    decreases later
  {
    if later != tr {
      RollbackFailedStays(tr, later.before, op);
      AlwaysTruthful(later.before, op);
    }
  }

  /** A success or a completed rollback stays too, until retention drops it. */
  lemma {:induction false} OutcomeStays(tr: Trace, later: Trace, op: string)
    requires Legal(later) && Extends(later, tr) && Legal(tr)
    requires op in Replay(tr).manifests && (Replay(tr).manifests[op].Succeeded? || Replay(tr).manifests[op].RolledBack?)
    ensures (op in Replay(later).manifests && Replay(later).manifests[op] == Replay(tr).manifests[op]) || Dropped(tr, later, op)
    decreases later
  {
    if later != tr {
      OutcomeStays(tr, later.before, op);
      AlwaysTruthful(later.before, op);
    }
  }

  /** The manifest was pruned at some point in between. */
  ghost predicate Dropped(tr: Trace, later: Trace, op: string) {
    later != tr && later.Then? && (later.event == Prune(op) || Dropped(tr, later.before, op))
  }

  /** Every write the control makes is a valid transition from the state on disk. */
  lemma WritesAreTransitions(tr: Trace, op: string)
    requires Legal(tr) && Writes(Replay(tr).control) && Replay(tr).control.op == op
    ensures op in Replay(tr).manifests && Replay(tr).manifests[op] == Due(Replay(tr).control).0
    ensures ValidTransition(Due(Replay(tr).control).0, Due(Replay(tr).control).1)
  {
    AlwaysTruthful(tr, op);
  }
}
