/** The privileged helper transaction as a labelled transition system.

    One event is one durable journal write, one call into the action handler, or one step of the
    engine that only reads. A crash may come between any two events and drops everything but the
    disk, so a property of every legal trace is a property of every crash point.

    The only disk fact a crash can take back is a grant claim whose deletion was not yet followed by
    a sync of the grants directory; `Disk.unsynced` remembers those claims. */
module HelperProtocol {

  datatype Option<+T> = None | Some(value: T)

  // Times are nanoseconds.
  type Time = int

  const SECOND: int := 1_000_000_000
  const MINUTE: int := 60 * SECOND
  const HOUR: int := 60 * MINUTE
  const PLAN_LIFETIME := 5 * MINUTE
  const GRANT_SKEW := 30 * SECOND
  const RETENTION_MIN_AGE := HOUR
  const MAX_STORED_PLANS := 128

  datatype Action = ApplyManagedProxyState | HostAction(name: string)

  datatype Coverage = Full | Partial | NoCoverage

  datatype JournalState =
    | Authorized
    | Running
    | Mutated
    | Validated
    | Succeeded
    | FailedBeforeMutation
    | RollbackRunning
    | RolledBack
    | RollbackFailed
    | OutcomeIndeterminate

  predicate CanTransition(from: JournalState, to: JournalState) {
    match from
    case Authorized => to.Running? || to.FailedBeforeMutation?
    case Running => to.Mutated? || to.Succeeded? || to.FailedBeforeMutation? || to.OutcomeIndeterminate?
    case Mutated => to.Validated? || to.RollbackRunning? || to.OutcomeIndeterminate?
    case Validated => to.Succeeded? || to.RollbackRunning? || to.OutcomeIndeterminate?
    case RollbackRunning => to.RolledBack? || to.RollbackFailed? || to.OutcomeIndeterminate?
    case _ => false
  }

  predicate Prunable(state: JournalState) {
    state.Succeeded? || state.FailedBeforeMutation? || state.RolledBack?
  }

  /** The states a restart finds when the process died inside an execution. */
  predicate Interrupted(state: JournalState) {
    state.Running? || state.Mutated? || state.Validated? || state.RollbackRunning?
  }

  /** What a grant and its plan must agree on: the diagnostic or apply identity, the action and the
      two hashes of the displayed plan. */
  datatype Terms = Terms(subject: string, action: Action, executionHash: string, fingerprint: string)

  /** A host action plan is named by a random UUID, a managed plan by the digest of its material and
      its expiry. */
  datatype PlanId = Uuid(draw: nat) | Derived(material: string, expiresAt: Time)

  datatype Plan = Plan(id: PlanId, terms: Terms, coverage: Coverage, expiresAt: Time)

  datatype Grant = Grant(
    grantId: string, operationId: string, planId: PlanId, terms: Terms, issuedAt: Time, expiresAt: Time)

  /** `authentic` stands for the envelope, key, signature, agent and helper instance checks. */
  datatype Request = Request(managed: bool, grant: Grant, signature: string, authentic: bool)

  /** The canonical request digest, taken as injective. */
  datatype Digest = DigestOf(request: Request)

  datatype Receipt = Receipt(
    operationId: string, digest: Digest, action: Action, state: JournalState,
    coverage: Coverage, snapshot: Option<string>, updatedAt: Time)

  datatype Record = Record(
    operationId: string, grantId: string, digest: Digest, action: Action,
    state: JournalState, receipt: Option<Receipt>, updatedAt: Time)

  datatype Claim = Claim(operationId: string, digest: Digest)

  datatype Disk = Disk(
    plans: map<PlanId, Plan>,
    operations: map<string, Record>,
    claims: map<string, Claim>,
    unsynced: map<string, Claim>,
    snapshots: map<string, string>,
    breaker: bool)

  datatype Prepared = Prepared(coverage: Coverage, snapshot: Option<string>)

  predicate ValidFor(prepared: Prepared, coverage: Coverage) {
    prepared.coverage == coverage && (coverage.NoCoverage? <==> prepared.snapshot.None?)
  }

  /** Where one execution stands; the engine runs at most one at a time. */
  datatype Phase =
    | Cleared                                  // plan, expiry, terms, rediscovery and breaker passed
    | Claimed                                  // the grant claim is durable
    | Begun                                    // the authorized record is durable
    | Unprepared                               // Prepare failed
    | Ready(prepared: Prepared)
    | Launched(prepared: Prepared)             // the running record is durable
    | Executed(prepared: Prepared, mutated: bool, ok: bool)
    | Committed(prepared: Prepared, ok: bool)  // the mutated record is durable
    | Checked(prepared: Prepared)              // the validated record is durable
    | RollingBack(prepared: Prepared)          // the rollback_running record is durable
    | Undone(prepared: Prepared, full: bool)   // the handler's rollback returned
    | Tripped(prepared: Prepared)              // the breaker is durable

  datatype Control =
    | Down(converted: bool)
    | Idle
    | Looked(request: Request, timely: bool)
    | Planned(request: Request, plan: Plan)
    | Working(request: Request, plan: Plan, phase: Phase)

  /** `issued` and `draws` are not read by the program: they say which plan identities were ever
      stored, with their expiry, and how many UUIDs were drawn. */
  datatype State = State(
    disk: Disk, breakerOpen: bool, control: Control, now: Time, issued: map<PlanId, Time>, draws: nat)

  datatype Event =
    | Tick(to: Time)
    | Draw
    | StorePlan(plan: Plan)
    | DropPlan(id: PlanId)
    | Lookup(request: Request)
    | CheckGrant
    | CheckPlan
    | PassBreaker
    | WriteClaim
    | ReuseClaim
    | CreateRecord
    | Resume
    | StoreSnapshot(content: string)
    | Prepare(prepared: Option<Prepared>)
    | Execute(mutated: bool, ok: bool)
    | Rollback(restored: bool)
    | Advance
    | TripBreaker(durable: bool)
    | Return
    | DropSnapshot(operationId: string)
    | DropClaim(operationId: string)
    | SyncDrops
    | DropRecord(operationId: string)
    | Crash(undone: set<string>)
    | MarkIndeterminate(operationId: string)
    | Serve

  /** The digest and record action a request is journaled under. */
  function RequestAction(request: Request, plan: Plan): Action {
    if request.managed then ApplyManagedProxyState else plan.terms.action
  }

  /** The journal write a phase ends in: the last one of the execution, or one that goes on to a phase. */
  datatype Write = NoWrite | Final(state: JournalState) | Onward(state: JournalState, phase: Phase)

  function NextWrite(phase: Phase, managed: bool): Write {
    match phase
    case Unprepared => Final(FailedBeforeMutation)
    case Ready(p) => Onward(Running, Launched(p))
    case Executed(p, mutated, ok) =>
      if mutated then Onward(Mutated, Committed(p, ok))
      else Final(if managed && ok then Succeeded else FailedBeforeMutation)
    case Committed(p, ok) => if ok then Onward(Validated, Checked(p)) else Onward(RollbackRunning, RollingBack(p))
    case Checked(_) => Final(Succeeded)
    case Undone(_, full) => if full then Final(RolledBack) else NoWrite
    case Tripped(_) => Final(RollbackFailed)
    case _ => NoWrite
  }

  function PreparedIn(phase: Phase, plan: Plan): Prepared {
    match phase
    case Ready(p) => p
    case Launched(p) => p
    case Executed(p, _, _) => p
    case Committed(p, _) => p
    case Checked(p) => p
    case RollingBack(p) => p
    case Undone(p, _) => p
    case Tripped(p) => p
    case _ => Prepared(plan.coverage, None)
  }

  function ReceiptFor(request: Request, plan: Plan, prepared: Prepared, state: JournalState, at: Time): Receipt {
    Receipt(request.grant.operationId, DigestOf(request), RequestAction(request, plan), state,
            prepared.coverage, prepared.snapshot, at)
  }

  function Advanced(record: Record, receipt: Receipt): Record {
    record.(state := receipt.state, receipt := Some(receipt), updatedAt := receipt.updatedAt)
  }

  function Indeterminate(record: Record, at: Time): Record
    requires record.receipt.Some?
  {
    Advanced(record, record.receipt.value.(state := OutcomeIndeterminate, updatedAt := at))
  }

  /** The receipt a repeat of a journaled request would get, if any. */
  predicate HasReceipt(disk: Disk, operationId: string) {
    operationId in disk.operations && disk.operations[operationId].receipt.Some?
  }

  predicate PlanUsable(s: State, grant: Grant) {
    && grant.planId in s.disk.plans
    && s.now < s.disk.plans[grant.planId].expiresAt
    && grant.terms == s.disk.plans[grant.planId].terms
  }

  /** Host action plans and managed plans are stored, and bounded, apart. */
  function OfKind(plans: map<PlanId, Plan>, derived: bool): set<PlanId> {
    set id | id in plans && id.Derived? == derived
  }

  predicate Retirable(s: State, operationId: string) {
    && operationId in s.disk.operations
    && Prunable(s.disk.operations[operationId].state)
    && s.now - s.disk.operations[operationId].updatedAt >= RETENTION_MIN_AGE
  }

  predicate ClaimedBy(claims: map<string, Claim>, grantId: string, operationId: string) {
    grantId in claims && claims[grantId].operationId == operationId
  }

  predicate Matches(record: Record, request: Request, plan: Plan) {
    && record.grantId == request.grant.grantId
    && record.digest == DigestOf(request)
    && record.action == RequestAction(request, plan)
  }

  predicate Enabled(s: State, e: Event) {
    var d := s.disk;
    match e
    case Tick(to) => s.now <= to
    case Draw => true
    case StorePlan(plan) =>
      && !s.control.Down?
      && plan.expiresAt <= s.now + PLAN_LIFETIME + GRANT_SKEW
      && plan.id !in d.plans
      && |OfKind(d.plans, plan.id.Derived?)| < MAX_STORED_PLANS
      && match plan.id {
           case Uuid(draw) => plan.id !in s.issued && draw < s.draws
           case Derived(_, expiresAt) => plan.expiresAt == expiresAt
         }
    case DropPlan(id) => id in d.plans && d.plans[id].expiresAt <= s.now
    case Lookup(request) => s.control.Idle? && request.authentic && !HasReceipt(d, request.grant.operationId)
    case CheckGrant =>
      s.control.Looked? && s.control.request.grant.issuedAt - GRANT_SKEW <= s.now < s.control.request.grant.expiresAt
    case CheckPlan => s.control.Looked? && s.control.timely && PlanUsable(s, s.control.request.grant)
    case PassBreaker => s.control.Planned? && !s.breakerOpen
    case WriteClaim =>
      && s.control.Working? && s.control.phase.Cleared?
      && s.control.request.grant.operationId !in d.operations
      && s.control.request.grant.grantId !in d.claims
    case ReuseClaim =>
      && s.control.Working? && s.control.phase.Cleared?
      && s.control.request.grant.operationId !in d.operations
      && var g := s.control.request.grant;
         g.grantId in d.claims && d.claims[g.grantId] == Claim(g.operationId, DigestOf(s.control.request))
    case CreateRecord =>
      && s.control.Working? && s.control.phase.Claimed?
      && s.control.request.grant.operationId !in d.operations
    case Resume =>
      && s.control.Working? && s.control.phase.Cleared?
      && var id := s.control.request.grant.operationId;
         id in d.operations && Matches(d.operations[id], s.control.request, s.control.plan)
         && d.operations[id].state.Authorized?
    case StoreSnapshot(_) =>
      s.control.Working? && s.control.phase.Begun? && s.control.request.grant.operationId !in d.snapshots
    case Prepare(prepared) =>
      && s.control.Working? && s.control.phase.Begun?
      && (prepared.Some? && prepared.value.snapshot.Some? ==>
            var id := s.control.request.grant.operationId;
            id in d.snapshots && d.snapshots[id] == prepared.value.snapshot.value)
    case Execute(mutated, ok) => s.control.Working? && s.control.phase.Launched?
    case Rollback(restored) => s.control.Working? && s.control.phase.RollingBack?
    case Advance =>
      && s.control.Working? && !NextWrite(s.control.phase, s.control.request.managed).NoWrite?
      && s.control.request.grant.operationId in d.operations
      && CanTransition(d.operations[s.control.request.grant.operationId].state,
                       NextWrite(s.control.phase, s.control.request.managed).state)
      && Matches(d.operations[s.control.request.grant.operationId], s.control.request, s.control.plan)
    case TripBreaker(durable) =>
      || (s.control.Working? && s.control.phase.Undone? && !s.control.phase.full)
      || s.control.Down?
    case Return => !s.control.Down?
    case DropSnapshot(id) => !s.control.Down? && Retirable(s, id)
    case DropClaim(id) =>
      && !s.control.Down? && Retirable(s, id) && ClaimedBy(d.claims, d.operations[id].grantId, id)
    case SyncDrops => true
    case DropRecord(id) =>
      && !s.control.Down? && Retirable(s, id) && d.unsynced == map[]
      && !ClaimedBy(d.claims, d.operations[id].grantId, id)
    case Crash(undone) => undone <= d.unsynced.Keys
    case MarkIndeterminate(id) =>
      && s.control.Down? && id in d.operations && Interrupted(d.operations[id].state)
      && d.operations[id].receipt.Some?
    case Serve =>
      && s.control.Down? && (s.control.converted ==> s.breakerOpen)
      && forall id | id in d.operations :: !Interrupted(d.operations[id].state)
  }

  // The successor state, one function a component: each lists the events that write it.

  function NextPlans(s: State, e: Event): map<PlanId, Plan> {
    match e
    case StorePlan(plan) => s.disk.plans[plan.id := plan]
    case DropPlan(id) => s.disk.plans - {id}
    case _ => s.disk.plans
  }

  function NextOperations(s: State, e: Event): map<string, Record>
    requires Enabled(s, e)
  {
    var ops := s.disk.operations;
    match e
    case CreateRecord => ops[s.control.request.grant.operationId := FreshRecord(s.control.request, s.control.plan, s.now)]
    case Advance =>
      var id := s.control.request.grant.operationId;
      ops[id := Advanced(ops[id], AdvanceReceipt(s))]
    case DropRecord(id) => ops - {id}
    case MarkIndeterminate(id) => ops[id := Indeterminate(ops[id], s.now)]
    case _ => ops
  }

  function FreshRecord(request: Request, plan: Plan, at: Time): Record {
    Record(request.grant.operationId, request.grant.grantId, DigestOf(request), RequestAction(request, plan), Authorized, None, at)
  }

  function AdvanceReceipt(s: State): Receipt
    requires s.control.Working? && !NextWrite(s.control.phase, s.control.request.managed).NoWrite?
  {
    var next := NextWrite(s.control.phase, s.control.request.managed).state;
    ReceiptFor(s.control.request, s.control.plan, PreparedIn(s.control.phase, s.control.plan), next, s.now)
  }

  function NextClaims(s: State, e: Event): map<string, Claim>
    requires Enabled(s, e)
  {
    match e
    case WriteClaim =>
      var g := s.control.request.grant;
      s.disk.claims[g.grantId := Claim(g.operationId, DigestOf(s.control.request))]
    case DropClaim(id) => s.disk.claims - {s.disk.operations[id].grantId}
    case Crash(undone) => Restored(s.disk.claims, s.disk.unsynced, undone)
    case _ => s.disk.claims
  }

  /** The claims a crash leaves when it undoes some of the unsynced deletions. */
  function Restored(claims: map<string, Claim>, unsynced: map<string, Claim>, undone: set<string>): map<string, Claim> {
    claims + (map g | g in unsynced && g in undone :: unsynced[g])
  }

  function NextUnsynced(s: State, e: Event): map<string, Claim>
    requires Enabled(s, e)
  {
    match e
    case WriteClaim => map[]  // the write syncs the grants directory, which settles earlier deletions
    case DropClaim(id) =>
      var g := s.disk.operations[id].grantId;
      s.disk.unsynced[g := s.disk.claims[g]]
    case SyncDrops => map[]
    case Crash(_) => map[]
    case _ => s.disk.unsynced
  }

  function NextSnapshots(s: State, e: Event): map<string, string>
    requires Enabled(s, e)
  {
    match e
    case StoreSnapshot(content) => s.disk.snapshots[s.control.request.grant.operationId := content]
    case DropSnapshot(id) => s.disk.snapshots - {id}
    case _ => s.disk.snapshots
  }

  function NextControl(s: State, e: Event): Control
    requires Enabled(s, e)
  {
    var c := s.control;
    match e
    case Lookup(request) => Looked(request, false)
    case CheckGrant => c.(timely := true)
    case CheckPlan => Planned(c.request, s.disk.plans[c.request.grant.planId])
    case PassBreaker => Working(c.request, c.plan, Cleared)
    case WriteClaim => c.(phase := Claimed)
    case ReuseClaim => c.(phase := Claimed)
    case CreateRecord => c.(phase := Begun)
    case Resume => c.(phase := Begun)
    case Prepare(prepared) =>
      c.(phase := if prepared.Some? && ValidFor(prepared.value, c.plan.coverage) then Ready(prepared.value) else Unprepared)
    case Execute(mutated, ok) => c.(phase := Executed(c.phase.prepared, mutated, ok))
    case Rollback(restored) =>
      c.(phase := Undone(c.phase.prepared, restored && c.phase.prepared.coverage.Full?))
    case Advance =>
      var write := NextWrite(c.phase, c.request.managed);
      if write.Onward? then c.(phase := write.phase) else Idle
    case TripBreaker(durable) =>
      if c.Down? then c else if durable then c.(phase := Tripped(c.phase.prepared)) else Idle
    case Return => Idle
    case Crash(_) => Down(false)
    case MarkIndeterminate(_) => Down(true)
    case Serve => Idle
    case _ => c
  }

  function Apply(s: State, e: Event): State
    requires Enabled(s, e)
  {
    State(
      Disk(NextPlans(s, e), NextOperations(s, e), NextClaims(s, e), NextUnsynced(s, e), NextSnapshots(s, e),
           s.disk.breaker || (e.TripBreaker? && e.durable)),
      if e.TripBreaker? then true else if e.Crash? then s.disk.breaker else s.breakerOpen,
      NextControl(s, e),
      if e.Tick? then e.to else s.now,
      if e.StorePlan? then s.issued[e.plan.id := e.plan.expiresAt] else s.issued,
      if e.Draw? then s.draws + 1 else s.draws)
  }

  /** A run, latest event last. Every prefix of a legal trace is legal. */
  datatype Trace = Start(at: Time) | Then(before: Trace, event: Event)

  function Initial(at: Time): State {
    State(Disk(map[], map[], map[], map[], map[], false), false, Down(false), at, map[], 0)
  }

  predicate Legal(tr: Trace)
    decreases tr, 0
  {
    tr.Start? || (Legal(tr.before) && Enabled(Replay(tr.before), tr.event))
  }

  function Replay(tr: Trace): State
    requires Legal(tr)
    decreases tr, 1
  {
    match tr
    case Start(at) => Initial(at)
    case Then(before, event) => Apply(Replay(before), event)
  }

  predicate Extends(tr: Trace, base: Trace) {
    tr == base || (tr.Then? && Extends(tr.before, base))
  }

  lemma {:induction false} ExtendsTransitive(c: Trace, b: Trace, a: Trace)
    requires Extends(c, b) && Extends(b, a)
    ensures Extends(c, a)
  {
    if c != b {
      ExtendsTransitive(c.before, b, a);
    }
  }
}
