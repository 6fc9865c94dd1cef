/** What every run of the helper protocol keeps, at every crash point. */
module HelperTheorems {
  import opened HelperProtocol

  // ----- the inductive invariant, one predicate a concern -----

  /** A plan identity keeps the expiry it was first stored with, and that expiry is near. */
  ghost predicate PlansOk(s: State) {
    && (forall p | p in s.disk.plans ::
          s.disk.plans[p].id == p && p in s.issued && s.issued[p] == s.disk.plans[p].expiresAt)
    && (forall p | p in s.issued ::
          && s.issued[p] <= s.now + PLAN_LIFETIME + GRANT_SKEW
          && match p { case Uuid(draw) => draw < s.draws case Derived(_, expiresAt) => s.issued[p] == expiresAt })
    && (forall derived: bool :: |OfKind(s.disk.plans, derived)| <= MAX_STORED_PLANS)
  }

  /** A record that left `Authorized` carries a receipt bound to its id, digest, action and state. */
  ghost predicate Bound(id: string, r: Record) {
    && r.operationId == id
    && r.digest.request.grant.operationId == id
    && r.digest.request.grant.grantId == r.grantId
    && (!r.state.Authorized? ==> r.receipt.Some?)
    && (r.receipt.Some? ==>
          var c := r.receipt.value;
          c.operationId == id && c.digest == r.digest && c.action == r.action && c.state == r.state && c.updatedAt == r.updatedAt)
  }

  ghost predicate RecordsOk(s: State) {
    forall id | id in s.disk.operations ::
      Bound(id, s.disk.operations[id]) && s.disk.operations[id].updatedAt <= s.now
  }

  /** The journal state that a phase's own record is in. */
  function PhaseState(phase: Phase): Option<JournalState> {
    match phase
    case Cleared | Claimed => None
    case Begun | Unprepared | Ready(_) => Some(Authorized)
    case Launched(_) | Executed(_, _, _) => Some(Running)
    case Committed(_, _) => Some(Mutated)
    case Checked(_) => Some(Validated)
    case RollingBack(_) | Undone(_, _) | Tripped(_) => Some(RollbackRunning)
  }

  ghost predicate ControlOk(s: State) {
    match s.control
    case Planned(request, plan) => PlanOf(s, request, plan)
    case Working(request, plan, phase) =>
      && PlanOf(s, request, plan)
      && var id := request.grant.operationId;
         (PhaseState(phase).Some? ==>
            && id in s.disk.operations
            && s.disk.operations[id].state == PhaseState(phase).value
            && Matches(s.disk.operations[id], request, plan)
            && (!PhaseState(phase).value.Authorized? ==>
                  plan.expiresAt <= s.disk.operations[id].updatedAt + PLAN_LIFETIME + GRANT_SKEW))
    case _ => true
  }

  ghost predicate PlanOf(s: State, request: Request, plan: Plan) {
    plan.id == request.grant.planId && plan.id in s.issued && s.issued[plan.id] == plan.expiresAt
  }

  /** Every record that may still change owns its grant's claim; a claim whose deletion a crash may
      undo still has the record that consumed it. */
  ghost predicate ClaimsOk(s: State) {
    && s.disk.unsynced.Keys !! s.disk.claims.Keys
    && (forall id | id in s.disk.operations && !Prunable(s.disk.operations[id].state) ::
          var r := s.disk.operations[id];
          r.grantId in s.disk.claims && s.disk.claims[r.grantId] == Claim(id, r.digest))
    && (forall g | g in s.disk.unsynced :: Consumed(s.disk.operations, s.disk.unsynced, g))
    && (s.control.Working? && s.control.phase.Claimed? ==>
          var g := s.control.request.grant;
          g.operationId !in s.disk.operations && g.grantId in s.disk.claims && s.disk.claims[g.grantId] == Claim(g.operationId, DigestOf(s.control.request)))
  }

  ghost predicate Consumed(operations: map<string, Record>, claims: map<string, Claim>, g: string)
    requires g in claims
  {
    claims[g].operationId in operations && operations[claims[g].operationId].grantId == g
  }

  /** A record that may still need its rollback still has its snapshot. */
  ghost predicate SnapshotsOk(s: State) {
    && (forall id | id in s.disk.operations && !Prunable(s.disk.operations[id].state) ::
          s.disk.operations[id].receipt.Some? ==> HasSnapshot(s.disk.snapshots, id, s.disk.operations[id].receipt.value.snapshot))
    && (s.control.Working? ==>
          HasSnapshot(s.disk.snapshots, s.control.request.grant.operationId, PreparedIn(s.control.phase, s.control.plan).snapshot))
  }

  ghost predicate HasSnapshot(snapshots: map<string, string>, id: string, snapshot: Option<string>) {
    snapshot.Some? ==> id in snapshots && snapshots[id] == snapshot.value
  }

  ghost predicate BreakerOk(s: State) {
    && (forall id | id in s.disk.operations && s.disk.operations[id].state.RollbackFailed? :: s.disk.breaker)
    && (s.disk.breaker ==> s.breakerOpen)
    && (s.control.Working? ==> s.breakerOpen == s.control.phase.Tripped?)
    && (s.control.Working? && s.control.phase.Tripped? ==> s.disk.breaker)
  }

  ghost predicate Inv(s: State) {
    PlansOk(s) && RecordsOk(s) && ControlOk(s) && ClaimsOk(s) && SnapshotsOk(s) && BreakerOk(s)
  }

  /** Only these four events touch what `PlansOk` reads. */
  predicate PlanEvent(e: Event) {
    e.StorePlan? || e.DropPlan? || e.Tick? || e.Draw?
  }

  lemma PlansFrame(s: State, e: Event)
    requires Enabled(s, e) && !PlanEvent(e)
    ensures var t := Apply(s, e);
            t.disk.plans == s.disk.plans && t.issued == s.issued && t.now == s.now && t.draws == s.draws
  {
  }

  lemma QuotaAfterStore(plans: map<PlanId, Plan>, plan: Plan, derived: bool)
    requires plan.id !in plans
    ensures |OfKind(plans[plan.id := plan], derived)|
         == |OfKind(plans, derived)| + if plan.id.Derived? == derived then 1 else 0
  {
    assert OfKind(plans[plan.id := plan], derived)
        == OfKind(plans, derived) + if plan.id.Derived? == derived then {plan.id} else {};
  }

  lemma QuotaAfterDrop(plans: map<PlanId, Plan>, id: PlanId, derived: bool)
    requires id in plans
    ensures |OfKind(plans - {id}, derived)| <= |OfKind(plans, derived)|
  {
    assert OfKind(plans - {id}, derived) == OfKind(plans, derived) - {id};
  }

  lemma PlansStepStore(s: State, e: Event)
    requires PlansOk(s) && Enabled(s, e) && e.StorePlan?
    ensures PlansOk(Apply(s, e))
  {
    QuotaAfterStore(s.disk.plans, e.plan, true);
    QuotaAfterStore(s.disk.plans, e.plan, false);
    var t := Apply(s, e);
    assert t.disk.plans == s.disk.plans[e.plan.id := e.plan];
  }

  lemma PlansStepDrop(s: State, e: Event)
    requires PlansOk(s) && Enabled(s, e) && e.DropPlan?
    ensures PlansOk(Apply(s, e))
  {
    QuotaAfterDrop(s.disk.plans, e.id, true);
    QuotaAfterDrop(s.disk.plans, e.id, false);
    var t := Apply(s, e);
    assert t.disk.plans == s.disk.plans - {e.id};
  }

  lemma PlansStep(s: State, e: Event)
    requires PlansOk(s) && Enabled(s, e)
    ensures PlansOk(Apply(s, e))
  {
    if e.StorePlan? {
      PlansStepStore(s, e);
    } else if e.DropPlan? {
      PlansStepDrop(s, e);
    } else if !PlanEvent(e) {
      PlansFrame(s, e);
    }
  }

  lemma RecordsStep(s: State, e: Event)
    requires RecordsOk(s) && Enabled(s, e)
    ensures RecordsOk(Apply(s, e))
  {
  }

  /** Only these events change, add or remove an operation record. */
  predicate RecordEvent(e: Event) {
    e.CreateRecord? || e.Advance? || e.DropRecord? || e.MarkIndeterminate?
  }

  lemma RecordFrame(s: State, e: Event)
    requires Enabled(s, e) && !RecordEvent(e)
    ensures Apply(s, e).disk.operations == s.disk.operations
  {
  }

  lemma ControlStepAdvance(s: State)
    requires PlansOk(s) && ControlOk(s) && Enabled(s, Advance)
    ensures ControlOk(Apply(s, Advance))
  {
    var t := Apply(s, Advance);
    var id := s.control.request.grant.operationId;
    assert t.disk.operations[id] == Advanced(s.disk.operations[id], AdvanceReceipt(s));
    assert t.issued == s.issued && t.now == s.now;
  }

  lemma ControlStepRecord(s: State, e: Event)
    requires RecordEvent(e) && !e.Advance?
    requires ControlOk(s) && Enabled(s, e)
    ensures ControlOk(Apply(s, e))
  {
    assert Apply(s, e).issued == s.issued;
  }

  lemma ControlStepPlan(s: State, e: Event)
    requires e.StorePlan? || e.CheckPlan?
    requires PlansOk(s) && ControlOk(s) && Enabled(s, e)
    ensures ControlOk(Apply(s, e))
  {
    RecordFrame(s, e);
  }

  lemma ControlStepOther(s: State, e: Event)
    requires !RecordEvent(e) && !e.StorePlan? && !e.CheckPlan?
    requires ControlOk(s) && Enabled(s, e)
    ensures ControlOk(Apply(s, e))
  {
    RecordFrame(s, e);
    assert Apply(s, e).issued == s.issued;
  }

  lemma ControlStep(s: State, e: Event)
    requires PlansOk(s) && ControlOk(s) && Enabled(s, e)
    ensures ControlOk(Apply(s, e))
  {
    if e.Advance? {
      ControlStepAdvance(s);
    } else if RecordEvent(e) {
      ControlStepRecord(s, e);
    } else if e.StorePlan? || e.CheckPlan? {
      ControlStepPlan(s, e);
    } else {
      ControlStepOther(s, e);
    }
  }

  /** Only these events touch the claims. */
  predicate ClaimEvent(e: Event) {
    e.WriteClaim? || e.DropClaim? || e.SyncDrops? || e.Crash?
  }

  lemma ClaimFrame(s: State, e: Event)
    requires Enabled(s, e) && !ClaimEvent(e)
    ensures Apply(s, e).disk.claims == s.disk.claims && Apply(s, e).disk.unsynced == s.disk.unsynced
  {
  }

  lemma ClaimsStepWrite(s: State)
    requires ClaimsOk(s) && Enabled(s, WriteClaim)
    ensures ClaimsOk(Apply(s, WriteClaim))
  {
    RecordFrame(s, WriteClaim);
  }

  lemma ClaimsStepDrop(s: State, e: Event)
    requires e.DropClaim?
    requires RecordsOk(s) && ClaimsOk(s) && Enabled(s, e)
    ensures ClaimsOk(Apply(s, e))
  {
    RecordFrame(s, e);
    assert Apply(s, e).control == s.control;
    var g := s.disk.operations[e.operationId].grantId;
    assert NextClaims(s, e) == s.disk.claims - {g};
    assert NextUnsynced(s, e) == s.disk.unsynced[g := s.disk.claims[g]];
  }

  lemma ClaimsStepLoss(s: State, e: Event)
    requires e.SyncDrops? || e.Crash?
    requires ClaimsOk(s) && Enabled(s, e)
    ensures ClaimsOk(Apply(s, e))
  {
    RecordFrame(s, e);
  }

  lemma ClaimsStepAdvance(s: State)
    requires ControlOk(s) && ClaimsOk(s) && Enabled(s, Advance)
    ensures ClaimsOk(Apply(s, Advance))
  {
    ClaimFrame(s, Advance);
    var id := s.control.request.grant.operationId;
    assert Apply(s, Advance).disk.operations == s.disk.operations[id := Advanced(s.disk.operations[id], AdvanceReceipt(s))];
  }

  lemma ClaimsStepRecord(s: State, e: Event)
    requires RecordEvent(e) && !e.Advance?
    requires ControlOk(s) && ClaimsOk(s) && Enabled(s, e)
    ensures ClaimsOk(Apply(s, e))
  {
    ClaimFrame(s, e);
  }

  lemma ClaimsStep(s: State, e: Event)
    requires RecordsOk(s) && ControlOk(s) && ClaimsOk(s) && Enabled(s, e)
    ensures ClaimsOk(Apply(s, e))
  {
    if e.WriteClaim? {
      ClaimsStepWrite(s);
    } else if e.DropClaim? {
      ClaimsStepDrop(s, e);
    } else if ClaimEvent(e) {
      ClaimsStepLoss(s, e);
    } else if e.Advance? {
      ClaimsStepAdvance(s);
    } else if RecordEvent(e) {
      ClaimsStepRecord(s, e);
    } else {
      RecordFrame(s, e);
      ClaimFrame(s, e);
    }
  }

  /** Only these events touch the snapshots. */
  predicate SnapshotEvent(e: Event) {
    e.StoreSnapshot? || e.DropSnapshot?
  }

  lemma SnapshotFrame(s: State, e: Event)
    requires Enabled(s, e) && !SnapshotEvent(e)
    ensures Apply(s, e).disk.snapshots == s.disk.snapshots
  {
  }

  lemma AdvanceEffect(s: State)
    requires ControlOk(s) && Enabled(s, Advance)
    ensures var id := s.control.request.grant.operationId;
            var ops, w := NextOperations(s, Advance), NextWrite(s.control.phase, s.control.request.managed);
            && ops == s.disk.operations[id := Advanced(s.disk.operations[id], AdvanceReceipt(s))]
            && ops[id].state == w.state && !w.state.Authorized?
            && ops[id].digest == DigestOf(s.control.request)
            && (w.Final? ==> NextControl(s, Advance).Idle?)
            && (w.Onward? ==> NextControl(s, Advance) == s.control.(phase := w.phase))
            && (w.Onward? && w.phase.Launched? ==> s.control.phase.Ready?)
  {
  }

  lemma SnapshotsStepAdvance(s: State)
    requires ControlOk(s) && SnapshotsOk(s) && Enabled(s, Advance)
    ensures SnapshotsOk(Apply(s, Advance))
  {
    SnapshotFrame(s, Advance);
    AdvanceEffect(s);
    var w := NextWrite(s.control.phase, s.control.request.managed);
    assert w.Onward? ==> PreparedIn(w.phase, s.control.plan) == PreparedIn(s.control.phase, s.control.plan);
  }

  lemma SnapshotsStepOwn(s: State, e: Event)
    requires SnapshotEvent(e)
    requires ControlOk(s) && SnapshotsOk(s) && Enabled(s, e)
    ensures SnapshotsOk(Apply(s, e))
  {
    RecordFrame(s, e);
  }

  lemma PreparedKept(s: State, e: Event)
    requires Enabled(s, e) && !e.Advance? && NextControl(s, e).Working? && SnapshotsOk(s)
    ensures HasSnapshot(s.disk.snapshots, NextControl(s, e).request.grant.operationId,
                        PreparedIn(NextControl(s, e).phase, NextControl(s, e).plan).snapshot)
  {
  }

  lemma SnapshotsStep(s: State, e: Event)
    requires ControlOk(s) && SnapshotsOk(s) && Enabled(s, e)
    ensures SnapshotsOk(Apply(s, e))
  {
    if e.Advance? {
      SnapshotsStepAdvance(s);
    } else if SnapshotEvent(e) {
      SnapshotsStepOwn(s, e);
    } else {
      SnapshotFrame(s, e);
      var t := Apply(s, e);
      assert t.control == NextControl(s, e) && t.disk.operations == NextOperations(s, e);
      if t.control.Working? {
        PreparedKept(s, e);
      }
      if !RecordEvent(e) {
        RecordFrame(s, e);
      }
    }
  }

  lemma BreakerStepRecords(s: State, e: Event, id: string)
    requires ControlOk(s) && BreakerOk(s) && Enabled(s, e)
    requires id in NextOperations(s, e) && NextOperations(s, e)[id].state.RollbackFailed?
    ensures s.disk.breaker
  {
    if !RecordEvent(e) {
      RecordFrame(s, e);
    }
  }

  lemma BreakerStepControl(s: State, e: Event)
    requires BreakerOk(s) && Enabled(s, e)
    ensures var t := Apply(s, e);
            && (t.disk.breaker ==> t.breakerOpen)
            && (t.control.Working? ==> t.breakerOpen == t.control.phase.Tripped?)
            && (t.control.Working? && t.control.phase.Tripped? ==> t.disk.breaker)
  {
  }

  lemma BreakerStep(s: State, e: Event)
    requires ControlOk(s) && BreakerOk(s) && Enabled(s, e)
    ensures BreakerOk(Apply(s, e))
  {
    BreakerStepControl(s, e);
    forall id | id in NextOperations(s, e) && NextOperations(s, e)[id].state.RollbackFailed? ensures s.disk.breaker {
      BreakerStepRecords(s, e, id);
    }
  }

  lemma {:induction false} InvariantHolds(tr: Trace)
    requires Legal(tr)
    ensures Inv(Replay(tr))
  {
    if tr.Then? {
      var s := Replay(tr.before);
      InvariantHolds(tr.before);
      PlansStep(s, tr.event);
      RecordsStep(s, tr.event);
      ControlStep(s, tr.event);
      ClaimsStep(s, tr.event);
      SnapshotsStep(s, tr.event);
      BreakerStep(s, tr.event);
    }
  }

  /** A record that left `Authorized` has a receipt, bound to its own id, digest, action and state: so a
      repeat has something to answer with, and recovery never meets an interrupted record without one. */
  lemma EveryRecordIsBound(tr: Trace, id: string)
    requires Legal(tr) && id in Replay(tr).disk.operations && !Replay(tr).disk.operations[id].state.Authorized?
    ensures var r := Replay(tr).disk.operations[id];
            && r.receipt.Some? && r.receipt.value.operationId == id == r.operationId
            && r.receipt.value.digest == r.digest && r.receipt.value.action == r.action && r.receipt.value.state == r.state
  {
    InvariantHolds(tr);
  }

  // ----- one execution per operation and plan, for ever -----

  /** The execution under way is this operation's. */
  ghost predicate Of(s: State, operationId: string) {
    match s.control
    case Working(request, _, _) => request.grant.operationId == operationId
    case _ => false
  }

  /** How often `handler.Execute` ran for this operation under this plan, over the whole run. */
  ghost function Executions(tr: Trace, operationId: string, plan: PlanId): nat
    requires Legal(tr)
  {
    if tr.Start? then 0
    else
      var s := Replay(tr.before);
      Executions(tr.before, operationId, plan) +
      if tr.event.Execute? && Of(s, operationId) && s.control.plan.id == plan then 1 else 0
  }

  ghost predicate Expired(s: State, plan: PlanId) {
    plan in s.issued && s.issued[plan] <= s.now
  }

  /** What still stops a second execution: the operation's record, or the plan's expiry. The record
      may go once it is an hour old, and a plan never outlives that hour. */
  ghost predicate Spent(s: State, operationId: string, plan: PlanId) {
    || Expired(s, plan)
    || (&& plan in s.issued && operationId in s.disk.operations
        && !s.disk.operations[operationId].state.Authorized?
        && s.issued[plan] <= s.disk.operations[operationId].updatedAt + PLAN_LIFETIME + GRANT_SKEW)
  }

  /** An execution under way for this operation and plan that has not called the handler yet. */
  ghost predicate Pending(c: Control, operationId: string, plan: PlanId) {
    match c
    case Planned(request, p) => request.grant.operationId == operationId && p.id == plan
    case Working(request, p, phase) =>
      && request.grant.operationId == operationId && p.id == plan
      && (PhaseState(phase).None? || PhaseState(phase).value.Authorized? || phase.Launched?)
    case _ => false
  }

  ghost predicate ReplayGuard(tr: Trace, operationId: string, plan: PlanId)
    requires Legal(tr)
  {
    var s := Replay(tr);
    var n := Executions(tr, operationId, plan);
    && n <= 1
    && (n == 1 ==> Spent(s, operationId, plan) && !Pending(s.control, operationId, plan))
    && (n == 1 && s.control.Looked? && s.control.request.grant.operationId == operationId ==> Expired(s, plan))
  }

  lemma IssuedStays(s: State, e: Event, plan: PlanId)
    requires PlansOk(s) && Enabled(s, e) && plan in s.issued
    ensures var t := Apply(s, e); plan in t.issued && t.issued[plan] == s.issued[plan] && s.now <= t.now
  {
  }

  /** A record only ages: it keeps its digest, and once it left `Authorized` it never returns there. */
  lemma RecordStays(s: State, e: Event, id: string)
    requires RecordsOk(s) && ControlOk(s) && Enabled(s, e) && id in s.disk.operations && e != DropRecord(id)
    ensures var ops := NextOperations(s, e);
            && id in ops && ops[id].digest == s.disk.operations[id].digest
            && ops[id].updatedAt >= s.disk.operations[id].updatedAt
            && (ops[id].state.Authorized? ==> ops[id] == s.disk.operations[id])
  {
  }

  lemma SpentStays(s: State, e: Event, operationId: string, plan: PlanId)
    requires PlansOk(s) && RecordsOk(s) && ControlOk(s) && Enabled(s, e) && Spent(s, operationId, plan)
    ensures Spent(Apply(s, e), operationId, plan)
  {
    IssuedStays(s, e, plan);
    if !Expired(s, plan) && e != DropRecord(operationId) {
      RecordStays(s, e, operationId);
    }
  }

  lemma PendingStarts(s: State, e: Event, operationId: string, plan: PlanId)
    requires PlansOk(s) && Enabled(s, e)
    requires !Pending(s.control, operationId, plan) && Pending(NextControl(s, e), operationId, plan)
    ensures e.CheckPlan? && !Expired(s, plan) && s.control.request.grant.operationId == operationId
  {
    match e
    case Advance =>
    case _ =>
  }

  lemma LookupBlocked(s: State, e: Event, operationId: string, plan: PlanId)
    requires RecordsOk(s) && Enabled(s, e) && Spent(s, operationId, plan)
    requires e.Lookup? && e.request.grant.operationId == operationId
    ensures Expired(s, plan)
  {
  }

  lemma ExecutionSpends(s: State, e: Event)
    requires PlansOk(s) && ControlOk(s) && Enabled(s, e) && e.Execute?
    ensures var t := Apply(s, e);
            var id, plan := s.control.request.grant.operationId, s.control.plan.id;
            Pending(s.control, id, plan) && Spent(t, id, plan) && !Pending(t.control, id, plan) && t.control.Working?
  {
    RecordFrame(s, e);
  }

  lemma GuardStep(s: State, e: Event, operationId: string, plan: PlanId)
    requires Inv(s) && Enabled(s, e)
    requires Spent(s, operationId, plan) && !Pending(s.control, operationId, plan)
    requires s.control.Looked? && s.control.request.grant.operationId == operationId ==> Expired(s, plan)
    ensures var t := Apply(s, e);
            && Spent(t, operationId, plan) && !Pending(t.control, operationId, plan)
            && (t.control.Looked? && t.control.request.grant.operationId == operationId ==> Expired(t, plan))
  {
    SpentStays(s, e, operationId, plan);
    IssuedStays(s, e, plan);
    if Pending(NextControl(s, e), operationId, plan) {
      PendingStarts(s, e, operationId, plan);
      assert false;
    }
    if e.Lookup? && e.request.grant.operationId == operationId {
      LookupBlocked(s, e, operationId, plan);
    }
  }

  lemma {:induction false} ReplayGuardHolds(tr: Trace, operationId: string, plan: PlanId)
    requires Legal(tr)
    ensures ReplayGuard(tr, operationId, plan)
  {
    if tr.Then? {
      var s, e := Replay(tr.before), tr.event;
      ReplayGuardHolds(tr.before, operationId, plan);
      InvariantHolds(tr.before);
      if e.Execute? {
        ExecutionSpends(s, e);
      }
      if Executions(tr.before, operationId, plan) == 1 {
        GuardStep(s, e, operationId, plan);
      }
    }
  }

  /** Replay protection survives the deletion of its own evidence: over any run, with any crashes and
      prune steps, an operation executes at most once under one plan. */
  lemma AtMostOnePerPlan(tr: Trace, operationId: string, plan: PlanId)
    requires Legal(tr)
    ensures Executions(tr, operationId, plan) <= 1
  {
    ReplayGuardHolds(tr, operationId, plan);
  }

  /** How often `handler.Execute` ran for one signed grant. */
  ghost function GrantExecutions(tr: Trace, grant: Grant): nat
    requires Legal(tr)
  {
    if tr.Start? then 0
    else
      var s := Replay(tr.before);
      GrantExecutions(tr.before, grant) +
      if tr.event.Execute? && s.control.request.grant == grant then 1 else 0
  }

  lemma {:induction false} GrantCountedByPlan(tr: Trace, grant: Grant)
    requires Legal(tr)
    ensures GrantExecutions(tr, grant) <= Executions(tr, grant.operationId, grant.planId)
  {
    if tr.Then? {
      GrantCountedByPlan(tr.before, grant);
      InvariantHolds(tr.before);
    }
  }

  /** One signed grant executes at most once. */
  lemma AtMostOncePerGrant(tr: Trace, grant: Grant)
    requires Legal(tr)
    ensures GrantExecutions(tr, grant) <= 1
  {
    GrantCountedByPlan(tr, grant);
    AtMostOnePerPlan(tr, grant.operationId, grant.planId);
  }

  // ----- what a durable state says about the host -----

  datatype Outcome = NotRun | Ran(mutated: bool, ok: bool) | Reverted(full: bool)

  /** What the handler last did for the operation's current record. */
  ghost function HostOutcome(tr: Trace, operationId: string): Outcome
    requires Legal(tr)
  {
    if tr.Start? then NotRun
    else NextOutcome(Replay(tr.before), tr.event, operationId, HostOutcome(tr.before, operationId))
  }

  ghost function NextOutcome(s: State, e: Event, operationId: string, outcome: Outcome): Outcome
    requires Enabled(s, e)
  {
    if !Of(s, operationId) then outcome
    else match e
      case CreateRecord => NotRun
      case Execute(mutated, ok) => Ran(mutated, ok)
      case Rollback(restored) => Reverted(restored && s.control.phase.prepared.coverage.Full?)
      case _ => outcome
  }

  /** How often the handler executed for the operation's current record. */
  ghost function RecordExecutions(tr: Trace, operationId: string): nat
    requires Legal(tr)
  {
    if tr.Start? then 0
    else NextExecutions(Replay(tr.before), tr.event, operationId, RecordExecutions(tr.before, operationId))
  }

  ghost function NextExecutions(s: State, e: Event, operationId: string, n: nat): nat {
    if !Of(s, operationId) then n else if e.CreateRecord? then 0 else if e.Execute? then n + 1 else n
  }

  ghost predicate StateTruth(state: JournalState, outcome: Outcome, managed: bool) {
    match state
    case Authorized => outcome.NotRun?
    case Succeeded => outcome.Ran? && outcome.ok && (outcome.mutated || managed)
    case FailedBeforeMutation => outcome.NotRun? || (outcome.Ran? && !outcome.mutated)
    case Mutated => outcome.Ran? && outcome.mutated
    case Validated => outcome == Ran(true, true)
    case RolledBack => outcome == Reverted(true)
    case RollbackFailed => outcome == Reverted(false)
    case RollbackRunning => outcome == Ran(true, false) || outcome.Reverted?
    case _ => true
  }

  ghost predicate PhaseTruth(phase: Phase, outcome: Outcome) {
    match phase
    case Launched(_) => outcome.NotRun?
    case Executed(_, mutated, ok) => outcome == Ran(mutated, ok)
    case Committed(_, ok) => outcome == Ran(true, ok)
    case RollingBack(_) => outcome == Ran(true, false)
    case Undone(_, full) => outcome == Reverted(full)
    case Tripped(_) => outcome == Reverted(false)
    case _ => true
  }

  ghost predicate TruthAt(s: State, id: string, outcome: Outcome) {
    && (id in s.disk.operations ==>
          StateTruth(s.disk.operations[id].state, outcome, s.disk.operations[id].digest.request.managed))
    && (Of(s, id) ==> PhaseTruth(s.control.phase, outcome))
  }

  lemma RecordElsewhere(s: State, e: Event, id: string)
    requires Enabled(s, e) && !Of(s, id) && id in NextOperations(s, e)
    ensures id in s.disk.operations
    ensures NextOperations(s, e)[id].state.OutcomeIndeterminate? || NextOperations(s, e)[id] == s.disk.operations[id]
  {
  }

  lemma NotOfStays(s: State, e: Event, id: string)
    requires Enabled(s, e) && !Of(s, id) && NextControl(s, e).Working?
    requires NextControl(s, e).request.grant.operationId == id
    ensures NextControl(s, e).phase.Cleared?
  {
  }

  lemma TruthElsewhere(s: State, e: Event, id: string, outcome: Outcome)
    requires Enabled(s, e) && TruthAt(s, id, outcome) && !Of(s, id)
    ensures TruthAt(Apply(s, e), id, outcome)
  {
    var t := Apply(s, e);
    assert t.control == NextControl(s, e) && t.disk.operations == NextOperations(s, e);
    if id in t.disk.operations {
      RecordElsewhere(s, e, id);
    }
    if Of(t, id) {
      NotOfStays(s, e, id);
    }
  }

  lemma TruthAdvance(s: State, id: string, outcome: Outcome)
    requires ControlOk(s) && Enabled(s, Advance) && TruthAt(s, id, outcome) && Of(s, id)
    ensures TruthAt(Apply(s, Advance), id, outcome)
  {
    AdvanceEffect(s);
    var t := Apply(s, Advance);
    assert t.control == NextControl(s, Advance) && t.disk.operations == NextOperations(s, Advance);
    var write := NextWrite(s.control.phase, s.control.request.managed);
    assert StateTruth(write.state, outcome, s.control.request.managed);
  }

  lemma TruthRecordStep(s: State, e: Event, id: string, outcome: Outcome)
    requires Inv(s) && Enabled(s, e) && TruthAt(s, id, outcome) && Of(s, id) && RecordEvent(e) && !e.Advance?
    ensures TruthAt(Apply(s, e), id, NextOutcome(s, e, id, outcome))
  {
  }

  lemma TruthOtherStep(s: State, e: Event, id: string, outcome: Outcome)
    requires Inv(s) && Enabled(s, e) && TruthAt(s, id, outcome) && Of(s, id) && !RecordEvent(e)
    ensures TruthAt(Apply(s, e), id, NextOutcome(s, e, id, outcome))
  {
    RecordFrame(s, e);
  }

  /** A durable state tells the truth about what the handler did. */
  lemma {:induction false} DurableStateIsTruthful(tr: Trace, id: string)
    requires Legal(tr)
    ensures TruthAt(Replay(tr), id, HostOutcome(tr, id))
  {
    if tr.Then? {
      var s, e, outcome := Replay(tr.before), tr.event, HostOutcome(tr.before, id);
      DurableStateIsTruthful(tr.before, id);
      InvariantHolds(tr.before);
      if !Of(s, id) {
        TruthElsewhere(s, e, id, outcome);
      } else if e.Advance? {
        TruthAdvance(s, id, outcome);
      } else if RecordEvent(e) {
        TruthRecordStep(s, e, id, outcome);
      } else {
        TruthOtherStep(s, e, id, outcome);
      }
    }
  }

  ghost predicate RunsOnce(s: State, id: string, n: nat) {
    && (id in s.disk.operations ==> n <= 1 && (s.disk.operations[id].state.Authorized? ==> n == 0))
    && (Of(s, id) && s.control.phase.Launched? ==> n == 0)
  }

  lemma RunsOnceAdvance(s: State, id: string, n: nat)
    requires ControlOk(s) && Enabled(s, Advance) && RunsOnce(s, id, n)
    ensures RunsOnce(Apply(s, Advance), id, n)
  {
    AdvanceEffect(s);
    var t := Apply(s, Advance);
    assert t.control == NextControl(s, Advance) && t.disk.operations == NextOperations(s, Advance);
  }

  lemma LaunchedByAdvance(s: State, e: Event)
    requires Enabled(s, e) && !e.Advance?
    requires NextControl(s, e).Working? && NextControl(s, e).phase.Launched?
    ensures NextControl(s, e) == s.control && !e.Execute?
  {
    match e
    case Execute(_, _) =>
    case Rollback(_) =>
    case Prepare(_) =>
    case TripBreaker(_) =>
    case _ =>
  }

  lemma RunsOnceQuiet(s: State, e: Event, id: string, n: nat)
    requires ControlOk(s) && Enabled(s, e) && RunsOnce(s, id, n) && !RecordEvent(e)
    requires NextOperations(s, e) == s.disk.operations
    ensures RunsOnce(Apply(s, e), id, NextExecutions(s, e, id, n))
  {
    var t := Apply(s, e);
    assert t.control == NextControl(s, e);
    if Of(t, id) && t.control.phase.Launched? {
      LaunchedByAdvance(s, e);
    }
  }

  lemma RunsOnceStep(s: State, e: Event, id: string, n: nat)
    requires Inv(s) && Enabled(s, e) && RunsOnce(s, id, n)
    ensures RunsOnce(Apply(s, e), id, NextExecutions(s, e, id, n))
  {
    if e.Advance? {
      RunsOnceAdvance(s, id, n);
    } else if RecordEvent(e) {
      assert e.Execute? == false;
    } else {
      RecordFrame(s, e);
      RunsOnceQuiet(s, e, id, n);
    }
  }

  /** While its record exists, an operation executes at most once, whatever crashes and repeats come. */
  lemma {:induction false} RecordExecutesOnce(tr: Trace, id: string)
    requires Legal(tr)
    ensures RunsOnce(Replay(tr), id, RecordExecutions(tr, id))
  {
    if tr.Then? {
      RecordExecutesOnce(tr.before, id);
      InvariantHolds(tr.before);
      RunsOnceStep(Replay(tr.before), tr.event, id, RecordExecutions(tr.before, id));
    }
  }

  // ----- the breaker is a latch -----

  /** A call that may change the host. */
  predicate HandlerEvent(e: Event) {
    e.Prepare? || e.Execute? || e.Rollback?
  }

  ghost function HandlerCalls(tr: Trace): nat {
    match tr
    case Start(_) => 0
    case Then(before, e) => HandlerCalls(before) + if HandlerEvent(e) then 1 else 0
  }

  lemma {:induction false} BreakerLatches(base: Trace, tr: Trace)
    requires Legal(tr) && Extends(tr, base) && Legal(base) && Replay(base).disk.breaker
    ensures Replay(tr).disk.breaker && HandlerCalls(tr) == HandlerCalls(base)
  {
    if tr != base {
      BreakerLatches(base, tr.before);
      InvariantHolds(tr.before);
    }
  }

  /** A durable rollback failure never exists without the durable breaker, at any crash point. */
  lemma RollbackFailureImpliesBreaker(tr: Trace, id: string)
    requires Legal(tr)
    requires id in Replay(tr).disk.operations && Replay(tr).disk.operations[id].state.RollbackFailed?
    ensures Replay(tr).disk.breaker
  {
    InvariantHolds(tr);
  }

  // ----- claims and records -----

  /** The claim of `g`, if a crash now could leave one readable. */
  ghost predicate Readable(s: State, g: string) {
    g in s.disk.claims || g in s.disk.unsynced
  }

  ghost function ClaimOf(s: State, g: string): Claim
    requires Readable(s, g)
  {
    if g in s.disk.claims then s.disk.claims[g] else s.disk.unsynced[g]
  }

  /** The record that consumed grant `g` is still there. */
  ghost predicate Owned(s: State, g: string) {
    Readable(s, g) && ClaimOf(s, g).operationId in s.disk.operations && s.disk.operations[ClaimOf(s, g).operationId].grantId == g
  }

  lemma ClaimKept(s: State, e: Event, g: string)
    requires Inv(s) && Enabled(s, e) && !e.DropClaim? && !e.WriteClaim? && !e.Crash? && Readable(Apply(s, e), g)
    ensures Readable(s, g) && ClaimOf(Apply(s, e), g) == ClaimOf(s, g)
  {
    if !ClaimEvent(e) {
      ClaimFrame(s, e);
    }
  }

  lemma ClaimKeptByClaimWrites(s: State, e: Event, g: string)
    requires Inv(s) && Enabled(s, e) && (e.DropClaim? || e.WriteClaim? || e.Crash?) && Readable(Apply(s, e), g)
    requires e.WriteClaim? ==> s.control.request.grant.grantId != g
    ensures Readable(s, g) && ClaimOf(Apply(s, e), g) == ClaimOf(s, g)
  {
  }

  /** A record is not dropped while the claim it consumed can still be read. */
  lemma OwnerNotDropped(s: State, e: Event, g: string)
    requires Inv(s) && Enabled(s, e) && Owned(s, g)
    ensures e != DropRecord(ClaimOf(s, g).operationId)
  {
  }

  /** What a step that claims nothing for `g` leaves of its claim, its record has not left either. */
  lemma OwnershipStep(s: State, e: Event, g: string)
    requires Inv(s) && Enabled(s, e) && Readable(Apply(s, e), g)
    requires e.WriteClaim? ==> s.control.request.grant.grantId != g
    ensures Readable(s, g) && ClaimOf(Apply(s, e), g) == ClaimOf(s, g)
    ensures Owned(s, g) ==> Owned(Apply(s, e), g) && OwnerDigest(Apply(s, e), g) == OwnerDigest(s, g)
  {
    if e.DropClaim? || e.WriteClaim? || e.Crash? {
      ClaimKeptByClaimWrites(s, e, g);
    } else {
      ClaimKept(s, e, g);
    }
    if Owned(s, g) {
      OwnerNotDropped(s, e, g);
      RecordStays(s, e, ClaimOf(s, g).operationId);
      RecordsStep(s, e);
    }
  }

  ghost function OwnerDigest(s: State, g: string): Digest
    requires Owned(s, g)
  {
    s.disk.operations[ClaimOf(s, g).operationId].digest
  }

  /** From `tr` to `later` no operation claims the grant. */
  ghost predicate Unclaimed(tr: Trace, later: Trace, g: string)
    requires Legal(later)
  {
    later == tr ||
    (&& later.Then? && Unclaimed(tr, later.before, g)
     && (later.event.WriteClaim? ==> Replay(later.before).control.request.grant.grantId != g))
  }

  /** A claim never outlives the record that consumed it: however a run goes on, through prune passes,
      crashes and restarts, as long as the claim can be read it is the same claim and the same record is
      there. Only a new operation claiming the grant can bind it anew. */
  lemma {:induction false} ClaimNeverOutlivesRecord(tr: Trace, later: Trace, g: string)
    requires Legal(tr) && Legal(later) && Extends(later, tr) && Unclaimed(tr, later, g)
    requires Owned(Replay(tr), g) && Readable(Replay(later), g)
    ensures Owned(Replay(later), g) && ClaimOf(Replay(later), g) == ClaimOf(Replay(tr), g)
    ensures OwnerDigest(Replay(later), g) == OwnerDigest(Replay(tr), g)
    decreases later
  {
    if later != tr {
      InvariantHolds(later.before);
      OwnershipStep(Replay(later.before), later.event, g);
      ClaimNeverOutlivesRecord(tr, later.before, g);
    }
  }

  /** No second operation can consume the grant of a record that may still change. */
  lemma LiveRecordKeepsItsGrant(tr: Trace, id: string, other: string)
    requires Legal(tr)
    requires id in Replay(tr).disk.operations && !Prunable(Replay(tr).disk.operations[id].state)
    requires other in Replay(tr).disk.operations && other != id
    requires Replay(tr).disk.operations[other].grantId == Replay(tr).disk.operations[id].grantId
    ensures Prunable(Replay(tr).disk.operations[other].state)
  {
    InvariantHolds(tr);
  }

  // ----- runs together with the state they lead to -----

  /** A run and its last state. */
  datatype History = History(trace: Trace, state: State)

  ghost function Length(tr: Trace): nat {
    match tr case Start(_) => 0 case Then(before, _) => Length(before) + 1
  }

  /** The trace is legal and leads to the state. Said of its length, so that a proof that uses the state does
      not take the run apart. */
  ghost predicate Happened(h: History) {
    forall n: nat | n == Length(h.trace) :: HappenedIn(h, n)
  }

  ghost predicate HappenedIn(h: History, n: nat) {
    n == Length(h.trace) && Legal(h.trace) && Replay(h.trace) == h.state
  }

  ghost function After(h: History, e: Event): History
    requires Enabled(h.state, e)
  {
    History(Then(h.trace, e), Apply(h.state, e))
  }

  lemma HappenedNext(h: History, e: Event)
    requires Happened(h) && Enabled(h.state, e)
    ensures Happened(After(h, e))
  {
    assert HappenedIn(h, Length(h.trace));
    assert HappenedIn(After(h, e), Length(After(h, e).trace));
  }

  lemma HappenedIs(h: History)
    requires Happened(h)
    ensures Legal(h.trace) && Replay(h.trace) == h.state && Inv(h.state)
  {
    assert HappenedIn(h, Length(h.trace));
    InvariantHolds(h.trace);
  }

  lemma HappenedAtStart(at: Time)
    ensures Happened(History(Start(at), Initial(at)))
  {
    assert HappenedIn(History(Start(at), Initial(at)), 0);
  }
}
