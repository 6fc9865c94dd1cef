/** The execution of one signed grant, for host actions and managed applies alike.

    The action handler is the host: its answers are arbitrary (`*`). Each call is noted in the
    journal's history, each journal write may fail, and `journal.Valid()` at the end says that whatever
    happened was a legal run of the protocol. */
module HelperEngine {
  import opened HelperProtocol
  import opened HelperTheorems
  import opened HelperJournal

  datatype Refusal =
    | GrantInvalid
    | ConflictingRequest
    | GrantExpired
    | PlanNotFound
    | PlanMismatch
    | StalePlan
    | ActionUnavailable
    | Indeterminate
    | JournalFailure

  datatype Response = Receipted(receipt: Receipt) | Refused(why: Refusal)

  /** Each write the engine makes is an edge of the journal's state graph. */
  lemma WritesAreEdges(phase: Phase, managed: bool)
    requires !NextWrite(phase, managed).NoWrite?
    ensures PhaseState(phase).Some? && CanTransition(PhaseState(phase).value, NextWrite(phase, managed).state)
  {
  }

  lemma AdvanceIsEnabled(h: History)
    requires Happened(h) && h.state.control.Working?
    requires !NextWrite(h.state.control.phase, h.state.control.request.managed).NoWrite?
    ensures Enabled(h.state, Advance)
  {
    HappenedIs(h);
    WritesAreEdges(h.state.control.phase, h.state.control.request.managed);
  }

  lemma AuthorizedWithoutReceipt(tr: Trace, id: string)
    requires Legal(tr) && !HasReceipt(Replay(tr).disk, id)
    ensures id in Replay(tr).disk.operations ==> Replay(tr).disk.operations[id].state.Authorized?
  {
    InvariantHolds(tr);
  }

  lemma AdvanceMoves(s: State)
    requires s.control.Working? && Enabled(s, Advance)
    ensures NextControl(s, Advance) == match NextWrite(s.control.phase, s.control.request.managed)
              case Onward(_, after) => Working(s.control.request, s.control.plan, after)
              case _ => Idle
  {
  }

  /** The record of `receipt` is there with it, and no other record changed. */
  ghost predicate Written(before: map<string, Record>, after: map<string, Record>, receipt: Receipt) {
    && receipt.operationId in after && after[receipt.operationId].receipt == Some(receipt)
    && OthersKept(before, after, receipt.operationId)
  }

  ghost predicate OthersKept(before: map<string, Record>, after: map<string, Record>, id: string) {
    forall other | other in after && other != id :: other in before && after[other] == before[other]
  }

  /** The answer is bound to the request and is what the record holds; nobody else's record moved. */
  ghost predicate Answered(
    request: Request, before: map<string, Record>, after: map<string, Record>, response: Response)
  {
    && OthersKept(before, after, request.grant.operationId)
    && (response.Receipted? ==>
          && response.receipt.operationId == request.grant.operationId
          && response.receipt.digest == DigestOf(request)
          && request.grant.operationId in after
          && after[request.grant.operationId].receipt == Some(response.receipt))
  }

  lemma AnsweredLater(
    request: Request, a: map<string, Record>, b: map<string, Record>, c: map<string, Record>, response: Response)
    requires OthersKept(a, b, request.grant.operationId) && Answered(request, b, c, response)
    ensures Answered(request, a, c, response)
  {
  }

  class Engine {
    const journal: Journal
    const actions: set<Action>

    constructor (journal: Journal, actions: set<Action>)
      ensures this.journal == journal && this.actions == actions
    {
      this.journal, this.actions := journal, actions;
    }

    /** The execution under way is this request's, in this phase. */
    ghost predicate At(request: Request, plan: Plan, phase: Phase)
      requires journal.Valid()
      reads journal
    {
      journal.Control() == Working(request, plan, phase)
    }

    /** Writes the state that ends the current phase, with its receipt. */
    method Write(request: Request, plan: Plan, ghost phase: Phase, prepared: Prepared, next: JournalState)
      returns (ok: bool, receipt: Receipt)
      requires journal.Valid() && At(request, plan, phase)
      requires !NextWrite(phase, request.managed).NoWrite? && next == NextWrite(phase, request.managed).state
      requires prepared == PreparedIn(phase, plan)
      modifies journal`operations, journal`clock, journal`history
      ensures journal.Valid() && Calm(journal.history, old(journal.history))
      ensures receipt == ReceiptFor(request, plan, prepared, next, journal.clock)
      ensures !ok ==> At(request, plan, phase) && journal.operations == old(journal.operations)
      ensures ok ==> Written(old(journal.operations), journal.operations, receipt)
      ensures ok ==> journal.Control() == match NextWrite(phase, request.managed)
                       case Onward(_, after) => Working(request, plan, after)
                       case _ => Idle
    {
      var now := journal.ReadClock();
      receipt := ReceiptFor(request, plan, prepared, next, now);
      AdvanceIsEnabled(journal.history);
      ghost var before := journal.history;
      ok := journal.Transition(request.grant.operationId, next, receipt);
      if ok {
        AdvanceMoves(before.state);
        CalmTransitive(journal.history, before, old(journal.history));
      }
    }

    /** A write the execution goes on from; when it fails, the execution is given up. */
    method WriteOn(request: Request, plan: Plan, ghost phase: Phase, prepared: Prepared, next: JournalState)
      returns (ok: bool)
      requires journal.Valid() && At(request, plan, phase)
      requires NextWrite(phase, request.managed).Onward? && next == NextWrite(phase, request.managed).state
      requires prepared == PreparedIn(phase, plan)
      modifies journal`operations, journal`clock, journal`history
      ensures journal.Valid() && Extends(journal.history.trace, old(journal.history).trace)
      ensures OthersKept(old(journal.operations), journal.operations, request.grant.operationId)
      ensures journal.Control() == if ok then Working(request, plan, NextWrite(phase, request.managed).phase) else Idle
    {
      var receipt;
      ok, receipt := Write(request, plan, phase, prepared, next);
      if !ok {
        ghost var before := journal.history;
        Stop();
        ExtendsTransitive(journal.history.trace, before.trace, old(journal.history).trace);
      }
    }

    /** Gives the execution up: whatever is durable stays. */
    ghost method Stop()
      requires journal.Valid() && !journal.Control().Down?
      modifies journal`history
      ensures journal.Valid() && Calm(journal.history, old(journal.history)) && journal.Control().Idle?
    {
      journal.Log(Return);
    }

    /** Everything between the receipt lookup and the journal: grant lifetime, plan, plan expiry, terms,
        compiled action, rediscovery of the host facts, breaker. */
    method Admit(request: Request) returns (refusal: Option<Refusal>, plan: Plan)
      requires journal.Valid() && journal.Control().Idle? && request.authentic
      requires !HasReceipt(journal.history.state.disk, request.grant.operationId)
      modifies journal`clock, journal`history
      ensures journal.Valid() && Calm(journal.history, old(journal.history))
      ensures refusal.Some? ==> journal.Control().Idle?
      ensures refusal.Some? ==> Justified(request, refusal.value)
      ensures refusal.None? ==>
                && At(request, plan, Cleared) && !journal.breakerIsOpen
                && request.grant.planId in journal.plans && plan == journal.plans[request.grant.planId]
                && plan.terms == request.grant.terms
    {
      var grant := request.grant;
      plan := Plan(grant.planId, grant.terms, NoCoverage, 0);
      ghost var t0 := journal.history;
      journal.Log(Lookup(request));
      ghost var t1 := journal.history;
      var now := journal.ReadClock();
      CalmTransitive(journal.history, t1, t0);
      ghost var t2 := journal.history;
      if now < grant.issuedAt - GRANT_SKEW || grant.expiresAt <= now {
        Stop();
        CalmTransitive(journal.history, t2, t0);
        return Some(GrantExpired), plan;
      }
      journal.Log(CheckGrant);
      CalmTransitive(journal.history, t2, t0);
      refusal, plan := AdmitPlan(request);
      CalmTransitive(journal.history, After(t2, CheckGrant), t0);
    }

    /** A refusal before the journal says what is wrong; only `StalePlan` may also mean that the host
        facts changed. */
    ghost predicate Justified(request: Request, why: Refusal)
      reads journal
    {
      var grant := request.grant;
      match why
      case GrantExpired => journal.clock < grant.issuedAt - GRANT_SKEW || grant.expiresAt <= journal.clock
      case PlanNotFound => grant.planId !in journal.plans
      case PlanMismatch => grant.planId in journal.plans && journal.plans[grant.planId].terms != grant.terms
      case ActionUnavailable => !request.managed && grant.terms.action !in actions
      case Indeterminate => journal.breakerIsOpen
      case StalePlan => grant.planId in journal.plans
      case _ => false
    }

    /** The checks against the stored plan, the host and the breaker; `rediscovered` is the handler's word
        that the host facts are still those of the plan. */
    method CheckStoredPlan(request: Request, plan: Plan) returns (refusal: Option<Refusal>)
      requires request.grant.planId in journal.plans && plan == journal.plans[request.grant.planId]
      ensures refusal.Some? ==> Justified(request, refusal.value)
      ensures refusal.None? ==> journal.clock < plan.expiresAt && plan.terms == request.grant.terms && !journal.breakerIsOpen
    {
      var rediscovered: bool := *;
      return
        if plan.expiresAt <= journal.clock then Some(StalePlan)
        else if request.grant.terms != plan.terms then Some(PlanMismatch)
        else if !request.managed && plan.terms.action !in actions then Some(ActionUnavailable)
        else if !rediscovered then Some(StalePlan)
        else if journal.breakerIsOpen then Some(Indeterminate)
        else None;
    }

    ghost method LogAdmission(request: Request, plan: Plan)
      requires journal.Valid() && journal.Control() == Looked(request, true)
      requires request.grant.planId in journal.plans && plan == journal.plans[request.grant.planId]
      requires journal.clock < plan.expiresAt && plan.terms == request.grant.terms && !journal.breakerIsOpen
      modifies journal`history
      ensures journal.Valid() && Calm(journal.history, old(journal.history)) && At(request, plan, Cleared)
    {
      journal.Log(CheckPlan);
      ghost var t1 := journal.history;
      journal.Log(PassBreaker);
      CalmTransitive(journal.history, t1, old(journal.history));
    }

    method AdmitPlan(request: Request) returns (refusal: Option<Refusal>, plan: Plan)
      requires journal.Valid() && journal.Control() == Looked(request, true)
      modifies journal`clock, journal`history
      ensures journal.Valid() && Calm(journal.history, old(journal.history))
      ensures refusal.Some? ==> journal.Control().Idle?
      ensures refusal.Some? ==> Justified(request, refusal.value)
      ensures refusal.None? ==>
                && At(request, plan, Cleared) && !journal.breakerIsOpen
                && request.grant.planId in journal.plans && plan == journal.plans[request.grant.planId]
                && plan.terms == request.grant.terms
    {
      var grant := request.grant;
      if grant.planId !in journal.plans {
        Stop();
        return Some(PlanNotFound), Plan(grant.planId, grant.terms, NoCoverage, 0);
      }
      plan := journal.plans[grant.planId];
      var now := journal.ReadClock();
      ghost var t1 := journal.history;
      refusal := CheckStoredPlan(request, plan);
      if refusal.Some? {
        Stop();
      } else {
        LogAdmission(request, plan);
      }
      CalmTransitive(journal.history, t1, old(journal.history));
    }

    /** The handler captures the pre-state; with coverage it stores a snapshot of it. */
    method PrepareAction(request: Request, plan: Plan) returns (prepared: Option<Prepared>)
      requires journal.Valid() && At(request, plan, Begun)
      modifies journal`snapshots, journal`history
      ensures journal.Valid() && Extends(journal.history.trace, old(journal.history).trace)
      ensures prepared.Some? ==> ValidFor(prepared.value, plan.coverage) && At(request, plan, Ready(prepared.value))
      ensures prepared.None? ==> At(request, plan, Unprepared)
    {
      var coverage: Coverage, captured: Option<string>, failed: bool := *, *, *;
      ghost var t0 := journal.history;
      if captured.Some? && !failed {
        var stored := journal.StoreSnapshot(request.grant.operationId, captured.value);
        failed := !stored;
      }
      prepared := if failed then None else Some(Prepared(coverage, captured));
      ghost var t1 := journal.history;
      journal.Log(Prepare(prepared));
      ExtendsTransitive(journal.history.trace, t1.trace, t0.trace);
      if prepared.Some? && !ValidFor(prepared.value, plan.coverage) {
        prepared := None;
      }
    }

    /** From the captured pre-state to the final receipt. */
    method Perform(request: Request, plan: Plan, prepared: Prepared) returns (response: Response)
      requires journal.Valid() && At(request, plan, Ready(prepared))
      modifies journal`operations, journal`breakerFile, journal`breakerIsOpen, journal`clock, journal`history
      ensures journal.Valid() && Extends(journal.history.trace, old(journal.history).trace) && journal.Control().Idle?
      ensures Answered(request, old(journal.operations), journal.operations, response)
    {
      ghost var t0, ops0 := journal.history, journal.operations;
      var ok := WriteOn(request, plan, Ready(prepared), prepared, Running);
      if !ok {
        return Refused(JournalFailure);
      }
      ghost var t1, ops1 := journal.history, journal.operations;
      response := CallHandler(request, plan, prepared);
      ExtendsTransitive(journal.history.trace, t1.trace, t0.trace);
      AnsweredLater(request, ops0, ops1, journal.operations, response);
    }

    /** The one call of the handler's execute, and what its result leads to. */
    method CallHandler(request: Request, plan: Plan, prepared: Prepared) returns (response: Response)
      requires journal.Valid() && At(request, plan, Launched(prepared))
      modifies journal`operations, journal`breakerFile, journal`breakerIsOpen, journal`clock, journal`history
      ensures journal.Valid() && Extends(journal.history.trace, old(journal.history).trace) && journal.Control().Idle?
      ensures Answered(request, old(journal.operations), journal.operations, response)
    {
      ghost var t0 := journal.history;
      var mutated: bool, success: bool := *, *;
      journal.Log(Event.Execute(mutated, success));
      ghost var t1 := journal.history;
      if mutated {
        response := Settle(request, plan, prepared, success);
      } else {
        var next := if request.managed && success then Succeeded else FailedBeforeMutation;
        response := WriteLast(request, plan, Executed(prepared, mutated, success), prepared, next);
      }
      ExtendsTransitive(journal.history.trace, t1.trace, t0.trace);
    }

    /** The last write of an execution and the answer it allows. */
    method WriteLast(request: Request, plan: Plan, ghost phase: Phase, prepared: Prepared, next: JournalState)
      returns (response: Response)
      requires journal.Valid() && At(request, plan, phase)
      requires NextWrite(phase, request.managed) == Final(next) && prepared == PreparedIn(phase, plan)
      modifies journal`operations, journal`clock, journal`history
      ensures journal.Valid() && Calm(journal.history, old(journal.history)) && journal.Control().Idle?
      ensures Answered(request, old(journal.operations), journal.operations, response)
      ensures response.Receipted? ==> response.receipt.state == next
    {
      var ok, receipt := Write(request, plan, phase, prepared, next);
      if ok {
        return Receipted(receipt);
      }
      ghost var before := journal.history;
      Stop();
      CalmTransitive(journal.history, before, old(journal.history));
      return Refused(JournalFailure);
    }

    /** After a mutation: record it, then validate or roll back. */
    method Settle(request: Request, plan: Plan, prepared: Prepared, success: bool) returns (response: Response)
      requires journal.Valid() && At(request, plan, Executed(prepared, true, success))
      modifies journal`operations, journal`breakerFile, journal`breakerIsOpen, journal`clock, journal`history
      ensures journal.Valid() && Extends(journal.history.trace, old(journal.history).trace) && journal.Control().Idle?
      ensures Answered(request, old(journal.operations), journal.operations, response)
    {
      ghost var t0, ops0 := journal.history, journal.operations;
      var ok := WriteOn(request, plan, Executed(prepared, true, success), prepared, Mutated);
      if !ok {
        return Refused(JournalFailure);
      }
      ghost var t1, ops1 := journal.history, journal.operations;
      if success {
        response := Accept(request, plan, prepared);
      } else {
        response := RollBack(request, plan, prepared);
      }
      ExtendsTransitive(journal.history.trace, t1.trace, t0.trace);
      AnsweredLater(request, ops0, ops1, journal.operations, response);
    }

    method Accept(request: Request, plan: Plan, prepared: Prepared) returns (response: Response)
      requires journal.Valid() && At(request, plan, Committed(prepared, true))
      modifies journal`operations, journal`clock, journal`history
      ensures journal.Valid() && Extends(journal.history.trace, old(journal.history).trace) && journal.Control().Idle?
      ensures Answered(request, old(journal.operations), journal.operations, response)
      ensures response.Receipted? ==> response.receipt.state == Succeeded
    {
      ghost var t0, ops0 := journal.history, journal.operations;
      var ok := WriteOn(request, plan, Committed(prepared, true), prepared, Validated);
      if !ok {
        return Refused(JournalFailure);
      }
      ghost var t1, ops1 := journal.history, journal.operations;
      response := WriteLast(request, plan, Checked(prepared), prepared, Succeeded);
      ExtendsTransitive(journal.history.trace, t1.trace, t0.trace);
      AnsweredLater(request, ops0, ops1, journal.operations, response);
    }

    /** Rolls the host back. Only full coverage and a clean rollback count as rolled back; anything else
        opens the breaker before the failure is recorded. */
    method RollBack(request: Request, plan: Plan, prepared: Prepared) returns (response: Response)
      requires journal.Valid() && At(request, plan, Committed(prepared, false))
      modifies journal`operations, journal`breakerFile, journal`breakerIsOpen, journal`clock, journal`history
      ensures journal.Valid() && Extends(journal.history.trace, old(journal.history).trace) && journal.Control().Idle?
      ensures Answered(request, old(journal.operations), journal.operations, response)
      ensures response.Receipted? ==>
                && (response.receipt.state.RolledBack? || response.receipt.state.RollbackFailed?)
                && (prepared.coverage != Full ==> response.receipt.state.RollbackFailed?)
                && (response.receipt.state.RollbackFailed? ==> journal.breakerFile && journal.breakerIsOpen)
    {
      ghost var t0, ops0 := journal.history, journal.operations;
      var ok := WriteOn(request, plan, Committed(prepared, false), prepared, RollbackRunning);
      if !ok {
        return Refused(JournalFailure);
      }
      ghost var t1, ops1 := journal.history, journal.operations;
      response := RestoreHost(request, plan, prepared);
      ExtendsTransitive(journal.history.trace, t1.trace, t0.trace);
      AnsweredLater(request, ops0, ops1, journal.operations, response);
    }

    /** Calls the handler's rollback and records how it went. */
    method RestoreHost(request: Request, plan: Plan, prepared: Prepared) returns (response: Response)
      requires journal.Valid() && At(request, plan, RollingBack(prepared))
      modifies journal`operations, journal`breakerFile, journal`breakerIsOpen, journal`clock, journal`history
      ensures journal.Valid() && Extends(journal.history.trace, old(journal.history).trace) && journal.Control().Idle?
      ensures Answered(request, old(journal.operations), journal.operations, response)
      ensures response.Receipted? ==>
                && (response.receipt.state.RolledBack? || response.receipt.state.RollbackFailed?)
                && (prepared.coverage != Full ==> response.receipt.state.RollbackFailed?)
                && (response.receipt.state.RollbackFailed? ==> journal.breakerFile && journal.breakerIsOpen)
    {
      ghost var t0 := journal.history;
      var restored: bool := *;
      journal.Log(Rollback(restored));
      ghost var t1 := journal.history;
      if restored && prepared.coverage == Full {
        response := WriteLast(request, plan, Undone(prepared, true), prepared, RolledBack);
      } else {
        response := RecordFailure(request, plan, prepared);
      }
      ExtendsTransitive(journal.history.trace, t1.trace, t0.trace);
    }

    method RecordFailure(request: Request, plan: Plan, prepared: Prepared) returns (response: Response)
      requires journal.Valid() && At(request, plan, Undone(prepared, false))
      modifies journal`operations, journal`breakerFile, journal`breakerIsOpen, journal`clock, journal`history
      ensures journal.Valid() && Extends(journal.history.trace, old(journal.history).trace) && journal.Control().Idle?
      ensures Answered(request, old(journal.operations), journal.operations, response)
      ensures response.Receipted? ==>
                response.receipt.state.RollbackFailed? && journal.breakerFile && journal.breakerIsOpen
    {
      ghost var t0 := journal.history;
      var tripped := journal.OpenBreaker();
      if !tripped {
        return Refused(JournalFailure);
      }
      ghost var t1 := journal.history;
      response := WriteLast(request, plan, Tripped(prepared), prepared, RollbackFailed);
      ExtendsTransitive(journal.history.trace, t1.trace, t0.trace);
    }

    /** Claims the grant, creates the record, prepares and performs. */
    method Start(request: Request, plan: Plan) returns (response: Response)
      requires journal.Valid() && At(request, plan, Cleared)
      requires !HasReceipt(journal.history.state.disk, request.grant.operationId)
      modifies journal`operations, journal`claims, journal`unsynced, journal`snapshots, journal`breakerFile,
               journal`breakerIsOpen, journal`clock, journal`history
      ensures journal.Valid() && Extends(journal.history.trace, old(journal.history).trace) && journal.Control().Idle?
      ensures Answered(request, old(journal.operations), journal.operations, response)
      ensures old(Replayed(request)) ==> response.Refused? && Calm(journal.history, old(journal.history))
    {
      ghost var t0, ops0 := journal.history, journal.operations;
      HappenedIs(journal.history);
      AuthorizedWithoutReceipt(journal.history.trace, request.grant.operationId);
      assert request.grant.operationId in ops0 ==> ops0[request.grant.operationId].state.Authorized?;
      var begun := journal.BeginOperation(
        request.grant.operationId, request.grant.grantId, DigestOf(request), RequestAction(request, plan));
      ghost var t1, ops1 := journal.history, journal.operations;
      if begun.Existing? || begun.Fresh? {
        assert journal.Control().phase == Begun;
        response := Run(request, plan);
        ExtendsTransitive(journal.history.trace, t1.trace, t0.trace);
        AnsweredLater(request, ops0, ops1, journal.operations, response);
        return;
      }
      Stop();
      CalmTransitive(journal.history, t1, t0);
      response := Refused(match begun
                          case GrantReplay => GrantInvalid
                          case RequestConflict => ConflictingRequest
                          case _ => JournalFailure);
    }

    /** The grant was consumed by another operation, or the operation is bound to other terms. */
    ghost predicate Replayed(request: Request)
      reads journal
    {
      var g := request.grant;
      if g.operationId in journal.operations then
        journal.operations[g.operationId].grantId != g.grantId || journal.operations[g.operationId].digest != DigestOf(request)
      else
        g.grantId in journal.claims && journal.claims[g.grantId] != Claim(g.operationId, DigestOf(request))
    }

    method Run(request: Request, plan: Plan) returns (response: Response)
      requires journal.Valid() && At(request, plan, Begun)
      modifies journal`operations, journal`snapshots, journal`breakerFile, journal`breakerIsOpen, journal`clock, journal`history
      ensures journal.Valid() && Extends(journal.history.trace, old(journal.history).trace) && journal.Control().Idle?
      ensures Answered(request, old(journal.operations), journal.operations, response)
    {
      ghost var t0 := journal.history;
      var prepared := PrepareAction(request, plan);
      ghost var t1 := journal.history;
      if prepared.Some? {
        response := Perform(request, plan, prepared.value);
      } else {
        response := WriteLast(request, plan, Unprepared, Prepared(plan.coverage, None), FailedBeforeMutation);
      }
      ExtendsTransitive(journal.history.trace, t1.trace, t0.trace);
    }

    /** A managed apply that finds nothing to change is answered without journaling anything. */
    method ConvergedReceipt(request: Request, plan: Plan) returns (receipt: Option<Receipt>)
      requires journal.Valid() && At(request, plan, Cleared)
      ensures receipt.Some? ==>
                request.managed && receipt.value == ReceiptFor(request, plan, Prepared(NoCoverage, None), Succeeded, journal.clock)
    {
      var converged: bool := *;
      if request.managed && converged {
        return Some(ReceiptFor(request, plan, Prepared(NoCoverage, None), Succeeded, journal.clock));
      }
      return None;
    }

    /** What an answer given without a journal write looks like. */
    ghost predicate Unjournaled(request: Request, response: Response) {
      && request.managed && response.Receipted? && response.receipt.state == Succeeded
      && response.receipt.coverage == NoCoverage && response.receipt.snapshot == None
      && response.receipt.operationId == request.grant.operationId && response.receipt.digest == DigestOf(request)
    }

    method Process(request: Request) returns (response: Response)
      requires journal.Valid() && journal.Control().Idle?
      modifies journal`operations, journal`claims, journal`unsynced, journal`snapshots, journal`breakerFile,
               journal`breakerIsOpen, journal`clock, journal`history
      ensures journal.Valid() && Extends(journal.history.trace, old(journal.history).trace) && journal.Control().Idle?
      ensures var known := old(journal.GetReceipt(request.grant.operationId, DigestOf(request)));
              if !request.authentic then response == Refused(GrantInvalid) && journal.history == old(journal.history)
              else if known.Found? then response == Receipted(known.receipt) && journal.history == old(journal.history)
              else if known.Conflict? then response == Refused(ConflictingRequest) && journal.history == old(journal.history)
              else
                && (Answered(request, old(journal.operations), journal.operations, response)
                    || (Unjournaled(request, response) && Calm(journal.history, old(journal.history))))
                && (old(journal.breakerIsOpen) || old(Replayed(request)) || request.grant.planId !in old(journal.plans) ==>
                      Calm(journal.history, old(journal.history)))
                && (old(journal.breakerIsOpen) || request.grant.planId !in old(journal.plans) ==> response.Refused?)
      ensures OthersKept(old(journal.operations), journal.operations, request.grant.operationId)
    {
      if !request.authentic {
        return Refused(GrantInvalid);
      }
      var known := journal.GetReceipt(request.grant.operationId, DigestOf(request));
      if known.Found? {
        return Receipted(known.receipt);
      }
      if known.Conflict? {
        return Refused(ConflictingRequest);
      }
      ghost var t0 := journal.history;
      var refusal, plan := Admit(request);
      if refusal.Some? {
        return Refused(refusal.value);
      }
      ghost var t1 := journal.history;
      if known.Absent? {
        var receipt := ConvergedReceipt(request, plan);
        if receipt.Some? {
          Stop();
          CalmTransitive(journal.history, t1, t0);
          return Receipted(receipt.value);
        }
      }
      response := Start(request, plan);
      ExtendsTransitive(journal.history.trace, t1.trace, t0.trace);
      if Calm(journal.history, t1) {
        CalmTransitive(journal.history, t1, t0);
      }
    }

    /** One execute request. A journaled request gets its stored receipt back and nothing else happens;
        an operation bound to another request is refused; a replayed grant, an open breaker or a missing
        plan reach no handler. Retention runs after every request and may retire finished records. */
    method Execute(request: Request) returns (response: Response)
      requires journal.Valid() && journal.Control().Idle?
      modifies journal
      ensures journal.Valid() && Extends(journal.history.trace, old(journal.history).trace) && journal.Control().Idle?
      ensures var known := old(journal.GetReceipt(request.grant.operationId, DigestOf(request)));
              if !request.authentic then response == Refused(GrantInvalid) && Calm(journal.history, old(journal.history))
              else if known.Found? then response == Receipted(known.receipt) && Calm(journal.history, old(journal.history))
              else if known.Conflict? then response == Refused(ConflictingRequest) && Calm(journal.history, old(journal.history))
              else
                && (response.Receipted? ==>
                      response.receipt.operationId == request.grant.operationId && response.receipt.digest == DigestOf(request))
                && (response.Receipted? && request.grant.operationId in journal.operations && !Unjournaled(request, response) ==>
                      journal.operations[request.grant.operationId].receipt == Some(response.receipt))
                && (old(journal.breakerIsOpen) || old(Replayed(request)) || request.grant.planId !in old(journal.plans) ==>
                      Calm(journal.history, old(journal.history)))
      ensures OthersKept(old(journal.operations), journal.operations, request.grant.operationId)
      ensures AtMostOnce(journal.history.trace, request.grant)
    {
      ghost var t0 := journal.history;
      response := Process(request);
      ghost var t1, ops1 := journal.history, journal.operations;
      var _ := journal.ReadClock();
      ghost var t2 := journal.history;
      var _ := journal.PruneIfDue();
      CalmTransitive(journal.history, t2, t1);
      ExtendsTransitive(journal.history.trace, t1.trace, t0.trace);
      if Calm(t1, t0) {
        CalmTransitive(journal.history, t1, t0);
      }
      HappenedIs(journal.history);
      AtMostOncePerGrant(journal.history.trace, request.grant);
    }

    ghost predicate AtMostOnce(tr: Trace, grant: Grant) {
      Legal(tr) && GrantExecutions(tr, grant) <= 1
    }

    // ----- planning -----

    /** Plans a host action: a fresh UUID, good for the plan lifetime. */
    method PlanAction(terms: Terms, coverage: Coverage) returns (plan: Option<Plan>)
      requires journal.Valid() && !journal.Control().Down?
      modifies journal`plans, journal`clock, journal`draws, journal`history
      ensures journal.Valid() && Calm(journal.history, old(journal.history)) && journal.Control() == old(journal.Control())
      ensures plan.Some? ==>
                && plan.value.id.Uuid? && plan.value.id !in old(journal.plans)
                && plan.value.terms == terms && plan.value.expiresAt == journal.clock + PLAN_LIFETIME
                && plan.value.id in journal.plans && journal.plans[plan.value.id] == plan.value
    {
      ghost var t0 := journal.history;
      HappenedIs(t0);
      if terms.action !in actions {
        return None;
      }
      var now := journal.ReadClock();
      ghost var t1 := journal.history;
      var id := journal.DrawUuid();
      CalmTransitive(journal.history, t1, t0);
      ghost var t2 := journal.history;
      var drawn := Plan(id, terms, coverage, now + PLAN_LIFETIME);
      var stored := journal.StorePlan(drawn);
      CalmTransitive(journal.history, t2, t0);
      plan := if stored.Stored? || stored.AlreadyStored? then Some(drawn) else None;
    }

    /** Plans a managed apply: named by its material and expiry, so the same material with the same
        expiry is the same plan. A stored compatible plan that has not expired is used again. */
    method PlanManagedApply(terms: Terms, coverage: Coverage, material: string, issuedAt: Time, expiresAt: Time)
      returns (plan: Option<Plan>)
      requires journal.Valid() && !journal.Control().Down?
      modifies journal`plans, journal`clock, journal`history
      ensures journal.Valid() && Calm(journal.history, old(journal.history)) && journal.Control() == old(journal.Control())
      ensures plan.Some? ==>
                && plan.value.terms == terms && plan.value.coverage == coverage
                && plan.value.expiresAt <= journal.clock + PLAN_LIFETIME + GRANT_SKEW
                && plan.value.id in journal.plans && journal.plans[plan.value.id] == plan.value
    {
      ghost var t0 := journal.history;
      var now := journal.ReadClock();
      ghost var t1 := journal.history;
      HappenedIs(t1);
      if now < issuedAt - GRANT_SKEW || expiresAt <= now {
        return None;
      }
      var expires := if expiresAt < issuedAt + PLAN_LIFETIME then expiresAt else issuedAt + PLAN_LIFETIME;
      var compatible := set id | id in journal.plans && id.Derived? && journal.plans[id].terms == terms
                                 && journal.plans[id].coverage == coverage && now < journal.plans[id].expiresAt;
      if compatible != {} {
        var id :| id in compatible;
        return Some(journal.plans[id]);
      }
      var drawn := Plan(Derived(material, expires), terms, coverage, expires);
      var stored := journal.StorePlan(drawn);
      CalmTransitive(journal.history, t1, t0);
      plan := if stored.Stored? || stored.AlreadyStored? then Some(drawn) else None;
    }
  }
}
