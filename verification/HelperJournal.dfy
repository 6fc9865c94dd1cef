/** The durable journal of the privileged helper.

    The maps are the journal directories. `history` is the whole run of durable writes and handler
    calls; `Valid` says that it is a legal run of the protocol and that the fields are what the run
    leaves behind, so every theorem about legal runs holds of every valid journal. A write may fail
    (`*`) and then changes nothing. */
module HelperJournal {
  import opened HelperProtocol
  import opened HelperTheorems
  import Retention

  datatype LookupResult = Found(receipt: Receipt) | Conflict | Unfinished | Absent

  datatype BeginResult = Fresh(record: Record) | Existing(record: Record) | GrantReplay | RequestConflict | WriteFailed

  datatype StoreResult = Stored | AlreadyStored | PlanConflict | PlanQuota | StoreFailed

  /** `h` continues `base` without a handler call. */
  ghost predicate Calm(h: History, base: History) {
    Extends(h.trace, base.trace) && HandlerCalls(h.trace) == HandlerCalls(base.trace)
  }

  /** ... and without moving the execution under way. */
  ghost predicate Quiet(h: History, base: History) {
    Calm(h, base) && h.state.control == base.state.control && h.state.issued == base.state.issued
  }

  predicate Silent(e: Event) {
    || e.Lookup? || e.CheckGrant? || e.CheckPlan? || e.PassBreaker? || e.Prepare? || e.Execute? || e.Rollback? || e.Return?
  }

  lemma CalmTransitive(c: History, b: History, a: History)
    requires Calm(c, b) && Calm(b, a)
    ensures Calm(c, a)
  {
    ExtendsTransitive(c.trace, b.trace, a.trace);
  }

  lemma CrashEffect(s: State, undone: set<string>)
    requires undone <= s.disk.unsynced.Keys
    ensures Apply(s, Crash(undone)) ==
              s.(disk := s.disk.(claims := Restored(s.disk.claims, s.disk.unsynced, undone), unsynced := map[]),
                 breakerOpen := s.disk.breaker, control := Down(false))
  {
  }

  /** The claim is written; that syncs the directory, which settles earlier deletions. */
  lemma WriteClaimEffect(s: State, g: Grant)
    requires s.control.Working? && s.control.phase.Cleared? && s.control.request.grant == g
    requires g.operationId !in s.disk.operations && g.grantId !in s.disk.claims
    ensures Enabled(s, WriteClaim)
    ensures Apply(s, WriteClaim) ==
              s.(disk := s.disk.(claims := s.disk.claims[g.grantId := Claim(g.operationId, DigestOf(s.control.request))], unsynced := map[]),
                 control := s.control.(phase := Claimed))
  {
  }

  /** A claim that this very request left is taken as it is. */
  lemma ReuseClaimEffect(s: State, g: Grant)
    requires s.control.Working? && s.control.phase.Cleared? && s.control.request.grant == g
    requires g.operationId !in s.disk.operations && g.grantId in s.disk.claims
    requires s.disk.claims[g.grantId] == Claim(g.operationId, DigestOf(s.control.request))
    ensures Enabled(s, ReuseClaim) && Apply(s, ReuseClaim) == s.(control := s.control.(phase := Claimed))
  {
  }

  /** What a capacity pass leaves once only the plans of `todo` are still to be looked at. */
  ghost predicate Purged(
    before: map<PlanId, Plan>, after: map<PlanId, Plan>, todo: set<PlanId>, derived: bool, now: Time)
  {
    && (forall id | id in after :: id in before && after[id] == before[id])
    && (forall id | id in before && id !in todo ::
          id in after <==> id.Derived? != derived || now < before[id].expiresAt)
    && (forall id | id in todo :: id in after)
  }

  const JOURNAL_PRUNE_INTERVAL := HOUR
  const PRUNE_BATCH_SIZE := 256

  /** What a removal compares before it trusts an earlier selection. */
  predicate SameVersion(current: Record, selected: Record) {
    current.state == selected.state && current.updatedAt == selected.updatedAt && current.grantId == selected.grantId
  }

  ghost predicate Listed(batch: seq<Record>, current: Record) {
    exists r :: r in batch && r.operationId == current.operationId && SameVersion(current, r)
  }

  /** Only records listed in `batch` are gone; nothing else changed. */
  ghost predicate Shrunk(before: map<string, Record>, after: map<string, Record>, batch: seq<Record>) {
    && (forall id | id in after :: id in before && after[id] == before[id])
    && (forall id | id in before && id !in after :: Listed(batch, before[id]))
  }

  /** The effect of a retention pass, in terms of the records alone. */
  ghost predicate ClearedOf(before: map<string, Record>, after: map<string, Record>, now: Time, clean: bool) {
    var pruned := Retention.PruneSet(Retention.Candidates(before), now);
    && (forall id | id in after :: id in before && after[id] == before[id])
    && (forall id | id in before && id !in after :: before[id] in pruned)
    && (clean ==> forall id | id in before && before[id] in pruned :: id !in after)
  }

  lemma PrunedAreOld(records: map<string, Record>, now: Time, expired: seq<Record>)
    requires Retention.Elements(expired) == Retention.PruneSet(Retention.Candidates(records), now)
    ensures forall r | r in expired ::
              && Prunable(r.state) && now - r.updatedAt >= RETENTION_MIN_AGE
              && r.operationId in records && records[r.operationId] == r
  {
    forall r | r in expired
      ensures Prunable(r.state) && now - r.updatedAt >= RETENTION_MIN_AGE
      ensures r.operationId in records && records[r.operationId] == r
    {
      assert r in Retention.Elements(expired);
      Retention.PrunedIsOldAndOffFloor(Retention.Candidates(records), now, r);
    }
  }

  lemma BatchGone(
    first: map<string, Record>, before: map<string, Record>, after: map<string, Record>,
    expired: seq<Record>, start: nat, end: nat, clean: bool)
    requires start <= end <= |expired|
    requires Shrunk(first, before, expired) && Shrunk(before, after, expired[start..end])
    requires forall r | r in expired :: r.operationId in first && first[r.operationId] == r
    requires clean ==> forall r | r in expired[start..end] && r.operationId in after :: !SameVersion(after[r.operationId], r)
    ensures Shrunk(first, after, expired)
    ensures clean ==> forall k | start <= k < end :: expired[k].operationId !in after
  {
    forall id | id in first && id !in after ensures Listed(expired, first[id]) {
      if id in before {
        var r :| r in expired[start..end] && r.operationId == before[id].operationId && SameVersion(before[id], r);
        assert r in expired;
      }
    }
    forall k | start <= k < end && clean ensures expired[k].operationId !in after {
      assert expired[k] == expired[start..end][k - start];
    }
  }

  lemma ClearedByBatches(
    before: map<string, Record>, after: map<string, Record>, now: Time, expired: seq<Record>, clean: bool)
    requires forall id | id in before :: before[id].operationId == id
    requires Retention.Elements(expired) == Retention.PruneSet(Retention.Candidates(before), now)
    requires forall r | r in expired :: r.operationId in before && before[r.operationId] == r
    requires Shrunk(before, after, expired)
    requires clean ==> forall k | 0 <= k < |expired| :: expired[k].operationId !in after
    ensures ClearedOf(before, after, now, clean)
  {
    forall id | id in before && id !in after ensures before[id] in Retention.Elements(expired) {
      var r :| r in expired && r.operationId == before[id].operationId && SameVersion(before[id], r);
      assert r == before[id];
    }
    forall id | id in before && before[id] in Retention.Elements(expired) && clean ensures id !in after {
      var k :| 0 <= k < |expired| && expired[k] == before[id];
    }
  }

  /** Only claims consumed by records listed in `batch` are gone. */
  ghost predicate ClaimsShrunk(before: map<string, Claim>, after: map<string, Claim>, batch: seq<Record>) {
    && (forall g | g in after :: g in before && after[g] == before[g])
    && (forall g | g in before && g !in after :: Consumes(batch, g, before[g]))
  }

  lemma ClaimsShrunkFurther(
    first: map<string, Claim>, before: map<string, Claim>, after: map<string, Claim>, batch: seq<Record>, one: Record)
    requires ClaimsShrunk(first, before, batch) && ClaimsShrunk(before, after, [one]) && one in batch
    ensures ClaimsShrunk(first, after, batch)
  {
    forall g | g in first && g !in after ensures Consumes(batch, g, first[g]) {
      if g in before {
        assert Consumes([one], g, before[g]);
      }
    }
  }

  ghost predicate Consumes(batch: seq<Record>, g: string, claim: Claim) {
    exists r :: r in batch && r.grantId == g && r.operationId == claim.operationId
  }

  lemma OfKindWithout(plans: map<PlanId, Plan>, id: PlanId, derived: bool)
    ensures OfKind(plans - {id}, derived) == OfKind(plans, derived) - {id}
  {
  }

  class Journal {
    var plans: map<PlanId, Plan>
    var operations: map<string, Record>
    var claims: map<string, Claim>
    var snapshots: map<string, string>
    var breakerFile: bool
    var breakerIsOpen: bool
    var lastPrune: Option<Time>
    var clock: Time
    var draws: nat
    var unsynced: map<string, Claim>
    ghost var history: History

    ghost predicate Valid()
      reads this
    {
      && Happened(history)
      && var s := history.state;
         && s.disk == Disk(plans, operations, claims, unsynced, snapshots, breakerFile)
         && s.breakerOpen == breakerIsOpen && s.now == clock && s.draws == draws
    }

    ghost function Control(): Control
      requires Valid()
      reads this
    {
      history.state.control
    }

    /** A fresh state directory. */
    constructor (at: Time)
      ensures Valid() && history.trace == Start(at) && operations == map[] && !breakerIsOpen
    {
      plans, operations, claims, snapshots := map[], map[], map[], map[];
      breakerFile, breakerIsOpen, lastPrune, clock, draws := false, false, None, at, 0;
      unsynced, history := map[], History(Start(at), Initial(at));
      HappenedAtStart(at);
    }

    /** The process dies and `NewJournal` opens the directories again. A claim deletion that was never
        synced may come back. */
    method Reopen(undone: set<string>)
      requires Valid() && undone <= unsynced.Keys
      modifies this
      ensures Valid() && history == After(old(history), Crash(undone)) && Control() == Down(false)
      ensures plans == old(plans) && operations == old(operations) && snapshots == old(snapshots)
      ensures breakerFile == old(breakerFile) && breakerIsOpen == breakerFile
      ensures claims == Restored(old(claims), old(unsynced), undone)
    {
      claims := Restored(claims, unsynced, undone);
      breakerIsOpen, lastPrune := breakerFile, None;
      CrashEffect(history.state, undone);
      HappenedNext(history, Crash(undone));
      unsynced, history := map[], After(history, Crash(undone));
    }

    /** Notes a step that leaves the disk alone: a check the engine passed, or a handler call. */
    ghost method Log(e: Event)
      requires Valid() && Silent(e) && Enabled(history.state, e)
      modifies `history
      ensures Valid() && history == After(old(history), e) && Control() == NextControl(old(history).state, e)
      ensures history.state.issued == old(history).state.issued
    {
      HappenedNext(history, e);
      history := After(history, e);
    }

    method ReadClock() returns (now: Time)
      requires Valid()
      modifies `clock, `history
      ensures Valid() && now == clock >= old(clock)
      ensures Quiet(history, old(history))
    {
      now := *;
      if now < clock {
        now := clock;
      }
      HappenedNext(history, Tick(now));
      clock, history := now, After(history, Tick(now));
    }

    /** A random UUID is a draw that never comes twice. */
    method DrawUuid() returns (id: PlanId)
      requires Valid()
      modifies `draws, `history
      ensures Valid() && id == Uuid(old(draws)) && draws == old(draws) + 1
      ensures Quiet(history, old(history)) && id !in history.state.issued
    {
      id := Uuid(draws);
      HappenedIs(history);
      HappenedNext(history, Draw);
      draws, history := draws + 1, After(history, Draw);
    }

    // ----- plans -----

    method DropPlan(id: PlanId)
      requires Valid() && id in plans && plans[id].expiresAt <= clock
      modifies `plans, `history
      ensures Valid() && plans == old(plans) - {id} && Quiet(history, old(history))
    {
      HappenedNext(history, Event.DropPlan(id));
      plans, history := plans - {id}, After(history, Event.DropPlan(id));
    }

    /** Expired plans of the kind are removed; what is left must be below the quota. */
    method EnsurePlanCapacity(derived: bool) returns (ok: bool)
      requires Valid()
      modifies `plans, `history
      ensures Valid() && Quiet(history, old(history))
      ensures Purged(old(plans), plans, {}, derived, clock)
      ensures ok == (|OfKind(plans, derived)| < MAX_STORED_PLANS)
    {
      var remaining := 0;
      var todo := OfKind(plans, derived);
      while todo != {}
        invariant Valid() && Quiet(history, old(history))
        invariant todo <= OfKind(plans, derived) && remaining == |OfKind(plans, derived)| - |todo|
        invariant Purged(old(plans), plans, todo, derived, clock)
      {
        var id :| id in todo;
        todo := todo - {id};
        if clock < plans[id].expiresAt {
          remaining := remaining + 1;
        } else {
          ghost var before := history;
          OfKindWithout(plans, id, derived);
          DropPlan(id);
          CalmTransitive(history, before, old(history));
        }
      }
      ok := remaining < MAX_STORED_PLANS;
    }

    /** Stores a plan under its identity, once. A full journal first loses its expired plans. */
    method StorePlan(plan: Plan) returns (result: StoreResult)
      requires Valid() && !Control().Down? && plan.expiresAt <= clock + PLAN_LIFETIME + GRANT_SKEW
      requires plan.id.Uuid? ==> plan.id !in history.state.issued && plan.id.draw < draws
      requires plan.id.Derived? ==> plan.expiresAt == plan.id.expiresAt
      modifies `plans, `history
      ensures Valid() && Calm(history, old(history)) && Control() == old(Control())
      ensures result.PlanConflict? <==> plan.id in old(plans) && old(plans)[plan.id] != plan
      ensures result.AlreadyStored? <==> plan.id in old(plans) && old(plans)[plan.id] == plan
      ensures result.AlreadyStored? || result.PlanConflict? ==> plans == old(plans)
      ensures result.Stored? ==> plan.id in plans && plans[plan.id] == plan
      ensures forall id | id in old(plans) && clock < old(plans)[id].expiresAt :: id in plans && plans[id] == old(plans)[id]
      ensures forall id | id in plans :: (id in old(plans) && plans[id] == old(plans)[id]) || (result.Stored? && id == plan.id)
    {
      if plan.id in plans {
        return if plans[plan.id] == plan then AlreadyStored else PlanConflict;
      }
      var room := EnsurePlanCapacity(plan.id.Derived?);
      if !room {
        return PlanQuota;
      }
      var failed: bool := *;
      if failed {
        return StoreFailed;
      }
      ghost var before := history;
      HappenedNext(history, Event.StorePlan(plan));
      plans, history := plans[plan.id := plan], After(history, Event.StorePlan(plan));
      CalmTransitive(history, before, old(history));
      return Stored;
    }

    // ----- operations -----

    function GetReceipt(operationId: string, digest: Digest): (result: LookupResult)
      reads this
      ensures result.Absent? <==> operationId !in operations
      ensures result.Conflict? <==> operationId in operations && operations[operationId].digest != digest
      ensures result.Found? ==> operations[operationId].receipt == Some(result.receipt)
    {
      if operationId !in operations then Absent
      else if operations[operationId].digest != digest then Conflict
      else if operations[operationId].receipt.None? then Unfinished
      else Found(operations[operationId].receipt.value)
    }

    /** The grant claim: written once, or found as this very request left it. */
    method ClaimGrant(grantId: string, claim: Claim) returns (ok: bool)
      requires Valid() && Control().Working? && Control().phase.Cleared?
      requires var request := Control().request;
               && grantId == request.grant.grantId && claim == Claim(request.grant.operationId, DigestOf(request))
               && request.grant.operationId !in operations
      requires grantId in claims ==> claims[grantId] == claim
      modifies `claims, `unsynced, `history
      ensures Valid() && Calm(history, old(history))
      ensures Control() == if ok then old(Control()).(phase := Claimed) else old(Control())
      ensures ok ==> claims == old(claims)[grantId := claim]
      ensures !ok ==> claims == old(claims)
    {
      if grantId in claims {
        ReuseClaimEffect(history.state, Control().request.grant);
        HappenedNext(history, ReuseClaim);
        history := After(history, ReuseClaim);
        return true;
      }
      var failed: bool := *;
      if failed {
        return false;
      }
      WriteClaimEffect(history.state, Control().request.grant);
      HappenedNext(history, WriteClaim);
      claims, unsynced := claims[grantId := claim], map[];
      history := After(history, WriteClaim);
      return true;
    }

    method CreateRecord(record: Record) returns (ok: bool)
      requires Valid() && Control().Working? && Control().phase.Claimed?
      requires record == FreshRecord(Control().request, Control().plan, clock) && record.operationId !in operations
      modifies `operations, `history
      ensures Valid() && Calm(history, old(history))
      ensures Control() == if ok then old(Control()).(phase := Begun) else old(Control())
      ensures operations == if ok then old(operations)[record.operationId := record] else old(operations)
    {
      var failed: bool := *;
      if failed {
        return false;
      }
      HappenedNext(history, Event.CreateRecord);
      operations, history := operations[record.operationId := record], After(history, Event.CreateRecord);
      return true;
    }

    /** Claims the grant and then creates the authorized record; each is durable before the next step. */
    method BeginOperation(operationId: string, grantId: string, digest: Digest, action: Action) returns (result: BeginResult)
      requires Valid() && Control().Working? && Control().phase.Cleared?
      requires var request := Control().request;
               && operationId == request.grant.operationId && grantId == request.grant.grantId
               && digest == DigestOf(request) && action == RequestAction(request, Control().plan)
      modifies `operations, `claims, `unsynced, `history
      ensures Valid() && Calm(history, old(history))
      ensures Control().Working? && Control() == old(Control()).(phase := Control().phase)
      ensures operationId in old(operations) ==>
                && operations == old(operations) && claims == old(claims)
                && var r := old(operations)[operationId];
                   result == if r.grantId == grantId && r.digest == digest && r.action == action then Existing(r) else RequestConflict
      ensures operationId !in old(operations) && grantId in old(claims) && old(claims)[grantId] != Claim(operationId, digest) ==>
                result.GrantReplay? && operations == old(operations) && claims == old(claims)
      ensures result.Fresh? ==>
                && operationId !in old(operations)
                && result.record == Record(operationId, grantId, digest, action, Authorized, None, clock)
                && operations == old(operations)[operationId := result.record]
                && claims == old(claims)[grantId := Claim(operationId, digest)]
      ensures !result.Fresh? ==> operations == old(operations)
      ensures operationId !in old(operations) ==> result.GrantReplay? || result.Fresh? || result.WriteFailed?
      ensures Control().phase.Begun? <==> result.Fresh? || (result.Existing? && result.record.state.Authorized?)
    {
      if operationId in operations {
        var existing := operations[operationId];
        if existing.grantId != grantId || existing.digest != digest || existing.action != action {
          return RequestConflict;
        }
        if existing.state.Authorized? {
          HappenedNext(history, Resume);
          history := After(history, Resume);
        }
        return Existing(existing);
      }
      var claim := Claim(operationId, digest);
      if grantId in claims && claims[grantId] != claim {
        return GrantReplay;
      }
      var ok := ClaimGrant(grantId, claim);
      if !ok {
        return WriteFailed;
      }
      var record := Record(operationId, grantId, digest, action, Authorized, None, clock);
      ghost var before := history;
      ok := CreateRecord(record);
      CalmTransitive(history, before, old(history));
      return if ok then Fresh(record) else WriteFailed;
    }

    predicate Accepts(operationId: string, next: JournalState, receipt: Receipt)
      reads this
    {
      && operationId in operations
      && CanTransition(operations[operationId].state, next)
      && receipt.operationId == operations[operationId].operationId
      && receipt.digest == operations[operationId].digest
      && receipt.action == operations[operationId].action
      && receipt.state == next
    }

    /** Refuses a step the state graph lacks and a receipt that is not bound to the record. */
    method Transition(operationId: string, next: JournalState, receipt: Receipt) returns (ok: bool)
      requires Valid()
      requires Accepts(operationId, next, receipt) ==>
                 && Enabled(history.state, Advance) && operationId == Control().request.grant.operationId
                 && receipt == AdvanceReceipt(history.state)
      modifies `operations, `history
      ensures Valid()
      ensures !old(Accepts(operationId, next, receipt)) ==> !ok
      ensures ok ==> history == After(old(history), Advance)
      ensures ok ==> operations == old(operations)[operationId := Advanced(old(operations)[operationId], receipt)]
      ensures !ok ==> history == old(history) && operations == old(operations)
    {
      if !Accepts(operationId, next, receipt) {
        return false;
      }
      var failed: bool := *;
      if failed {
        return false;
      }
      operations := operations[operationId := Advanced(operations[operationId], receipt)];
      HappenedNext(history, Advance);
      history := After(history, Advance);
      return true;
    }

    /** Stores the pre-state of an operation once; an equal snapshot may be stored again. */
    method StoreSnapshot(operationId: string, content: string) returns (ok: bool)
      requires Valid() && Control().Working? && Control().phase.Begun? && operationId == Control().request.grant.operationId
      modifies `snapshots, `history
      ensures Valid() && Quiet(history, old(history))
      ensures ok ==> snapshots == old(snapshots)[operationId := content]
      ensures ok ==> operationId in old(snapshots) ==> old(snapshots)[operationId] == content
      ensures !ok ==> snapshots == old(snapshots)
    {
      if operationId in snapshots {
        return snapshots[operationId] == content;
      }
      var failed: bool := *;
      if failed {
        return false;
      }
      HappenedNext(history, Event.StoreSnapshot(content));
      snapshots, history := snapshots[operationId := content], After(history, Event.StoreSnapshot(content));
      return true;
    }

    /** Opens the breaker in memory even when the file cannot be written. */
    method OpenBreaker() returns (ok: bool)
      requires Valid()
      requires Control().Down? || (Control().Working? && Control().phase.Undone? && !Control().phase.full)
      modifies `breakerFile, `breakerIsOpen, `history
      ensures Valid() && breakerIsOpen && breakerFile == (old(breakerFile) || ok)
      ensures Calm(history, old(history))
      ensures Control() == if old(Control()).Down? then old(Control())
                           else if ok then old(Control()).(phase := Tripped(old(Control()).phase.prepared)) else Idle
    {
      var failed: bool := *;
      ok := !failed;
      breakerIsOpen, breakerFile := true, breakerFile || ok;
      HappenedNext(history, TripBreaker(ok));
      history := After(history, TripBreaker(ok));
    }

    method MarkIndeterminate(id: string) returns (ok: bool)
      requires Valid() && Control().Down? && id in operations && Interrupted(operations[id].state) && operations[id].receipt.Some?
      modifies `operations, `history
      ensures Valid() && Calm(history, old(history))
      ensures Control() == if ok then Down(true) else old(Control())
      ensures operations == if ok then old(operations)[id := Indeterminate(old(operations)[id], clock)] else old(operations)
    {
      var failed: bool := *;
      if failed {
        return false;
      }
      operations := operations[id := Indeterminate(operations[id], clock)];
      HappenedNext(history, Event.MarkIndeterminate(id));
      history := After(history, Event.MarkIndeterminate(id));
      return true;
    }

    /** Writes one interrupted record off and opens the breaker; a failed write opens it too. */
    method WriteOff(id: string) returns (ok: bool, ghost at: Time)
      requires Valid() && Control().Down? && id in operations && Interrupted(operations[id].state)
      modifies `operations, `breakerFile, `breakerIsOpen, `clock, `history
      ensures Valid() && Calm(history, old(history)) && Control().Down? && breakerIsOpen
      ensures operations == if ok then old(operations)[id := WrittenOff(old(operations)[id], at)] else old(operations)
      ensures ok ==> !Interrupted(operations[id].state)
    {
      HappenedIs(history);  // so the record has its receipt
      at := ReadClock();
      ghost var t1 := history;
      ok := MarkIndeterminate(id);
      CalmTransitive(history, t1, old(history));
      ghost var t2 := history;
      var _ := OpenBreaker();
      CalmTransitive(history, t2, old(history));
    }

    /** One directory entry of the restart pass. */
    method RecoverRecord(ghost first: map<string, Record>, ghost todo: set<string>, id: string) returns (ok: bool)
      requires Valid() && Control().Down? && id in operations && id !in todo
      requires Sweeping(first, operations, todo + {id}, true, breakerIsOpen)
      requires Control().converted ==> breakerIsOpen
      modifies `operations, `breakerFile, `breakerIsOpen, `clock, `history
      ensures Valid() && Calm(history, old(history)) && Control().Down? && (Control().converted ==> breakerIsOpen)
      ensures Sweeping(first, operations, todo, ok, breakerIsOpen)
      ensures old(breakerIsOpen) || !ok ==> breakerIsOpen
    {
      if !Interrupted(operations[id].state) {
        return true;
      }
      HappenedIs(history);
      ghost var swept := operations;
      ghost var at;
      ok, at := WriteOff(id);
      SweepOne(first, swept, todo, id, at, old(breakerIsOpen));
    }

    ghost method BeginServing()
      requires Valid() && Control().Down? && (Control().converted ==> breakerIsOpen)
      requires forall id | id in operations :: !Interrupted(operations[id].state)
      modifies `history
      ensures Valid() && Calm(history, old(history)) && Control().Idle?
    {
      HappenedNext(history, Serve);
      history := After(history, Serve);
    }

    /** The restart pass. When it succeeds no interrupted record is left, every converted record keeps
        its receipt but for state and time, and the breaker is open if any record changed. */
    method Recover() returns (ok: bool, ghost left: set<string>)
      requires Valid() && Control() == Down(false)
      modifies `operations, `breakerFile, `breakerIsOpen, `clock, `history
      ensures Valid() && Calm(history, old(history))
      ensures Sweeping(old(operations), operations, left, ok, breakerIsOpen)
      ensures ok ==> left == {} && Control().Idle?
      ensures old(breakerIsOpen) || !ok ==> breakerIsOpen
    {
      ok := true;
      var todo := operations.Keys;
      while todo != {} && ok
        invariant Valid() && Calm(history, old(history)) && Control().Down?
        invariant Control().converted ==> breakerIsOpen
        invariant todo <= operations.Keys && Sweeping(old(operations), operations, todo, ok, breakerIsOpen)
        invariant !ok || old(breakerIsOpen) ==> breakerIsOpen
      {
        var id :| id in todo;
        todo := todo - {id};
        ghost var before := history;
        ok := RecoverRecord(old(operations), todo, id);
        CalmTransitive(history, before, old(history));
      }
      left := todo;
      if ok {
        ghost var before := history;
        BeginServing();
        CalmTransitive(history, before, old(history));
      }
    }

    /** Where the pass stands when only `todo` is left: every other record is settled, and the breaker is
        open if one of them was written off. */
    static ghost predicate Sweeping(
      before: map<string, Record>, after: map<string, Record>, todo: set<string>, ok: bool, open: bool)
    {
      && after.Keys == before.Keys
      && (forall id | id in after :: Recovered(before[id], after[id]))
      && (forall id | id in after && id in todo :: after[id] == before[id])
      && (ok ==> forall id | id in after && id !in todo :: !Interrupted(after[id].state))
      && (open || forall id | id in after && id !in todo :: after[id] == before[id])
    }

    static lemma SweepOne(before: map<string, Record>, after: map<string, Record>, todo: set<string>, id: string, at: Time, open: bool)
      requires id in after && id !in todo && Sweeping(before, after, todo + {id}, true, open)
      requires Interrupted(after[id].state) && after[id].receipt.Some?
      ensures Sweeping(before, after[id := WrittenOff(after[id], at)], todo, true, true)
    {
    }

    static ghost function WrittenOff(before: Record, at: Time): Record {
      if before.receipt.Some? then Indeterminate(before, at) else before
    }

    /** `after` is `before`, or its interrupted execution written off. */
    static ghost predicate Recovered(before: Record, after: Record) {
      || after == before
      || (Interrupted(before.state) && exists at :: after == WrittenOff(before, at))
    }

    // ----- retention -----

    /** Removes the snapshot and the claim that one finished operation consumed. A claim bound to
        another operation is left alone. */
    method RemoveEvidence(record: Record) returns (gone: bool)
      requires Valid() && !Control().Down? && Retirable(history.state, record.operationId)
      requires operations[record.operationId] == record
      modifies `snapshots, `claims, `unsynced, `history
      ensures Valid() && Quiet(history, old(history))
      ensures gone ==> !ClaimedBy(claims, record.grantId, record.operationId)
      ensures claims == old(claims) || (ClaimedBy(old(claims), record.grantId, record.operationId) && claims == old(claims) - {record.grantId})
    {
      if record.operationId in snapshots {
        var failed: bool := *;
        if failed {
          return false;
        }
        HappenedNext(history, DropSnapshot(record.operationId));
        snapshots, history := snapshots - {record.operationId}, After(history, DropSnapshot(record.operationId));
      }
      if ClaimedBy(claims, record.grantId, record.operationId) {
        var failed: bool := *;
        if failed {
          return false;
        }
        ghost var before := history;
        DropClaim(record);
        CalmTransitive(history, before, old(history));
      }
      return true;
    }

    method DropClaim(record: Record)
      requires Valid() && !Control().Down? && Retirable(history.state, record.operationId)
      requires operations[record.operationId] == record && ClaimedBy(claims, record.grantId, record.operationId)
      modifies `claims, `unsynced, `history
      ensures Valid() && Quiet(history, old(history)) && claims == old(claims) - {record.grantId}
    {
      var g := record.grantId;
      unsynced := unsynced[g := claims[g]];
      HappenedNext(history, Event.DropClaim(record.operationId));
      claims, history := claims - {g}, After(history, Event.DropClaim(record.operationId));
    }

    method SyncDirectories() returns (ok: bool)
      requires Valid()
      modifies `unsynced, `history
      ensures Valid() && Quiet(history, old(history)) && (ok ==> unsynced == map[])
    {
      var failed: bool := *;
      if failed {
        return false;
      }
      HappenedNext(history, SyncDrops);
      unsynced, history := map[], After(history, SyncDrops);
      return true;
    }

    method DropRecord(record: Record) returns (ok: bool)
      requires Valid() && !Control().Down? && Retirable(history.state, record.operationId) && unsynced == map[]
      requires operations[record.operationId] == record && !ClaimedBy(claims, record.grantId, record.operationId)
      modifies `operations, `history
      ensures Valid() && Quiet(history, old(history))
      ensures operations == if ok then old(operations) - {record.operationId} else old(operations)
    {
      var failed: bool := *;
      if failed {
        return false;
      }
      HappenedNext(history, Event.DropRecord(record.operationId));
      operations, history := operations - {record.operationId}, After(history, Event.DropRecord(record.operationId));
      return true;
    }

    /** Removes the records whose evidence is gone. */
    method DropRecords(removable: seq<Record>) returns (clean: bool)
      requires Valid() && !Control().Down? && unsynced == map[]
      requires forall r | r in removable ::
                 Prunable(r.state) && clock - r.updatedAt >= RETENTION_MIN_AGE && !ClaimedBy(claims, r.grantId, r.operationId)
      requires forall r | r in removable && r.operationId in operations :: operations[r.operationId] == r
      modifies `operations, `history
      ensures Valid() && Quiet(history, old(history))
      ensures Shrunk(old(operations), operations, removable)
      ensures clean ==> forall r | r in removable :: r.operationId !in operations
    {
      clean := true;
      for index := 0 to |removable|
        invariant Valid() && Quiet(history, old(history))
        invariant Shrunk(old(operations), operations, removable)
        invariant clean ==> forall k | 0 <= k < index :: removable[k].operationId !in operations
      {
        var record := removable[index];
        if record.operationId in operations {
          ghost var before := history;
          var ok := DropRecord(record);
          CalmTransitive(history, before, old(history));
          clean := clean && ok;
        }
      }
    }

    predicate Matched(candidate: Record)
      reads this
    {
      candidate.operationId in operations && SameVersion(operations[candidate.operationId], candidate)
    }

    /** May lose its record: it is the stored one, and its claim is gone or bound elsewhere. */
    ghost predicate Removable(batch: seq<Record>, r: Record)
      reads this
    {
      && Listed(batch, r) && r.operationId in operations && operations[r.operationId] == r
      && !ClaimedBy(claims, r.grantId, r.operationId)
    }

    method RetireEvidence(candidate: Record) returns (gone: bool)
      requires Valid() && !Control().Down? && Matched(candidate)
      requires Prunable(candidate.state) && clock - candidate.updatedAt >= RETENTION_MIN_AGE
      modifies `snapshots, `claims, `unsynced, `history
      ensures Valid() && Quiet(history, old(history)) && ClaimsShrunk(old(claims), claims, [candidate])
      ensures var current := operations[candidate.operationId];
              current.operationId == candidate.operationId
              && (gone ==> !ClaimedBy(claims, current.grantId, current.operationId))
    {
      HappenedIs(history);
      gone := RemoveEvidence(operations[candidate.operationId]);
      assert candidate in [candidate];
    }

    /** The first half of a batch: every record still as it was selected loses its snapshot and claim. */
    method RemoveEvidences(batch: seq<Record>) returns (removable: seq<Record>, clean: bool)
      requires Valid() && !Control().Down?
      requires forall r | r in batch :: Prunable(r.state) && clock - r.updatedAt >= RETENTION_MIN_AGE
      modifies `snapshots, `claims, `unsynced, `history
      ensures Valid() && Quiet(history, old(history))
      ensures ClaimsShrunk(old(claims), claims, batch)
      ensures forall r | r in removable :: Removable(batch, r)
      ensures clean ==> forall r | r in batch && Matched(r) :: operations[r.operationId] in removable
    {
      clean, removable := true, [];
      for index := 0 to |batch|
        invariant Valid() && Quiet(history, old(history))
        invariant ClaimsShrunk(old(claims), claims, batch)
        invariant forall r | r in removable :: Removable(batch, r)
        invariant clean ==> forall k | 0 <= k < index && Matched(batch[k]) :: operations[batch[k].operationId] in removable
      {
        var candidate := batch[index];
        if Matched(candidate) {
          ghost var before, claimsBefore := history, claims;
          var gone := RetireEvidence(candidate);
          CalmTransitive(history, before, old(history));
          ClaimsShrunkFurther(old(claims), claimsBefore, claims, batch, candidate);
          if gone {
            removable := removable + [operations[candidate.operationId]];
          } else {
            clean := false;
          }
        }
      }
    }

    /** Snapshots and claims go first, then the directories are synced, and only then do the records go
        whose claim is gone. `clean` means that nothing failed. */
    method RemoveOperationBatch(batch: seq<Record>) returns (clean: bool)
      requires Valid() && !Control().Down?
      requires forall r | r in batch :: Prunable(r.state) && clock - r.updatedAt >= RETENTION_MIN_AGE
      modifies `operations, `snapshots, `claims, `unsynced, `history
      ensures Valid() && Quiet(history, old(history))
      ensures Shrunk(old(operations), operations, batch) && ClaimsShrunk(old(claims), claims, batch)
      ensures clean ==> forall r | r in batch && r.operationId in operations :: !SameVersion(operations[r.operationId], r)
    {
      HappenedIs(history);
      var removable;
      removable, clean := RemoveEvidences(batch);
      if removable == [] {
        return;
      }
      ghost var before := history;
      var synced := SyncDirectories();
      CalmTransitive(history, before, old(history));
      if !synced {
        return false;
      }
      ghost var after := history;
      var dropped := DropRecords(removable);
      CalmTransitive(history, after, old(history));
      clean := clean && dropped;
    }

    /** One retention pass over the whole journal. Everything it removes is in the pruned set of the
        records it started from; a pass without failures removes exactly that set. */
    method Prune() returns (clean: bool)
      requires Valid() && !Control().Down?
      modifies `operations, `snapshots, `claims, `unsynced, `lastPrune, `history
      ensures Valid() && Quiet(history, old(history))
      ensures ClearedOf(old(operations), operations, clock, clean)
      ensures forall g | g in claims :: g in old(claims) && claims[g] == old(claims)[g]
    {
      lastPrune := Some(clock);
      HappenedIs(history);
      var expired := Retention.PruneCandidates(operations, clock);
      PrunedAreOld(operations, clock, expired);
      clean := true;
      var start := 0;
      while start < |expired|
        invariant 0 <= start <= |expired|
        invariant Valid() && Quiet(history, old(history))
        invariant Shrunk(old(operations), operations, expired)
        invariant forall g | g in claims :: g in old(claims) && claims[g] == old(claims)[g]
        invariant clean ==> forall k | 0 <= k < start :: expired[k].operationId !in operations
      {
        var end := if start + PRUNE_BATCH_SIZE < |expired| then start + PRUNE_BATCH_SIZE else |expired|;
        ghost var before, opsBefore := history, operations;
        var batchClean := RemoveOperationBatch(expired[start..end]);
        CalmTransitive(history, before, old(history));
        BatchGone(old(operations), opsBefore, operations, expired, start, end, batchClean);
        clean := clean && batchClean;
        start := end;
      }
      ClearedByBatches(old(operations), operations, clock, expired, clean);
    }

    /** At most one pass an hour. */
    method PruneIfDue() returns (ran: bool)
      requires Valid() && !Control().Down?
      modifies `operations, `snapshots, `claims, `unsynced, `lastPrune, `history
      ensures Valid() && Quiet(history, old(history))
      ensures ran == (old(lastPrune).None? || clock - old(lastPrune).value >= JOURNAL_PRUNE_INTERVAL)
      ensures !ran ==> operations == old(operations) && claims == old(claims)
      ensures ClearedOf(old(operations), operations, clock, false)
    {
      ran := lastPrune.None? || clock - lastPrune.value >= JOURNAL_PRUNE_INTERVAL;
      if ran {
        var _ := Prune();
      }
    }
  }
}
