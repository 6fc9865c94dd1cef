/** Every schedule of enqueues and sends, overlapping as they may: what holds however they interleave.

    One flusher runs at a time; between picking a report and settling its outcome anything may be
    enqueued, and a flush may be cancelled. */
module ReportRuns {
  import opened ReportOrder
  import opened ReportQueue

  datatype Option<+T> = None | Some(value: T)

  /** `picked` is the report the sender is working on, `accepted` what it accepted so far. */
  datatype System = System(view: View, blocked: set<string>, picked: Option<Item>, accepted: seq<Item>)

  datatype Event = Admit(report: Report) | StartFlush | Pick | Settle(outcome: Outcome) | Cancel

  predicate Enabled(s: System, e: Event) {
    match e
    case Admit(_) => true
    case StartFlush => s.picked.None?
    case Pick => s.picked.None? && s.view.queue != []
    case Settle(_) => s.picked.Some?
    case Cancel => s.picked.Some?
  }

  /** The head still has the key of the report that was sent. */
  predicate Matches(v: View, item: Item) {
    v.queue != [] && KeyOf(v.queue[0].report) == KeyOf(item.report)
  }

  function Settled(v: View, item: Item, o: Outcome, limit: nat): View {
    if !Matches(v, item) then v
    else if o.Accepted? then Delivered(v, item, limit)
    else Failed(v, item, o)
  }

  function Next(s: System, e: Event, limit: nat): System
    requires Enabled(s, e)
  {
    match e
    case Admit(r) => s.(view := Enqueued(s.view, r, limit).view)
    case StartFlush => s.(blocked := {})
    case Pick => if Held(s.view, s.blocked) then s.(view := Rotated(s.view)) else s.(picked := Some(s.view.queue[0]))
    case Settle(o) =>
      var item := s.picked.value;
      System(Settled(s.view, item, o, limit),
             if Matches(s.view, item) && !o.Accepted? && item.report.Operation? then s.blocked + {item.report.operationId} else s.blocked,
             None, if o.Accepted? then s.accepted + [item] else s.accepted)
    case Cancel => s.(picked := None)
  }

  const EMPTY := View([], map[], {}, [], 0)

  datatype Trace = Start | Then(before: Trace, event: Event)

  ghost predicate Legal(tr: Trace, limit: nat)
    decreases tr, 0
  {
    match tr case Start => true case Then(before, e) => Legal(before, limit) && Enabled(Replay(before, limit), e)
  }

  ghost function Replay(tr: Trace, limit: nat): System
    requires Legal(tr, limit)
    decreases tr, 1
  {
    match tr case Start => System(EMPTY, {}, None, []) case Then(before, e) => Next(Replay(before, limit), e, limit)
  }

  // ----- numbers -----

  predicate IsSnapshot(i: Item) {
    i.report.Snapshot?
  }

  /** Snapshots are numbered, within what was handed out, and nothing else is. */
  predicate IsNumbered(i: Item, nextSeq: nat) {
    (i.seqNo != 0 <==> IsSnapshot(i)) && i.seqNo <= nextSeq
  }

  ghost predicate KeysApart(queue: seq<Item>) {
    forall i, j | 0 <= i < j < |queue| :: KeyOf(queue[i].report) != KeyOf(queue[j].report)
  }

  /** One number, one snapshot. */
  ghost predicate NumbersApart(queue: seq<Item>) {
    forall i, j | i in queue && j in queue && i.seqNo == j.seqNo && i.seqNo != 0 :: i == j
  }

  function LastAccepted(accepted: seq<Item>): nat {
    if accepted == [] then 0
    else if accepted[|accepted| - 1].seqNo != 0 then accepted[|accepted| - 1].seqNo
    else LastAccepted(accepted[..|accepted| - 1])
  }

  /** The numbers of the accepted snapshots strictly increase. */
  ghost predicate Increasing(accepted: seq<Item>) {
    forall i, j | 0 <= i < j < |accepted| && accepted[i].seqNo != 0 && accepted[j].seqNo != 0 :: accepted[i].seqNo < accepted[j].seqNo
  }

  /** Everything queued is younger than `last`, the last accepted number. */
  ghost predicate NumbersOk(queue: seq<Item>, nextSeq: nat, last: nat) {
    && KeysApart(queue) && NumbersApart(queue) && last <= nextSeq
    && forall i | i in queue :: IsNumbered(i, nextSeq) && (IsSnapshot(i) ==> last < i.seqNo)
  }

  ghost predicate QueueOk(s: System) {
    NumbersOk(s.view.queue, s.view.nextSeq, LastAccepted(s.accepted)) && Increasing(s.accepted)
  }

  /** The picked report is the head while it is queued; a snapshot is no later than any queued one. */
  ghost predicate PickedOk(s: System) {
    s.picked.Some? ==>
      var item := s.picked.value;
      && IsNumbered(item, s.view.nextSeq)
      && (item in s.view.queue ==> s.view.queue[0] == item)
      && (IsSnapshot(item) ==> LastAccepted(s.accepted) < item.seqNo)
      && (IsSnapshot(item) ==> forall i | i in s.view.queue && IsSnapshot(i) :: item.seqNo < i.seqNo || i == item)
      && (!IsSnapshot(item) ==> item in s.view.queue)
      && (item.report.Operation? ==> !QuarantinedLane(s.view, item.report.operationId))
  }

  // ----- lanes -----

  ghost predicate LanesOk(v: View, limit: nat) {
    && |v.lanes| <= limit
    && forall op | HasOperation(v.queue, op) :: op in v.lanes
  }

  ghost predicate Inv(s: System, limit: nat) {
    QueueOk(s) && PickedOk(s) && LanesOk(s.view, limit)
  }

  // ----- enqueueing -----

  lemma {:induction false} CoalescedKeeps(queue: seq<Item>)
    ensures KeysApart(queue) ==> KeysApart(Coalesced(queue))
    ensures forall i | i in queue && !IsSnapshot(i) :: i in Coalesced(queue)
    ensures queue != [] && queue[0] in Coalesced(queue) && KeysApart(queue) ==> Coalesced(queue)[0] == queue[0]
  {
    if queue != [] {
      var front, last := queue[..|queue| - 1], queue[|queue| - 1];
      assert queue == front + [last];
      CoalescedKeeps(front);
      if KeysApart(queue) {
        forall i, j | 0 <= i < j < |front| ensures KeyOf(front[i].report) != KeyOf(front[j].report) { assert front[i] == queue[i] && front[j] == queue[j]; }
        forall i | i in front ensures KeyOf(i.report) != KeyOf(last.report) {
          var k :| 0 <= k < |front| && front[k] == i;
          assert queue[k] == i;
        }
      }
    }
  }

  lemma MadeOk(v: View, r: Report, last: nat)
    requires NumbersOk(v.queue, v.nextSeq, last)
    ensures NumbersOk(Made(v, r).queue, Made(v, r).nextSeq, last)
    ensures r.Snapshot? ==> forall i | i in Made(v, r).queue :: i.seqNo < Made(v, r).nextSeq
  {
    CoalescedKeeps(v.queue);
  }

  lemma AppendedOk(queue: seq<Item>, nextSeq: nat, last: nat, item: Item)
    requires NumbersOk(queue, nextSeq, last) && !HasKey(queue, KeyOf(item.report))
    requires IsNumbered(item, nextSeq)
    requires IsSnapshot(item) ==> last < item.seqNo && forall i | i in queue :: i.seqNo < item.seqNo
    ensures NumbersOk(queue + [item], nextSeq, last)
  {
    forall i, j | 0 <= i < j < |queue + [item]| ensures KeyOf((queue + [item])[i].report) != KeyOf((queue + [item])[j].report) {
      if j == |queue| { assert queue[i] in queue; }
    }
  }

  lemma AdmitQueue(s: System, r: Report, limit: nat)
    requires QueueOk(s)
    ensures QueueOk(Next(s, Admit(r), limit))
  {
    MadeOk(s.view, r, LastAccepted(s.accepted));
    var room := Made(s.view, r);
    if !HasKey(room.queue, KeyOf(r)) {
      AppendedOk(room.queue, room.nextSeq, LastAccepted(s.accepted), Numbered(s.view, r));
    }
  }

  /** A picked report that is still queued is still the head, and nothing admitted later is like it. */
  lemma AdmitPicked(s: System, r: Report, limit: nat)
    requires QueueOk(s) && PickedOk(s)
    ensures PickedOk(Next(s, Admit(r), limit))
  {
    if s.picked.Some? {
      var item, room, entered := s.picked.value, Made(s.view, r), Numbered(s.view, r);
      CoalescedKeeps(s.view.queue);
      assert item in room.queue ==> room.queue[0] == item;
      if item !in room.queue { assert IsSnapshot(item); }
      assert item in room.queue || item != entered;
    }
  }

  lemma AdmitLanes(s: System, r: Report, limit: nat)
    requires LanesOk(s.view, limit)
    ensures LanesOk(Next(s, Admit(r), limit).view, limit)
  {
    CoalescedKeeps(s.view.queue);
  }

  // ----- sending -----

  lemma LastIsLargest(accepted: seq<Item>, i: nat)
    requires Increasing(accepted) && i < |accepted|
    ensures accepted[i].seqNo <= LastAccepted(accepted)
    decreases |accepted|
  {
    var n := |accepted| - 1;
    if accepted[n].seqNo == 0 && i < n {
      LastIsLargest(accepted[..n], i);
    }
  }

  lemma AcceptedNext(accepted: seq<Item>, item: Item)
    requires Increasing(accepted) && (item.seqNo != 0 ==> LastAccepted(accepted) < item.seqNo)
    ensures Increasing(accepted + [item])
    ensures LastAccepted(accepted + [item]) == if item.seqNo != 0 then item.seqNo else LastAccepted(accepted)
  {
    assert (accepted + [item])[..|accepted|] == accepted;
    forall i | 0 <= i < |accepted| ensures accepted[i].seqNo <= LastAccepted(accepted) { LastIsLargest(accepted, i); }
  }

  lemma RotatedOk(queue: seq<Item>, nextSeq: nat, last: nat)
    requires NumbersOk(queue, nextSeq, last) && queue != []
    ensures NumbersOk(queue[1..] + [queue[0]], nextSeq, last)
  {
    var q := queue[1..] + [queue[0]];
    forall i, j | 0 <= i < j < |q| ensures KeyOf(q[i].report) != KeyOf(q[j].report) {}
    forall i | i in q ensures i in queue {}
  }

  lemma PickKeeps(s: System, limit: nat)
    requires Inv(s, limit) && Enabled(s, Pick)
    ensures Inv(Next(s, Pick, limit), limit)
  {
    if Held(s.view, s.blocked) {
      RotatedOk(s.view.queue, s.view.nextSeq, LastAccepted(s.accepted));
      SameOperations(s.view.queue, s.view.queue[1..] + [s.view.queue[0]]);
    } else {
      EarliestIsLeast(s.view.queue);
      assert s.view.queue[0] in s.view.queue;
    }
  }

  lemma SameOperations(a: seq<Item>, b: seq<Item>)
    requires forall i | i in b :: i in a
    ensures forall op | HasOperation(b, op) :: HasOperation(a, op)
  {
  }

  /** Once the picked report is settled, everything queued is younger than what was accepted. */
  lemma SettleQueue(s: System, o: Outcome, limit: nat)
    requires QueueOk(s) && PickedOk(s) && Enabled(s, Settle(o))
    ensures QueueOk(Next(s, Settle(o), limit))
  {
    var item, queue, last := s.picked.value, s.view.queue, LastAccepted(s.accepted);
    if o.Accepted? {
      AcceptedNext(s.accepted, item);
      if Matches(s.view, item) { TailOk(queue, s.view.nextSeq, last, item); } else { UnmatchedOk(queue, s.view.nextSeq, last, item); }
    } else if Matches(s.view, item) {
      BackApart(queue, item, s.view.nextSeq, last);
    }
  }

  /** No queued snapshot is earlier than the item; if the item is queued, it is the head. */
  ghost predicate NoneEarlier(queue: seq<Item>, item: Item) {
    && (IsSnapshot(item) ==> forall i | i in queue && IsSnapshot(i) :: item.seqNo < i.seqNo || i == item)
    && (item in queue ==> queue[0] == item)
  }

  lemma TailOk(queue: seq<Item>, nextSeq: nat, last: nat, item: Item)
    requires queue != [] && NumbersOk(queue, nextSeq, last) && KeyOf(queue[0].report) == KeyOf(item.report)
    requires IsNumbered(item, nextSeq) && (IsSnapshot(item) ==> last < item.seqNo) && NoneEarlier(queue, item)
    ensures NumbersOk(queue[1..], nextSeq, if item.seqNo != 0 then item.seqNo else last)
  {
    TailApart(queue);
  }

  lemma UnmatchedOk(queue: seq<Item>, nextSeq: nat, last: nat, item: Item)
    requires NumbersOk(queue, nextSeq, last) && (queue == [] || KeyOf(queue[0].report) != KeyOf(item.report))
    requires IsNumbered(item, nextSeq) && (IsSnapshot(item) ==> last < item.seqNo) && NoneEarlier(queue, item)
    ensures NumbersOk(queue, nextSeq, if item.seqNo != 0 then item.seqNo else last)
  {
  }

  lemma TailApart(queue: seq<Item>)
    requires queue != [] && KeysApart(queue)
    ensures KeysApart(queue[1..]) && forall i | i in queue[1..] :: i in queue && KeyOf(i.report) != KeyOf(queue[0].report)
  {
  }

  lemma BackApart(queue: seq<Item>, item: Item, nextSeq: nat, last: nat)
    requires queue != [] && NumbersOk(queue, nextSeq, last) && KeyOf(queue[0].report) == KeyOf(item.report)
    requires IsNumbered(item, nextSeq) && (IsSnapshot(item) ==> last < item.seqNo)
    requires IsSnapshot(item) ==> forall i | i in queue && IsSnapshot(i) :: item.seqNo < i.seqNo || i == item
    ensures NumbersOk(queue[1..] + [item], nextSeq, last)
  {
    var q := queue[1..] + [item];
    TailApart(queue);
    forall i, j | 0 <= i < j < |q| ensures KeyOf(q[i].report) != KeyOf(q[j].report) {
      assert queue[1..][i] in queue[1..];
    }
  }

  lemma SettleLanes(s: System, o: Outcome, limit: nat)
    requires Inv(s, limit) && Enabled(s, Settle(o))
    ensures LanesOk(Next(s, Settle(o), limit).view, limit)
  {
    var item, queue := s.picked.value, s.view.queue;
    if Matches(s.view, item) {
      forall i | i in queue[1..] ensures i in queue {}
      SameOperations(queue, queue[1..]);
      assert item.report.Operation? ==> item in queue && item.report.operationId in s.view.lanes;
    }
  }

  lemma InvStep(s: System, e: Event, limit: nat)
    requires Inv(s, limit) && Enabled(s, e)
    ensures Inv(Next(s, e, limit), limit)
  {
    match e
    case Admit(r) =>
      AdmitQueue(s, r, limit);
      AdmitPicked(s, r, limit);
      AdmitLanes(s, r, limit);
    case StartFlush =>
    case Pick => PickKeeps(s, limit);
    case Settle(o) =>
      SettleQueue(s, o, limit);
      SettleLanes(s, o, limit);
    case Cancel =>
  }

  lemma {:induction false} InvariantHolds(tr: Trace, limit: nat)
    requires Legal(tr, limit)
    ensures Inv(Replay(tr, limit), limit)
  {
    match tr
    case Start =>
    case Then(before, e) =>
      InvariantHolds(before, limit);
      InvStep(Replay(before, limit), e, limit);
  }

  // ----- the main results -----

  /** In every schedule: queued keys are distinct, no more lanes are open than the limit, and the numbers
      of the snapshots the orchestrator accepted strictly increase. */
  lemma QueueIsBoundedAndOrdered(tr: Trace, limit: nat)
    requires Legal(tr, limit)
    ensures KeysApart(Replay(tr, limit).view.queue) && |Replay(tr, limit).view.lanes| <= limit
    ensures Increasing(Replay(tr, limit).accepted)
  {
    InvariantHolds(tr, limit);
  }

  ghost predicate Extends(longer: Trace, shorter: Trace) {
    longer == shorter || (longer.Then? && Extends(longer.before, shorter))
  }

  lemma QuarantineStep(s: System, e: Event, limit: nat, op: string)
    requires Inv(s, limit) && Enabled(s, e) && QuarantinedLane(s.view, op)
    ensures QuarantinedLane(Next(s, e, limit).view, op)
    ensures Of(Next(s, e, limit).accepted, op) == Of(s.accepted, op)
  {
    if e.Settle? && e.outcome.Accepted? {
      OfNext(s.accepted, s.picked.value, op);
    }
  }

  /** A quarantined lane stays quarantined and never sends again. */
  lemma {:induction false} QuarantinedNeverSends(tr: Trace, later: Trace, limit: nat, op: string)
    requires Legal(later, limit) && Legal(tr, limit) && Extends(later, tr) && QuarantinedLane(Replay(tr, limit).view, op)
    ensures QuarantinedLane(Replay(later, limit).view, op)
    ensures Of(Replay(later, limit).accepted, op) == Of(Replay(tr, limit).accepted, op)
    decreases later
  {
    if later != tr {
      QuarantinedNeverSends(tr, later.before, limit, op);
      InvariantHolds(later.before, limit);
      QuarantineStep(Replay(later.before, limit), later.event, limit, op);
    }
  }

  /** A turn of an undisturbed flush is a pick and, unless the head waits, the settling of its outcome. */
  lemma TurnIsPickAndSettle(s: System, o: Outcome, limit: nat)
    requires s.picked.None? && s.view.queue != []
    ensures var t, one := TurnOf(s.view, s.blocked, o, limit), Next(s, Pick, limit);
            var end := if Held(s.view, s.blocked) then one else Next(one, Settle(o), limit);
            end == System(t.view, t.blocked, None, s.accepted + t.sent)
  {
    assert s.accepted + [] == s.accepted;
  }
}
