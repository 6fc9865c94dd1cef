/** The queue of recovery telemetry as a list, without the reporter's counters: what is admitted, what
    is sent and what waits. */
module ReportQueue {
  import opened RecoveryState

  datatype Diagnostic = Diagnostic(id: string, occurrences: nat)

  datatype Report =
    | Operation(operationId: string, diagnosticId: string, state: State)
    | Snapshot(diagnostics: seq<Diagnostic>)
    | Capability(stage: nat)

  datatype Key = OperationKey(operationId: string, state: State) | SnapshotKey(diagnostics: seq<Diagnostic>) | CapabilityKey

  function KeyOf(r: Report): Key {
    match r
    case Operation(id, _, state) => OperationKey(id, state)
    case Snapshot(diagnostics) => SnapshotKey(diagnostics)
    case Capability(_) => CapabilityKey
  }

  predicate TerminalReport(r: Report) {
    r.Operation? && (r.state.Succeeded? || r.state.RolledBack? || r.state.RollbackFailed? || r.state.DiagnosisOnly? || r.state.Suppressed?)
  }

  /** `seq` numbers snapshots in the order they were enqueued; it is 0 for anything else. */
  datatype Item = Item(report: Report, seqNo: nat)

  /** What a lane remembers besides its queued reports. */
  datatype Flags = Flags(terminal: bool, quarantined: bool)

  datatype View = View(queue: seq<Item>, lanes: map<string, Flags>, sent: set<Key>, sentOrder: seq<Key>, nextSeq: nat)

  // ----- looking at the queue -----

  predicate HasKey(queue: seq<Item>, key: Key) {
    exists i | i in queue :: KeyOf(i.report) == key
  }

  predicate HasOperation(queue: seq<Item>, op: string) {
    exists i | i in queue :: i.report.Operation? && i.report.operationId == op
  }

  predicate Names(r: Report, diagnosticId: string) {
    r.Snapshot? && exists d | d in r.diagnostics :: d.id == diagnosticId
  }

  /** A snapshot naming the diagnostic is still queued. */
  predicate Awaited(queue: seq<Item>, diagnosticId: string) {
    exists i | i in queue :: Names(i.report, diagnosticId)
  }

  function Earliest(queue: seq<Item>): nat {
    if queue == [] then 0
    else
      var before, last := Earliest(queue[..|queue| - 1]), queue[|queue| - 1].seqNo;
      if last != 0 && (before == 0 || last < before) then last else before
  }

  // ----- admitting -----

  /** Drops the snapshots behind the last operation report: a newer one replaces them. */
  function Coalesced(queue: seq<Item>): (q: seq<Item>)
    ensures |q| <= |queue| && forall i | i in q :: i in queue
  {
    if queue == [] then []
    else
      var front, last := queue[..|queue| - 1], queue[|queue| - 1];
      if last.report.Operation? then queue
      else if last.report.Snapshot? then Coalesced(front)
      else Coalesced(front) + [last]
  }

  function Numbered(v: View, r: Report): Item {
    Item(r, if r.Snapshot? then v.nextSeq + 1 else 0)
  }

  function Made(v: View, r: Report): View {
    if r.Snapshot? then v.(queue := Coalesced(v.queue), nextSeq := v.nextSeq + 1) else v
  }

  function WithLane(lanes: map<string, Flags>, r: Report): map<string, Flags> {
    if !r.Operation? then lanes
    else
      var flags := if r.operationId in lanes then lanes[r.operationId] else Flags(false, false);
      lanes[r.operationId := flags.(terminal := flags.terminal || TerminalReport(r))]
  }

  datatype Admission = Admission(view: View, accepted: bool)

  /** Already queued, or already delivered. */
  predicate Known(v: View, r: Report) {
    HasKey(Made(v, r).queue, KeyOf(r)) || (KeyOf(r) in v.sent && !r.Snapshot?)
  }

  /** A new operation needs a free lane; snapshots and capabilities are never refused. */
  predicate Full(v: View, r: Report, limit: nat) {
    r.Operation? && r.operationId !in v.lanes && |v.lanes| >= limit
  }

  function Enqueued(v: View, r: Report, limit: nat): Admission {
    var room := Made(v, r);
    if Known(v, r) then Admission(room, true)
    else if Full(v, r, limit) then Admission(room, false)
    else Admission(room.(queue := room.queue + [Numbered(v, r)], lanes := WithLane(v.lanes, r)), true)
  }

  // ----- sending -----

  datatype Outcome = Accepted | Retryable | Permanent

  /** The head waits: its lane failed in this flush or is quarantined, its diagnostic is not reported
      yet, or an earlier snapshot is still queued. */
  predicate Held(v: View, blocked: set<string>)
    requires v.queue != []
  {
    var item := v.queue[0];
    if item.report.Operation? then
      || item.report.operationId in blocked
      || (item.report.operationId in v.lanes && v.lanes[item.report.operationId].quarantined)
      || Awaited(v.queue, item.report.diagnosticId)
    else item.seqNo != 0 && item.seqNo != Earliest(v.queue)
  }

  function Rotated(v: View): View
    requires v.queue != []
  {
    v.(queue := v.queue[1..] + [v.queue[0]])
  }

  function Remembered(v: View, key: Key, limit: nat): View {
    var order := v.sentOrder + [key];
    if |order| > limit * 8 then v.(sent := v.sent + {key} - {order[0]}, sentOrder := order[1..])
    else v.(sent := v.sent + {key}, sentOrder := order)
  }

  /** A finished lane goes once nothing of it is queued. */
  function WithoutDone(lanes: map<string, Flags>, queue: seq<Item>, r: Report): map<string, Flags> {
    if r.Operation? && r.operationId in lanes && lanes[r.operationId].terminal && !HasOperation(queue, r.operationId)
    then lanes - {r.operationId} else lanes
  }

  /** The sender accepted `item`, and the head still has its key. */
  function Delivered(v: View, item: Item, limit: nat): View
    requires v.queue != []
  {
    var w := v.(queue := v.queue[1..], lanes := WithoutDone(v.lanes, v.queue[1..], item.report));
    if item.report.Snapshot? then w else Remembered(w, KeyOf(item.report), limit)
  }

  function Quarantined(lanes: map<string, Flags>, r: Report): map<string, Flags> {
    if r.Operation? then
      lanes[r.operationId := (if r.operationId in lanes then lanes[r.operationId] else Flags(false, false)).(quarantined := true)]
    else lanes
  }

  /** The sender refused `item`: it goes to the back, in place of the head that has its key. */
  function Failed(v: View, item: Item, o: Outcome): View
    requires v.queue != []
  {
    var w := v.(queue := v.queue[1..] + [item]);
    if o.Permanent? then w.(lanes := Quarantined(v.lanes, item.report)) else w
  }

  /** One turn of a flush on the head of the queue. */
  datatype Turn = Turn(view: View, blocked: set<string>, sent: seq<Item>)

  function TurnOf(v: View, blocked: set<string>, o: Outcome, limit: nat): Turn
    requires v.queue != []
  {
    var item := v.queue[0];
    if Held(v, blocked) then Turn(Rotated(v), blocked, [])
    else if o.Accepted? then Turn(Delivered(v, item, limit), blocked, [item])
    else Turn(Failed(v, item, o), if item.report.Operation? then blocked + {item.report.operationId} else blocked, [])
  }

  /** The first `n` turns of a flush; `outcomes[k]` is what the sender would answer in turn `k`. */
  function Flushed(v: View, outcomes: seq<Outcome>, n: nat, limit: nat): Turn
    requires n <= |outcomes|
  {
    if n == 0 then Turn(v, {}, [])
    else
      var before := Flushed(v, outcomes, n - 1, limit);
      if before.view.queue == [] then before
      else
        var next := TurnOf(before.view, before.blocked, outcomes[n - 1], limit);
        next.(sent := before.sent + next.sent)
  }

  /** A flush takes as many turns as reports were queued when it began. */
  function Flush(v: View, outcomes: seq<Outcome>, limit: nat): Turn
    requires |outcomes| == |v.queue|
  {
    Flushed(v, outcomes, |v.queue|, limit)
  }

  // ----- order is kept -----

  /** How far a flush is after some turns, and which of the items it came to it did not send. */
  datatype Stage = Stage(turn: Turn, left: seq<Item>)

  /** A complete flush with its stages, one before and one after each turn. */
  datatype Run = Run(view: View, outcomes: seq<Outcome>, limit: nat, stages: seq<Stage>)

  ghost predicate IsFlush(r: Run) {
    && |r.stages| == |r.view.queue| + 1 && |r.outcomes| == |r.view.queue|
    && r.stages[0] == Stage(Turn(r.view, {}, []), [])
    && forall n: nat | n < |r.view.queue| :: Took(r, n)
  }

  ghost predicate Took(r: Run, n: nat)
    requires n < |r.view.queue| == |r.outcomes| && n + 1 < |r.stages|
  {
    var t := r.stages[n].turn;
    && t.view.queue != [] && t.view.queue[0] == r.view.queue[n]
    && var next := TurnOf(t.view, t.blocked, r.outcomes[n], r.limit);
       && r.stages[n + 1].turn == next.(sent := t.sent + next.sent)
       && r.stages[n + 1].left == if next.sent == [] then r.stages[n].left + [r.view.queue[n]] else r.stages[n].left
  }

  /** A turn either sends the head or moves it to the back. */
  lemma TurnShape(v: View, blocked: set<string>, o: Outcome, limit: nat)
    requires v.queue != []
    ensures var t := TurnOf(v, blocked, o, limit);
            && (t.sent == [] ==> t.view.queue == v.queue[1..] + [v.queue[0]])
            && (t.sent != [] ==> t.view.queue == v.queue[1..] && t.sent == [v.queue[0]] && !Held(v, blocked) && o.Accepted?)
            && t.view.nextSeq == v.nextSeq
  {
  }

  lemma HeadOf(queue: seq<Item>, n: nat, left: seq<Item>)
    requires n < |queue|
    ensures var q := queue[n..] + left;
            q != [] && q[0] == queue[n] && q[1..] == queue[n + 1..] + left && q[1..] + [q[0]] == queue[n + 1..] + (left + [queue[n]])
  {
  }

  function NextStage(s: Stage, item: Item, o: Outcome, limit: nat): Stage
    requires s.turn.view.queue != []
  {
    var next := TurnOf(s.turn.view, s.turn.blocked, o, limit);
    Stage(next.(sent := s.turn.sent + next.sent), if next.sent == [] then s.left + [item] else s.left)
  }

  lemma NextQueue(s: Stage, queue: seq<Item>, n: nat, o: Outcome, limit: nat)
    requires n < |queue| && s.turn.view.queue == queue[n..] + s.left
    ensures s.turn.view.queue[0] == queue[n]
    ensures NextStage(s, queue[n], o, limit).turn.view.queue == queue[n + 1..] + NextStage(s, queue[n], o, limit).left
  {
    HeadOf(queue, n, s.left);
    TurnShape(s.turn.view, s.turn.blocked, o, limit);
  }

  lemma FlushedNext(v: View, outcomes: seq<Outcome>, limit: nat, n: nat, s: Stage, item: Item)
    requires n < |outcomes| && s.turn == Flushed(v, outcomes, n, limit) && s.turn.view.queue != []
    ensures NextStage(s, item, outcomes[n], limit).turn == Flushed(v, outcomes, n + 1, limit)
  {
  }

  /** The stages of the first `n` turns. */
  lemma {:induction false} StagesOf(v: View, outcomes: seq<Outcome>, limit: nat, n: nat) returns (stages: seq<Stage>)
    requires n <= |v.queue| == |outcomes|
    ensures |stages| == n + 1 && stages[0] == Stage(Turn(v, {}, []), []) && stages[n].turn == Flushed(v, outcomes, n, limit)
    ensures stages[n].turn.view.queue == v.queue[n..] + stages[n].left
    ensures forall k: nat | k < n :: Took(Run(v, outcomes, limit, stages), k)
  {
    if n == 0 {
      stages := [Stage(Turn(v, {}, []), [])];
      assert v.queue[0..] + [] == v.queue;
    } else {
      var before := StagesOf(v, outcomes, limit, n - 1);
      NextQueue(before[n - 1], v.queue, n - 1, outcomes[n - 1], limit);
      FlushedNext(v, outcomes, limit, n - 1, before[n - 1], v.queue[n - 1]);
      stages := before + [NextStage(before[n - 1], v.queue[n - 1], outcomes[n - 1], limit)];
      TookMore(v, outcomes, limit, n - 1, before, stages);
    }
  }

  lemma TookMore(v: View, outcomes: seq<Outcome>, limit: nat, n: nat, before: seq<Stage>, stages: seq<Stage>)
    requires n < |v.queue| == |outcomes| && |before| == n + 1 && forall k: nat | k < n :: Took(Run(v, outcomes, limit, before), k)
    requires before[n].turn.view.queue != [] && before[n].turn.view.queue[0] == v.queue[n]
    requires stages == before + [NextStage(before[n], v.queue[n], outcomes[n], limit)]
    ensures forall k: nat | k < n + 1 :: Took(Run(v, outcomes, limit, stages), k)
  {
    forall k: nat | k < n + 1 ensures Took(Run(v, outcomes, limit, stages), k) {
      if k < n { assert Took(Run(v, outcomes, limit, before), k); }
    }
  }

  /** Every flush has stages, and they end where it ends. */
  lemma RunOf(v: View, outcomes: seq<Outcome>, limit: nat) returns (r: Run)
    requires |outcomes| == |v.queue|
    ensures IsFlush(r) && r.view == v && r.outcomes == outcomes && r.limit == limit
    ensures r.stages[|v.queue|].turn == Flush(v, outcomes, limit)
    ensures r.stages[|v.queue|].turn.view.queue == r.stages[|v.queue|].left
  {
    var stages := StagesOf(v, outcomes, limit, |v.queue|);
    r := Run(v, outcomes, limit, stages);
    assert v.queue[|v.queue|..] + stages[|v.queue|].left == stages[|v.queue|].left;
  }

  /** After `n` turns the queue is the untouched rest, then what was left of the first `n`. */
  lemma {:induction false} QueueAfter(r: Run, n: nat)
    requires IsFlush(r) && n <= |r.view.queue|
    ensures r.stages[n].turn.view.queue == r.view.queue[n..] + r.stages[n].left
  {
    if n > 0 {
      QueueAfter(r, n - 1);
      assert Took(r, n - 1);
      var t := r.stages[n - 1].turn;
      HeadOf(r.view.queue, n - 1, r.stages[n - 1].left);
      TurnShape(t.view, t.blocked, r.outcomes[n - 1], r.limit);
    }
  }

  /** `part` is what is left of `whole` after leaving items out. */
  ghost predicate Within(part: seq<Item>, whole: seq<Item>) {
    part == [] || (whole != [] && (
      Within(part, whole[..|whole| - 1]) ||
      (part[|part| - 1] == whole[|whole| - 1] && Within(part[..|part| - 1], whole[..|whole| - 1]))))
  }

  lemma WithinNext(part: seq<Item>, whole: seq<Item>, i: Item)
    requires Within(part, whole)
    ensures Within(part, whole + [i]) && Within(part + [i], whole + [i])
  {
    assert (whole + [i])[..|whole|] == whole && (part + [i])[..|part|] == part;
  }

  lemma {:induction false} WithinItself(items: seq<Item>)
    ensures Within(items, items)
  {
    if items != [] {
      WithinItself(items[..|items| - 1]);
    }
  }

  /** Where in `whole` the items of `part` stand. */
  lemma {:induction false} Positions(part: seq<Item>, whole: seq<Item>) returns (at: seq<nat>)
    requires Within(part, whole)
    ensures |at| == |part| && forall i | 0 <= i < |part| :: at[i] < |whole| && whole[at[i]] == part[i]
    ensures forall i, j | 0 <= i < j < |part| :: at[i] < at[j]
    decreases |whole|
  {
    if part == [] {
      at := [];
    } else if Within(part, whole[..|whole| - 1]) {
      at := Positions(part, whole[..|whole| - 1]);
    } else {
      at := Positions(part[..|part| - 1], whole[..|whole| - 1]);
      at := at + [|whole| - 1];
    }
  }

  lemma {:induction false} WithinTransitive(a: seq<Item>, b: seq<Item>, c: seq<Item>)
    requires Within(a, b) && Within(b, c)
    ensures Within(a, c)
    decreases |c|
  {
    if a != [] {
      var front := c[..|c| - 1];
      if Within(b, front) {
        WithinTransitive(a, b, front);
      } else if Within(a, b[..|b| - 1]) {
        WithinTransitive(a, b[..|b| - 1], front);
      } else {
        WithinTransitive(a[..|a| - 1], b[..|b| - 1], front);
      }
    }
  }

  lemma {:induction false} CoalescedWithin(queue: seq<Item>)
    ensures Within(Coalesced(queue), queue)
  {
    if queue != [] {
      var front, last := queue[..|queue| - 1], queue[|queue| - 1];
      assert queue == front + [last];
      if last.report.Operation? {
        WithinItself(queue);
      } else {
        CoalescedWithin(front);
        WithinNext(Coalesced(front), front, last);
      }
    }
  }

  lemma {:induction false} LeftInOrder(r: Run, n: nat)
    requires IsFlush(r) && n <= |r.view.queue|
    ensures Within(r.stages[n].left, r.view.queue[..n])
  {
    if n > 0 {
      LeftInOrder(r, n - 1);
      assert Took(r, n - 1);
      assert r.view.queue[..n] == r.view.queue[..n - 1] + [r.view.queue[n - 1]];
      WithinNext(r.stages[n - 1].left, r.view.queue[..n - 1], r.view.queue[n - 1]);
    }
  }

  /** A complete flush leaves what it did not send in its original order. */
  lemma FlushKeepsOrder(v: View, outcomes: seq<Outcome>, limit: nat)
    requires |outcomes| == |v.queue|
    ensures Within(Flush(v, outcomes, limit).view.queue, v.queue)
  {
    var r := RunOf(v, outcomes, limit);
    LeftInOrder(r, |v.queue|);
    assert v.queue[..|v.queue|] == v.queue;
  }
}
