/** In which order an operation's reports are delivered. */
module ReportOrder {
  import opened ReportQueue

  predicate IsOf(i: Item, op: string) {
    i.report.Operation? && i.report.operationId == op
  }

  /** The reports of one operation, in order. */
  function Of(items: seq<Item>, op: string): (mine: seq<Item>)
    ensures forall i | i in mine :: i in items && IsOf(i, op)
  {
    if items == [] then []
    else
      var before := Of(items[..|items| - 1], op);
      if IsOf(items[|items| - 1], op) then before + [items[|items| - 1]] else before
  }

  lemma OfNext(items: seq<Item>, i: Item, op: string)
    ensures Of(items + [i], op) == if IsOf(i, op) then Of(items, op) + [i] else Of(items, op)
  {
    assert (items + [i])[..|items|] == items;
  }

  /** The last queued snapshot that names the diagnostic lies between two reports of the operation. */
  ghost predicate Straddled(queue: seq<Item>, op: string, d: string) {
    exists k | 0 <= k < |queue| :: LastNaming(queue, k, d)
      && (exists i | 0 <= i < k :: IsOf(queue[i], op)) && (exists j | k < j < |queue| :: IsOf(queue[j], op))
  }

  ghost predicate LastNaming(queue: seq<Item>, k: nat, d: string) {
    k < |queue| && Names(queue[k].report, d) && forall m | k < m < |queue| :: !Names(queue[m].report, d)
  }

  predicate QuarantinedLane(v: View, op: string) {
    op in v.lanes && v.lanes[op].quarantined
  }

  /** The operation's queued reports carry one diagnostic. */
  ghost predicate OneDiagnostic(queue: seq<Item>, op: string, d: string) {
    forall i | i in queue && IsOf(i, op) :: i.report.diagnosticId == d
  }

  /** And its lane is not quarantined. */
  ghost predicate Regular(v: View, op: string, d: string) {
    OneDiagnostic(v.queue, op, d) && !QuarantinedLane(v, op)
  }

  // ----- one turn, seen by the operation -----

  lemma TurnOn(v: View, blocked: set<string>, o: Outcome, limit: nat, op: string)
    requires v.queue != [] && (QuarantinedLane(v, op) ==> op in blocked)
    ensures var t := TurnOf(v, blocked, o, limit);
            && (QuarantinedLane(t.view, op) ==> op in t.blocked) && blocked <= t.blocked
            && (IsOf(v.queue[0], op) ==>
                  && (t.sent == [] ==> op in t.blocked || Awaited(v.queue, v.queue[0].report.diagnosticId))
                  && (t.sent != [] ==> op !in blocked && !Awaited(v.queue, v.queue[0].report.diagnosticId)))
            && (o.Accepted? ==> t.blocked == blocked)
            && (o.Accepted? && QuarantinedLane(t.view, op) ==> QuarantinedLane(v, op))
  {
  }

  /** What the first turns did to the operation: of `done`, first what was sent, then what was left; and
      nothing was left unless the lane failed or a snapshot naming the diagnostic was left behind. */
  ghost predicate SentInOrder(stage: Stage, done: seq<Item>, op: string, d: string) {
    && Of(done, op) == Of(stage.turn.sent, op) + Of(stage.left, op)
    && (Of(stage.left, op) == [] || op in stage.turn.blocked || Awaited(stage.left, d))
    && (QuarantinedLane(stage.turn.view, op) ==> op in stage.turn.blocked)
  }

  ghost predicate AllBehind(queue: seq<Item>, op: string, d: string) {
    forall i, k | 0 <= i <= k < |queue| && IsOf(queue[i], op) :: !Names(queue[k].report, d)
  }

  lemma TurnAt(r: Run, n: nat) returns (next: Turn)
    requires IsFlush(r) && n < |r.view.queue|
    ensures var s, s1, item := r.stages[n], r.stages[n + 1], r.view.queue[n];
            && s.turn.view.queue == r.view.queue[n..] + s.left && s.turn.view.queue[0] == item
            && next == TurnOf(s.turn.view, s.turn.blocked, r.outcomes[n], r.limit)
            && s1.turn == next.(sent := s.turn.sent + next.sent)
            && (next.sent == [] || next.sent == [item])
            && s1.left == (if next.sent == [] then s.left + [item] else s.left)
            && r.view.queue[..n + 1] == r.view.queue[..n] + [item]
  {
    QueueAfter(r, n);
    assert Took(r, n);
    var t := r.stages[n].turn;
    TurnShape(t.view, t.blocked, r.outcomes[n], r.limit);
    next := TurnOf(t.view, t.blocked, r.outcomes[n], r.limit);
  }

  lemma AwaitedSplit(a: seq<Item>, b: seq<Item>, d: string)
    ensures Awaited(a + b, d) <==> Awaited(a, d) || Awaited(b, d)
  {
    if Awaited(a, d) { var i :| i in a && Names(i.report, d); assert i in a + b; }
    if Awaited(b, d) { var i :| i in b && Names(i.report, d); assert i in a + b; }
  }

  /** `free`: the operation may be sent; once it may not, it may not again. */
  lemma OrderStep(
    sent: seq<Item>, left: seq<Item>, done: seq<Item>, step: seq<Item>, item: Item, op: string, free: bool, stillFree: bool)
    requires Of(done, op) == Of(sent, op) + Of(left, op) && (Of(left, op) == [] || !free)
    requires step == [] || step == [item]
    requires !free ==> !stillFree
    requires IsOf(item, op) ==> if step == [] then !stillFree else free
    ensures var more := if step == [] then left + [item] else left;
            Of(done + [item], op) == Of(sent + step, op) + Of(more, op) && (Of(more, op) == [] || !stillFree)
  {
    OfNext(sent, item, op);
    OfNext(left, item, op);
    OfNext(done, item, op);
    assert sent + [] == sent;
    if IsOf(item, op) { Pushed(Of(sent, op), Of(left, op), item); }
  }

  lemma Pushed(a: seq<Item>, b: seq<Item>, x: Item)
    ensures a + b + [x] == a + (b + [x])
    ensures b == [] ==> a + b + [x] == a + [x] + b
  {
  }

  /** If every snapshot naming the diagnostic is ahead of the operation's reports, they are sent in
      order until the first is not. */
  lemma {:induction false} PrefixWhenBehind(r: Run, n: nat, op: string, d: string)
    requires IsFlush(r) && n <= |r.view.queue| && Regular(r.view, op, d) && AllBehind(r.view.queue, op, d)
    ensures SentInOrder(r.stages[n], r.view.queue[..n], op, d)
  {
    if n > 0 {
      PrefixWhenBehind(r, n - 1, op, d);
      BehindTurn(r, n - 1, op, d);
    }
  }

  lemma BehindTurn(r: Run, n: nat, op: string, d: string)
    requires IsFlush(r) && n < |r.view.queue| && Regular(r.view, op, d) && AllBehind(r.view.queue, op, d)
    requires SentInOrder(r.stages[n], r.view.queue[..n], op, d)
    ensures SentInOrder(r.stages[n + 1], r.view.queue[..n + 1], op, d)
  {
    var next := TurnAt(r, n);
    var t, item, left := r.stages[n].turn, r.view.queue[n], r.stages[n].left;
    TurnOn(t.view, t.blocked, r.outcomes[n], r.limit, op);
    AwaitedSplit(r.view.queue[n..], left, d);
    AwaitedSplit(left, [item], d);
    assert IsOf(item, op) ==> !Awaited(r.view.queue[n..], d) && item.report.diagnosticId == d;
    OrderStep(t.sent, left, r.view.queue[..n], next.sent, item, op,
               op !in t.blocked && !Awaited(left, d), op !in next.blocked && !Awaited(r.stages[n + 1].left, d));
  }

  ghost predicate NothingSent(stage: Stage, done: seq<Item>, op: string) {
    && Of(stage.turn.sent, op) == [] && Of(stage.left, op) == Of(done, op)
    && (QuarantinedLane(stage.turn.view, op) ==> op in stage.turn.blocked)
  }

  /** Up to a snapshot that names the diagnostic, none of the operation's reports is sent. */
  lemma {:induction false} NoneWhenAhead(r: Run, n: nat, op: string, d: string, k: nat)
    requires IsFlush(r) && n <= |r.view.queue| && Regular(r.view, op, d)
    requires k < |r.view.queue| && Names(r.view.queue[k].report, d) && forall j | k < j < n :: !IsOf(r.view.queue[j], op)
    ensures NothingSent(r.stages[n], r.view.queue[..n], op)
  {
    if n > 0 {
      NoneWhenAhead(r, n - 1, op, d, k);
      AheadTurn(r, n - 1, op, d, k);
    }
  }

  lemma AheadTurn(r: Run, n: nat, op: string, d: string, k: nat)
    requires IsFlush(r) && n < |r.view.queue| && Regular(r.view, op, d)
    requires k < |r.view.queue| && Names(r.view.queue[k].report, d) && (IsOf(r.view.queue[n], op) ==> n <= k)
    requires NothingSent(r.stages[n], r.view.queue[..n], op)
    ensures NothingSent(r.stages[n + 1], r.view.queue[..n + 1], op)
  {
    var next := TurnAt(r, n);
    var t, item := r.stages[n].turn, r.view.queue[n];
    TurnOn(t.view, t.blocked, r.outcomes[n], r.limit, op);
    if IsOf(item, op) {
      assert r.view.queue[k] == r.view.queue[n..][k - n];
      AwaitedSplit(r.view.queue[n..], r.stages[n].left, d);
    }
    SilentStep(t.sent, r.stages[n].left, r.view.queue[..n], next.sent, item, op);
  }

  ghost predicate Silent(stage: Stage, done: seq<Item>, op: string) {
    Of(stage.turn.sent, op) == [] && Of(stage.left, op) == Of(done, op) && QuarantinedLane(stage.turn.view, op)
  }

  /** A quarantined operation sends nothing at all. */
  lemma {:induction false} NoneWhenQuarantined(r: Run, n: nat, op: string)
    requires IsFlush(r) && n <= |r.view.queue| && QuarantinedLane(r.view, op)
    ensures Silent(r.stages[n], r.view.queue[..n], op)
  {
    if n > 0 {
      NoneWhenQuarantined(r, n - 1, op);
      SilentTurn(r, n - 1, op);
    }
  }

  lemma SilentTurn(r: Run, n: nat, op: string)
    requires IsFlush(r) && n < |r.view.queue| && Silent(r.stages[n], r.view.queue[..n], op)
    ensures Silent(r.stages[n + 1], r.view.queue[..n + 1], op)
  {
    var next := TurnAt(r, n);
    var t := r.stages[n].turn;
    StaysQuarantined(t.view, t.blocked, r.outcomes[n], r.limit, op);
    SilentStep(t.sent, r.stages[n].left, r.view.queue[..n], next.sent, r.view.queue[n], op);
  }

  lemma SilentStep(sent: seq<Item>, left: seq<Item>, done: seq<Item>, step: seq<Item>, item: Item, op: string)
    requires Of(sent, op) == [] && Of(left, op) == Of(done, op)
    requires (step == [] || step == [item]) && (IsOf(item, op) ==> step == [])
    ensures Of(sent + step, op) == [] && Of(if step == [] then left + [item] else left, op) == Of(done + [item], op)
  {
    OfNext(sent, item, op);
    OfNext(left, item, op);
    OfNext(done, item, op);
    assert sent + [] == sent;
  }

  lemma StaysQuarantined(v: View, blocked: set<string>, o: Outcome, limit: nat, op: string)
    requires v.queue != [] && QuarantinedLane(v, op)
    ensures QuarantinedLane(TurnOf(v, blocked, o, limit).view, op)
    ensures IsOf(v.queue[0], op) ==> TurnOf(v, blocked, o, limit).sent == []
  {
  }

  /** What a complete flush sends of an operation comes before what it leaves, and nothing is lost. */
  ghost predicate SplitsInOrder(v: View, t: Turn, op: string) {
    Of(v.queue, op) == Of(t.sent, op) + Of(t.view.queue, op)
  }

  /** Unless the last naming snapshot splits the operation's reports, a complete flush delivers them in
      order, whatever the sender answers. */
  lemma InOrderUnlessStraddled(v: View, outcomes: seq<Outcome>, limit: nat, op: string, d: string)
    requires |outcomes| == |v.queue| && OneDiagnostic(v.queue, op, d) && !Straddled(v.queue, op, d)
    ensures SplitsInOrder(v, Flush(v, outcomes, limit), op)
  {
    var n := |v.queue|;
    var r := RunOf(v, outcomes, limit);
    assert v.queue[..n] == v.queue;
    if QuarantinedLane(v, op) {
      NoneWhenQuarantined(r, n, op);
    } else if AllBehind(v.queue, op, d) {
      PrefixWhenBehind(r, n, op, d);
    } else {
      var i, m :| 0 <= i <= m < n && IsOf(v.queue[i], op) && Names(v.queue[m].report, d);
      var k := LastOne(v.queue, m, d);
      NoneWhenAhead(r, n, op, d, k);
    }
  }

  lemma LastOne(queue: seq<Item>, m: nat, d: string) returns (k: nat)
    requires m < |queue| && Names(queue[m].report, d)
    ensures m <= k && LastNaming(queue, k, d)
    decreases |queue| - m
  {
    k := m;
    if j :| m < j < |queue| && Names(queue[j].report, d) {
      k := LastOne(queue, j, d);
    }
  }

  // ----- and if it does -----

  /** Snapshots are queued in the order of their numbers, and every key once. */
  ghost predicate Ordered(queue: seq<Item>) {
    && (forall i | i in queue :: i.seqNo != 0 <==> i.report.Snapshot?)
    && (forall i, j | 0 <= i < j < |queue| && queue[i].report.Snapshot? && queue[j].report.Snapshot? :: queue[i].seqNo < queue[j].seqNo)
    && (forall i, j | 0 <= i < j < |queue| :: KeyOf(queue[i].report) != KeyOf(queue[j].report))
  }

  lemma {:induction false} EarliestIsLeast(queue: seq<Item>)
    ensures forall i | i in queue && i.seqNo != 0 :: 0 < Earliest(queue) <= i.seqNo
    ensures Earliest(queue) != 0 ==> exists i | i in queue :: i.seqNo == Earliest(queue)
  {
    if queue != [] {
      var front, last := queue[..|queue| - 1], queue[|queue| - 1];
      assert queue == front + [last];
      EarliestIsLeast(front);
    }
  }

  ghost predicate NoSnapshots(items: seq<Item>) {
    forall i | i in items :: !i.report.Snapshot?
  }

  function AllWell(n: nat): (outcomes: seq<Outcome>)
    ensures |outcomes| == n && forall i | 0 <= i < n :: outcomes[i].Accepted?
  {
    seq(n, _ => Accepted)
  }

  /** In front of a flush that goes well, each snapshot is the earliest left. */
  lemma SnapshotNotHeld(queue: seq<Item>, n: nat, left: seq<Item>)
    requires Ordered(queue) && n < |queue| && queue[n].report.Snapshot?
    requires NoSnapshots(left) && forall i | i in left :: i in queue
    ensures Earliest(queue[n..] + left) == queue[n].seqNo
  {
    var q := queue[n..] + left;
    EarliestIsLeast(q);
    assert q[0] == queue[n] && q[0] in q;
    var i :| i in q && i.seqNo == Earliest(q);
    assert i in left ==> i in queue;
    if i !in left {
      var m :| 0 <= m < |queue[n..]| && queue[n..][m] == i;
      assert queue[n + m] == i && i in queue;
    }
  }

  /** Only reports are left behind, and no lane failed. */
  ghost predicate GoesWell(v: View, t: Turn, left: seq<Item>, op: string) {
    NoSnapshots(left) && t.blocked == {} && (QuarantinedLane(t.view, op) ==> QuarantinedLane(v, op))
  }

  predicate AllAccepted(outcomes: seq<Outcome>) {
    forall i | 0 <= i < |outcomes| :: outcomes[i].Accepted?
  }

  /** If the sender accepts everything, it goes well. */
  lemma {:induction false} OnlyReportsLeft(r: Run, n: nat, op: string)
    requires IsFlush(r) && n <= |r.view.queue| && Ordered(r.view.queue) && AllAccepted(r.outcomes)
    ensures GoesWell(r.view, r.stages[n].turn, r.stages[n].left, op)
  {
    if n > 0 {
      OnlyReportsLeft(r, n - 1, op);
      WellTurn(r, n - 1, op);
    }
  }

  lemma WellTurn(r: Run, n: nat, op: string)
    requires IsFlush(r) && n < |r.view.queue| && Ordered(r.view.queue) && AllAccepted(r.outcomes)
    requires GoesWell(r.view, r.stages[n].turn, r.stages[n].left, op)
    ensures GoesWell(r.view, r.stages[n + 1].turn, r.stages[n + 1].left, op)
  {
    var next := TurnAt(r, n);
    SentOrLeft(r, n);
    if r.view.queue[n].report.Snapshot? {
      assert forall i | i in r.view.queue[..n] :: i in r.view.queue;
      SnapshotNotHeld(r.view.queue, n, r.stages[n].left);
    }
  }

  /** What was sent stays sent, and what was left stays left. */
  lemma {:induction false} StagesGrow(r: Run, n: nat, m: nat, i: Item)
    requires IsFlush(r) && n <= m <= |r.view.queue|
    ensures i in r.stages[n].left ==> i in r.stages[m].left
    ensures i in r.stages[n].turn.sent ==> i in r.stages[m].turn.sent
    decreases m - n
  {
    if n < m {
      StagesGrow(r, n, m - 1, i);
      var next := TurnAt(r, m - 1);
    }
  }

  /** Each item of `done` once: sent or left. */
  ghost predicate Apart(done: seq<Item>, stage: Stage) {
    && (forall i | i in stage.turn.sent :: i in done && i !in stage.left)
    && forall i | i in stage.left :: i in done
  }

  lemma {:induction false} SentOrLeft(r: Run, n: nat)
    requires IsFlush(r) && n <= |r.view.queue| && Ordered(r.view.queue)
    ensures Apart(r.view.queue[..n], r.stages[n])
  {
    if n > 0 {
      SentOrLeft(r, n - 1);
      ApartTurn(r, n - 1);
    }
  }

  lemma ApartTurn(r: Run, n: nat)
    requires IsFlush(r) && n < |r.view.queue| && Ordered(r.view.queue) && Apart(r.view.queue[..n], r.stages[n])
    ensures Apart(r.view.queue[..n + 1], r.stages[n + 1])
  {
    var next := TurnAt(r, n);
    NotBefore(r.view.queue, n);
  }

  lemma NotBefore(queue: seq<Item>, n: nat)
    requires Ordered(queue) && n < |queue|
    ensures queue[n] !in queue[..n]
  {
  }

  lemma {:induction false} FirstOf(queue: seq<Item>, i: nat, op: string) returns (f: nat)
    requires i < |queue| && IsOf(queue[i], op)
    ensures f <= i && IsOf(queue[f], op) && Of(queue, op) != [] && Of(queue, op)[0] == queue[f]
  {
    var front := queue[..|queue| - 1];
    if j :| 0 <= j < |front| && j <= i && IsOf(front[j], op) {
      f := FirstOf(front, j, op);
    } else {
      f := i;
      NoneOf(front, op);
    }
  }

  lemma {:induction false} NoneOf(items: seq<Item>, op: string)
    requires forall j | 0 <= j < |items| :: !IsOf(items[j], op)
    ensures Of(items, op) == []
  {
    if items != [] { NoneOf(items[..|items| - 1], op); }
  }

  /** The operation's report at `j`, behind every snapshot that names its diagnostic, is sent. */
  lemma SentBehind(r: Run, op: string, d: string, j: nat)
    requires IsFlush(r) && j < |r.view.queue| && Ordered(r.view.queue) && AllAccepted(r.outcomes)
    requires Regular(r.view, op, d) && IsOf(r.view.queue[j], op)
    requires forall m | j < m < |r.view.queue| :: !Names(r.view.queue[m].report, d)
    ensures r.view.queue[j] in r.stages[|r.view.queue|].turn.sent
  {
    OnlyReportsLeft(r, j, op);
    var next := TurnAt(r, j);
    AwaitedSplit(r.view.queue[j..], r.stages[j].left, d);
    assert !Awaited(r.view.queue[j..], d);
    StagesGrow(r, j + 1, |r.view.queue|, r.view.queue[j]);
  }

  /** The operation's report at `i`, in front of a snapshot that names its diagnostic, is held. */
  lemma HeldInFront(r: Run, op: string, d: string, i: nat, k: nat)
    requires IsFlush(r) && i < k < |r.view.queue| && Ordered(r.view.queue)
    requires Regular(r.view, op, d) && IsOf(r.view.queue[i], op) && Names(r.view.queue[k].report, d)
    ensures r.view.queue[i] !in r.stages[|r.view.queue|].turn.sent
  {
    var next := TurnAt(r, i);
    assert r.view.queue[k] == r.view.queue[i..][k - i];
    AwaitedSplit(r.view.queue[i..], r.stages[i].left, d);
    StagesGrow(r, i + 1, |r.view.queue|, r.view.queue[i]);
    SentOrLeft(r, |r.view.queue|);
  }

  lemma OvertakenWhenStraddled(v: View, outcomes: seq<Outcome>, limit: nat, op: string, d: string)
    requires |outcomes| == |v.queue| && AllAccepted(outcomes) && Ordered(v.queue) && Regular(v, op, d) && Straddled(v.queue, op, d)
    ensures !SplitsInOrder(v, Flush(v, outcomes, limit), op)
  {
    var r := RunOf(v, outcomes, limit);
    var i, k, j := Straddlers(v.queue, op, d);
    HeldInFront(r, op, d, i, k);
    SentBehind(r, op, d, j);
    PrefixNeedsFirst(Flush(v, outcomes, limit).sent, v.queue, op, v.queue[j]);
  }

  lemma Straddlers(queue: seq<Item>, op: string, d: string) returns (i: nat, k: nat, j: nat)
    requires Straddled(queue, op, d)
    ensures i < k < j < |queue| && IsOf(queue[i], op) && IsOf(queue[j], op) && Names(queue[k].report, d)
    ensures forall m | j < m < |queue| :: !Names(queue[m].report, d)
    ensures Of(queue, op) != [] && Of(queue, op)[0] == queue[i]
  {
    k :| 0 <= k < |queue| && LastNaming(queue, k, d)
      && (exists i | 0 <= i < k :: IsOf(queue[i], op)) && (exists j | k < j < |queue| :: IsOf(queue[j], op));
    i :| 0 <= i < k && IsOf(queue[i], op);
    j :| k < j < |queue| && IsOf(queue[j], op);
    i := FirstOf(queue, i, op);
  }

  /** Whoever was sent without the first of the queue was not sent in order. */
  lemma PrefixNeedsFirst(sent: seq<Item>, queue: seq<Item>, op: string, i: Item)
    requires i in sent && IsOf(i, op) && Of(queue, op) != [] && Of(queue, op)[0] !in sent
    ensures !(Of(sent, op) <= Of(queue, op))
  {
    var m :| 0 <= m < |sent| && sent[m] == i;
    var f := FirstOf(sent, m, op);
  }

  /** A complete flush delivers an operation's queued reports in order, whatever the sender answers,
      exactly when the last queued snapshot that names its diagnostic does not lie between two of them. */
  lemma DeliveredInOrderIff(v: View, limit: nat, op: string, d: string)
    requires Ordered(v.queue) && Regular(v, op, d)
    ensures !Straddled(v.queue, op, d) <==>
              forall outcomes: seq<Outcome> | |outcomes| == |v.queue| :: SplitsInOrder(v, Flush(v, outcomes, limit), op)
  {
    if Straddled(v.queue, op, d) {
      OvertakenWhenStraddled(v, AllWell(|v.queue|), limit, op, d);
    } else {
      forall outcomes: seq<Outcome> | |outcomes| == |v.queue| ensures SplitsInOrder(v, Flush(v, outcomes, limit), op) {
        InOrderUnlessStraddled(v, outcomes, limit, op, d);
      }
    }
  }

  // ----- whole histories -----

  datatype Call = Put(report: Report) | Drain(outcomes: seq<Outcome>)

  /** `admitted` is everything that entered the queue, `delivered` everything the sender accepted. */
  datatype State = State(view: View, admitted: seq<Item>, delivered: seq<Item>)

  ghost predicate Did(before: State, call: Call, after: State, limit: nat) {
    match call
    case Put(r) =>
      && after.view == Enqueued(before.view, r, limit).view && after.delivered == before.delivered
      && after.admitted == (if Known(before.view, r) || Full(before.view, r, limit) then before.admitted
                            else before.admitted + [Numbered(before.view, r)])
    case Drain(outcomes) =>
      && |outcomes| == |before.view.queue| && after.admitted == before.admitted
      && after.view == Flush(before.view, outcomes, limit).view
      && after.delivered == before.delivered + Flush(before.view, outcomes, limit).sent
  }

  /** Calls one after the other, without overlap and none cancelled. */
  ghost predicate IsHistory(states: seq<State>, calls: seq<Call>, limit: nat) {
    && |states| == |calls| + 1 && states[0] == State(View([], map[], {}, [], 0), [], [])
    && forall k: nat | k < |calls| :: Did(states[k], calls[k], states[k + 1], limit)
  }

  /** At every flush the operation's queued reports carry one diagnostic and are not straddled. */
  ghost predicate Unstraddled(states: seq<State>, calls: seq<Call>, op: string, d: string) {
    |states| == |calls| + 1 &&
    forall k: nat | k < |calls| && calls[k].Drain? ::
      OneDiagnostic(states[k].view.queue, op, d) && !Straddled(states[k].view.queue, op, d)
  }

  lemma OfConcat(a: seq<Item>, b: seq<Item>, op: string)
    ensures Of(a + b, op) == Of(a, op) + Of(b, op)
    decreases |b|
  {
    if b == [] {
      assert a + b == a;
    } else {
      OfConcat(a, b[..|b| - 1], op);
      assert (a + b)[..|a + b| - 1] == a + b[..|b| - 1];
    }
  }

  /** Dropping snapshots leaves an operation's reports as they are. */
  lemma {:induction false} OfCoalesced(queue: seq<Item>, op: string)
    ensures Of(Coalesced(queue), op) == Of(queue, op)
  {
    if queue != [] {
      var front, last := queue[..|queue| - 1], queue[|queue| - 1];
      OfCoalesced(front, op);
      if !last.report.Operation? && !last.report.Snapshot? { OfNext(Coalesced(front), last, op); }
    }
  }

  /** What was delivered of an operation, followed by what is queued, is what was admitted. */
  ghost predicate Balanced(s: State, op: string) {
    Of(s.admitted, op) == Of(s.delivered, op) + Of(s.view.queue, op)
  }

  lemma PutKeepsBalance(s: State, r: Report, next: State, limit: nat, op: string)
    requires Balanced(s, op) && Did(s, Put(r), next, limit)
    ensures Balanced(next, op)
  {
    var item, room := Numbered(s.view, r), Made(s.view, r);
    OfCoalesced(s.view.queue, op);
    assert Of(room.queue, op) == Of(s.view.queue, op);
    OfNext(room.queue, item, op);
    OfNext(s.admitted, item, op);
    if IsOf(item, op) { Pushed(Of(s.delivered, op), Of(s.view.queue, op), item); }
  }

  lemma DrainKeepsBalance(s: State, outcomes: seq<Outcome>, next: State, limit: nat, op: string, d: string)
    requires Balanced(s, op) && Did(s, Drain(outcomes), next, limit)
    requires OneDiagnostic(s.view.queue, op, d) && !Straddled(s.view.queue, op, d)
    ensures Balanced(next, op)
  {
    InOrderUnlessStraddled(s.view, outcomes, limit, op, d);
    var t := Flush(s.view, outcomes, limit);
    OfConcat(s.delivered, t.sent, op);
    Regrouped(Of(s.delivered, op), Of(t.sent, op), Of(t.view.queue, op));
  }

  lemma Regrouped(a: seq<Item>, b: seq<Item>, c: seq<Item>)
    ensures a + (b + c) == a + b + c
  {
  }

  lemma {:induction false} PrefixUnlessStraddled(states: seq<State>, calls: seq<Call>, limit: nat, op: string, d: string, n: nat)
    requires IsHistory(states, calls, limit) && Unstraddled(states, calls, op, d) && n <= |calls|
    ensures Balanced(states[n], op) && Of(states[n].delivered, op) <= Of(states[n].admitted, op)
  {
    if n > 0 {
      PrefixUnlessStraddled(states, calls, limit, op, d, n - 1);
      assert Did(states[n - 1], calls[n - 1], states[n], limit);
      match calls[n - 1]
      case Put(r) => PutKeepsBalance(states[n - 1], r, states[n], limit, op);
      case Drain(outcomes) => DrainKeepsBalance(states[n - 1], outcomes, states[n], limit, op, d);
    }
  }

  // ----- what was enqueued decides -----

  /** A snapshot naming the diagnostic stands between two reports of the operation. */
  ghost predicate Interposed(items: seq<Item>, op: string, d: string) {
    exists i, k, j | 0 <= i < k < j < |items| :: IsOf(items[i], op) && Names(items[k].report, d) && IsOf(items[j], op)
  }

  /** The queue only ever loses items of what was admitted, and never reorders it. */
  lemma {:induction false} QueueWithinAdmitted(states: seq<State>, calls: seq<Call>, limit: nat, n: nat)
    requires IsHistory(states, calls, limit) && n <= |calls|
    ensures Within(states[n].view.queue, states[n].admitted)
  {
    if n > 0 {
      QueueWithinAdmitted(states, calls, limit, n - 1);
      var s := states[n - 1];
      assert Did(s, calls[n - 1], states[n], limit);
      match calls[n - 1]
      case Put(r) => PutStaysWithin(s, r, states[n], limit);
      case Drain(outcomes) =>
        FlushKeepsOrder(s.view, outcomes, limit);
        WithinTransitive(states[n].view.queue, s.view.queue, s.admitted);
    }
  }

  lemma PutStaysWithin(s: State, r: Report, next: State, limit: nat)
    requires Within(s.view.queue, s.admitted) && Did(s, Put(r), next, limit)
    ensures Within(next.view.queue, next.admitted)
  {
    var room := Made(s.view, r).queue;
    if r.Snapshot? {
      CoalescedWithin(s.view.queue);
      WithinTransitive(room, s.view.queue, s.admitted);
    }
    WithinNext(room, s.admitted, Numbered(s.view, r));
  }

  lemma {:induction false} AdmittedGrows(states: seq<State>, calls: seq<Call>, limit: nat, n: nat, m: nat)
    requires IsHistory(states, calls, limit) && n <= m <= |calls|
    ensures states[n].admitted <= states[m].admitted
    decreases m
  {
    if n < m {
      AdmittedGrows(states, calls, limit, n, m - 1);
      assert Did(states[m - 1], calls[m - 1], states[m], limit);
    }
  }

  lemma StraddledWithin(queue: seq<Item>, admitted: seq<Item>, op: string, d: string)
    requires Within(queue, admitted)
    ensures Straddled(queue, op, d) ==> Interposed(admitted, op, d)
    ensures OneDiagnostic(admitted, op, d) ==> OneDiagnostic(queue, op, d)
  {
    var at := Positions(queue, admitted);
    if Straddled(queue, op, d) {
      var k :| 0 <= k < |queue| && LastNaming(queue, k, d)
               && (exists i | 0 <= i < k :: IsOf(queue[i], op)) && (exists j | k < j < |queue| :: IsOf(queue[j], op));
      var i :| 0 <= i < k && IsOf(queue[i], op);
      var j :| k < j < |queue| && IsOf(queue[j], op);
      assert at[i] < at[k] < at[j];
      assert IsOf(admitted[at[i]], op) && Names(admitted[at[k]].report, d) && IsOf(admitted[at[j]], op);
    }
  }

  /** If no snapshot naming an operation's diagnostic was admitted between two of its reports, these are
      delivered as a prefix of the order they were admitted in, and the rest is still queued in that order. */
  lemma DeliveredIsPrefix(states: seq<State>, calls: seq<Call>, limit: nat, op: string, d: string, n: nat)
    requires IsHistory(states, calls, limit) && n <= |calls|
    requires OneDiagnostic(states[n].admitted, op, d) && !Interposed(states[n].admitted, op, d)
    ensures Balanced(states[n], op) && Of(states[n].delivered, op) <= Of(states[n].admitted, op)
  {
    var past, done := states[..n + 1], calls[..n];
    assert IsHistory(past, done, limit) by {
      forall k: nat | k < |done| ensures Did(past[k], done[k], past[k + 1], limit) {
        assert Did(states[k], calls[k], states[k + 1], limit);
      }
    }
    forall k: nat | k < |done| && done[k].Drain?
      ensures OneDiagnostic(past[k].view.queue, op, d) && !Straddled(past[k].view.queue, op, d)
    {
      QueueWithinAdmitted(states, calls, limit, k);
      AdmittedGrows(states, calls, limit, k, n);
      StraddledWithin(states[k].view.queue, states[k].admitted, op, d);
    }
    PrefixUnlessStraddled(past, done, limit, op, d, n);
  }

  /** The same condition on the calls, which a caller can see to: the operation's reports carry one
      diagnostic, and no snapshot that names it is enqueued between two of them. */
  ghost predicate Grouped(calls: seq<Call>, op: string, d: string) {
    && (forall k | 0 <= k < |calls| && IsPutOf(calls[k], op) :: calls[k].report.diagnosticId == d)
    && !exists i, k, j | 0 <= i < k < j < |calls| :: IsPutOf(calls[i], op) && IsPutNaming(calls[k], d) && IsPutOf(calls[j], op)
  }

  predicate IsPutOf(c: Call, op: string) {
    c.Put? && c.report.Operation? && c.report.operationId == op
  }

  predicate IsPutNaming(c: Call, d: string) {
    c.Put? && Names(c.report, d)
  }

  /** By which calls the items were admitted. */
  lemma {:induction false} AdmittedBy(states: seq<State>, calls: seq<Call>, limit: nat, n: nat) returns (at: seq<nat>)
    requires IsHistory(states, calls, limit) && n <= |calls|
    ensures |at| == |states[n].admitted|
    ensures forall i | 0 <= i < |at| :: at[i] < n && calls[at[i]] == Put(states[n].admitted[i].report)
    ensures forall i, j | 0 <= i < j < |at| :: at[i] < at[j]
  {
    at := [];
    if n > 0 {
      at := AdmittedBy(states, calls, limit, n - 1);
      assert Did(states[n - 1], calls[n - 1], states[n], limit);
      if |states[n].admitted| > |states[n - 1].admitted| {
        at := at + [n - 1];
      }
    }
  }

  lemma DeliveredInOrderOfCalls(states: seq<State>, calls: seq<Call>, limit: nat, op: string, d: string, n: nat)
    requires IsHistory(states, calls, limit) && Grouped(calls, op, d) && n <= |calls|
    ensures Balanced(states[n], op) && Of(states[n].delivered, op) <= Of(states[n].admitted, op)
  {
    var at := AdmittedBy(states, calls, limit, n);
    var items := states[n].admitted;
    assert OneDiagnostic(items, op, d) by {
      forall item | item in items && IsOf(item, op) ensures item.report.diagnosticId == d {
        var i :| 0 <= i < |items| && items[i] == item;
        assert IsPutOf(calls[at[i]], op);
      }
    }
    if Interposed(items, op, d) {
      var i, k, j :| 0 <= i < k < j < |items| && IsOf(items[i], op) && Names(items[k].report, d) && IsOf(items[j], op);
      assert at[i] < at[k] < at[j];
      assert IsPutOf(calls[at[i]], op) && IsPutNaming(calls[at[k]], d) && IsPutOf(calls[at[j]], op);
      assert false;
    }
    DeliveredIsPrefix(states, calls, limit, op, d, n);
  }
}
