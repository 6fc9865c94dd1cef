/** The reporter with its counters: each call does to the queue what `ReportQueue` says, and the keys,
    lane counters and pending diagnostics always agree with what is queued. */
module BoundedReporter {
  import opened ReportQueue
  import opened ReportRuns

  datatype Lane = Lane(pending: nat, terminal: bool, quarantined: bool)

  // ----- counting -----

  function CountOperation(queue: seq<Item>, op: string): nat {
    if queue == [] then 0
    else
      var last := queue[|queue| - 1].report;
      CountOperation(queue[..|queue| - 1], op) + if last.Operation? && last.operationId == op then 1 else 0
  }

  function CountIn(diagnostics: seq<Diagnostic>, id: string): nat {
    if diagnostics == [] then 0
    else CountIn(diagnostics[..|diagnostics| - 1], id) + if diagnostics[|diagnostics| - 1].id == id then 1 else 0
  }

  function Named(r: Report, id: string): nat {
    if r.Snapshot? then CountIn(r.diagnostics, id) else 0
  }

  function CountNamed(queue: seq<Item>, id: string): nat {
    if queue == [] then 0
    else CountNamed(queue[..|queue| - 1], id) + Named(queue[|queue| - 1].report, id)
  }

  function KeysOf(queue: seq<Item>): set<Key> {
    set i | i in queue :: KeyOf(i.report)
  }

  function Pending(pending: map<string, nat>, id: string): nat {
    if id in pending then pending[id] else 0
  }

  lemma {:induction false} CountConcat(a: seq<Item>, b: seq<Item>)
    ensures forall op :: CountOperation(a + b, op) == CountOperation(a, op) + CountOperation(b, op)
    ensures forall id :: CountNamed(a + b, id) == CountNamed(a, id) + CountNamed(b, id)
  {
    if b == [] {
      assert a + b == a;
    } else {
      CountConcat(a, b[..|b| - 1]);
      assert (a + b)[..|a + b| - 1] == a + b[..|b| - 1];
    }
  }

  lemma CountOne(i: Item)
    ensures forall op :: CountOperation([i], op) == if i.report.Operation? && i.report.operationId == op then 1 else 0
    ensures forall id :: CountNamed([i], id) == Named(i.report, id)
  {
    assert [i][..0] == [];
  }

  lemma {:induction false} CountedIsThere(queue: seq<Item>, op: string)
    ensures CountOperation(queue, op) > 0 <==> HasOperation(queue, op)
  {
    if queue != [] {
      CountedIsThere(queue[..|queue| - 1], op);
      assert queue == queue[..|queue| - 1] + [queue[|queue| - 1]];
    }
  }

  lemma {:induction false} CountInIsThere(diagnostics: seq<Diagnostic>, id: string)
    ensures CountIn(diagnostics, id) > 0 <==> exists d | d in diagnostics :: d.id == id
  {
    if diagnostics != [] {
      CountInIsThere(diagnostics[..|diagnostics| - 1], id);
      assert diagnostics == diagnostics[..|diagnostics| - 1] + [diagnostics[|diagnostics| - 1]];
    }
  }

  lemma {:induction false} PendingIsAwaited(queue: seq<Item>, id: string)
    ensures CountNamed(queue, id) > 0 <==> Awaited(queue, id)
  {
    if queue != [] {
      var last := queue[|queue| - 1];
      PendingIsAwaited(queue[..|queue| - 1], id);
      if last.report.Snapshot? { CountInIsThere(last.report.diagnostics, id); }
      assert queue == queue[..|queue| - 1] + [last];
    }
  }

  // ----- the bookkeeping invariant -----

  ghost predicate KeysAgree(queue: seq<Item>, keys: set<Key>) {
    KeysApart(queue) && keys == KeysOf(queue)
  }

  ghost predicate LanesAgree(queue: seq<Item>, operations: map<string, Lane>) {
    && (forall op | op in operations :: operations[op].pending == CountOperation(queue, op))
    && (forall op :: CountOperation(queue, op) > 0 ==> op in operations)
  }

  ghost predicate PendingAgrees(queue: seq<Item>, pending: map<string, nat>) {
    (forall id :: Pending(pending, id) == CountNamed(queue, id)) && forall id | id in pending :: pending[id] > 0
  }

  function FlagsOf(operations: map<string, Lane>): (m: map<string, Flags>)
    ensures m.Keys == operations.Keys && |m| == |operations|
  {
    var m := map op | op in operations :: Flags(operations[op].terminal, operations[op].quarantined);
    assert m.Keys == operations.Keys;
    m
  }

  lemma FlagsUpdate(operations: map<string, Lane>, op: string, lane: Lane)
    ensures FlagsOf(operations[op := lane]) == FlagsOf(operations)[op := Flags(lane.terminal, lane.quarantined)]
    ensures FlagsOf(operations - {op}) == FlagsOf(operations) - {op}
  {
  }

  // ----- one item more, one item less -----

  lemma AppendAgrees(queue: seq<Item>, item: Item, keys: set<Key>)
    requires KeysAgree(queue, keys) && KeyOf(item.report) !in keys
    ensures KeysAgree(queue + [item], keys + {KeyOf(item.report)})
  {
    var q := queue + [item];
    forall i, j | 0 <= i < j < |q| ensures KeyOf(q[i].report) != KeyOf(q[j].report) {
      if j == |queue| { assert queue[i] in queue; }
    }
  }

  lemma RemoveAgrees(a: seq<Item>, item: Item, b: seq<Item>, keys: set<Key>)
    requires KeysAgree(a + [item] + b, keys)
    ensures KeysAgree(a + b, keys - {KeyOf(item.report)})
  {
    var q, r := a + [item] + b, a + b;
    forall i, j | 0 <= i < j < |r| ensures KeyOf(r[i].report) != KeyOf(r[j].report) {
      var i1, j1 := if i < |a| then i else i + 1, if j < |a| then j else j + 1;
      assert q[i1] == r[i] && q[j1] == r[j];
    }
    forall i | i in r ensures KeyOf(i.report) in KeysOf(q) && KeyOf(i.report) != KeyOf(item.report) {
      var k :| 0 <= k < |r| && r[k] == i;
      var k1 := if k < |a| then k else k + 1;
      assert q[k1] == i && q[|a|] == item && i in q;
    }
    forall i | i in q && KeyOf(i.report) != KeyOf(item.report) ensures i in r {}
  }

  lemma CountMiddle(a: seq<Item>, item: Item, b: seq<Item>)
    ensures forall op :: CountOperation(a + [item] + b, op) == CountOperation(a + b, op) + if item.report.Operation? && item.report.operationId == op then 1 else 0
    ensures forall id :: CountNamed(a + [item] + b, id) == CountNamed(a + b, id) + Named(item.report, id)
  {
    CountConcat(a + [item], b);
    CountConcat(a, [item]);
    CountConcat(a, b);
    CountOne(item);
  }

  lemma LanesWithout(a: seq<Item>, item: Item, b: seq<Item>, operations: map<string, Lane>)
    requires LanesAgree(a + [item] + b, operations) && !item.report.Operation?
    ensures LanesAgree(a + b, operations)
  {
    CountMiddle(a, item, b);
  }

  lemma LanesWith(queue: seq<Item>, item: Item, operations: map<string, Lane>)
    requires LanesAgree(queue, operations) && !item.report.Operation?
    ensures LanesAgree(queue + [item], operations)
  {
    CountConcat(queue, [item]);
    CountOne(item);
  }

  lemma LaneCounted(queue: seq<Item>, item: Item, operations: map<string, Lane>, lane: Lane)
    requires LanesAgree(queue, operations) && item.report.Operation?
    requires lane.pending == 1 + if item.report.operationId in operations then operations[item.report.operationId].pending else 0
    ensures LanesAgree(queue + [item], operations[item.report.operationId := lane])
  {
    CountConcat(queue, [item]);
    CountOne(item);
  }

  lemma PendingWith(queue: seq<Item>, item: Item, before: map<string, nat>, after: map<string, nat>)
    requires PendingAgrees(queue, before)
    requires if item.report.Snapshot? then Shifted(before, after, item.report.diagnostics, true) else after == before
    ensures PendingAgrees(queue + [item], after)
  {
    CountConcat(queue, [item]);
    CountOne(item);
  }

  /** What is to be added to or taken from the pending diagnostics for the first diagnostics of a
      snapshot. */
  ghost predicate Shifted(before: map<string, nat>, after: map<string, nat>, diagnostics: seq<Diagnostic>, up: bool) {
    && (forall id :: if up then Pending(after, id) == Pending(before, id) + CountIn(diagnostics, id)
                     else Pending(before, id) == Pending(after, id) + CountIn(diagnostics, id))
    && forall id | id in after :: after[id] > 0
  }

  lemma PrefixCounts(diagnostics: seq<Diagnostic>, n: nat)
    requires n <= |diagnostics|
    ensures forall id :: CountIn(diagnostics[..n], id) <= CountIn(diagnostics, id)
    decreases |diagnostics| - n
  {
    if n < |diagnostics| {
      PrefixCounts(diagnostics, n + 1);
      assert diagnostics[..n + 1][..n] == diagnostics[..n];
    } else {
      assert diagnostics[..n] == diagnostics;
    }
  }

  class Reporter {
    const limit: nat
    var queue: seq<Item>
    var keys: set<Key>
    var sent: set<Key>
    var sentOrder: seq<Key>
    var operations: map<string, Lane>
    var diagnosticPending: map<string, nat>
    var nextDiagnosticSeq: nat

    constructor (limit: nat)
      ensures Valid() && View() == EMPTY && this.limit == if limit < 1 then 1 else limit
    {
      this.limit := if limit < 1 then 1 else limit;
      queue, keys, sent, sentOrder, operations, diagnosticPending, nextDiagnosticSeq := [], {}, {}, [], map[], map[], 0;
    }

    /** The counters agree with the queue. */
    ghost predicate Valid()
      reads this
    {
      KeysAgree(queue, keys) && LanesAgree(queue, operations) && PendingAgrees(queue, diagnosticPending)
    }

    function View(): View
      reads this
    {
      ReportQueue.View(queue, FlagsOf(operations), sent, sentOrder, nextDiagnosticSeq)
    }

    method AddPendingDiagnostics(diagnostics: seq<Diagnostic>)
      requires forall id | id in diagnosticPending :: diagnosticPending[id] > 0
      modifies this`diagnosticPending
      ensures Shifted(old(diagnosticPending), diagnosticPending, diagnostics, true)
    {
      for i := 0 to |diagnostics|
        invariant Shifted(old(diagnosticPending), diagnosticPending, diagnostics[..i], true)
      {
        var id := diagnostics[i].id;
        assert diagnostics[..i + 1][..i] == diagnostics[..i];
        diagnosticPending := diagnosticPending[id := Pending(diagnosticPending, id) + 1];
      }
      assert diagnostics[..|diagnostics|] == diagnostics;
    }

    method ReleasePendingDiagnostics(diagnostics: seq<Diagnostic>)
      requires forall id :: Pending(diagnosticPending, id) >= CountIn(diagnostics, id)
      requires forall id | id in diagnosticPending :: diagnosticPending[id] > 0
      modifies this`diagnosticPending
      ensures Shifted(old(diagnosticPending), diagnosticPending, diagnostics, false)
    {
      for i := 0 to |diagnostics|
        invariant Shifted(old(diagnosticPending), diagnosticPending, diagnostics[..i], false)
      {
        var id := diagnostics[i].id;
        assert diagnostics[..i + 1][..i] == diagnostics[..i];
        PrefixCounts(diagnostics, i + 1);
        assert Pending(diagnosticPending, id) > 0;
        if diagnosticPending[id] <= 1 {
          diagnosticPending := diagnosticPending - {id};
        } else {
          diagnosticPending := diagnosticPending[id := diagnosticPending[id] - 1];
        }
      }
      assert diagnostics[..|diagnostics|] == diagnostics;
    }

    /** Takes the snapshot at `i` out of the queue and the counters. */
    method RemoveSnapshot(i: nat)
      requires Valid() && i < |queue| && queue[i].report.Snapshot?
      modifies this`queue, this`keys, this`diagnosticPending
      ensures Valid() && |queue| == old(|queue|) - 1 && queue[..i] == old(queue[..i]) && queue[i..] == old(queue[i + 1..])
    {
      ghost var a, item, b := queue[..i], queue[i], queue[i + 1..];
      assert queue == a + [item] + b;
      CountMiddle(a, item, b);
      RemoveAgrees(a, item, b, keys);
      LanesWithout(a, item, b, operations);
      ReleasePendingDiagnostics(queue[i].report.diagnostics);
      keys := keys - {KeyOf(queue[i].report)};
      queue := queue[..i] + queue[i + 1..];
    }

    /** What the first `i` items coalesce to, then what is behind them, is the goal. */
    ghost predicate Coalescing(all: seq<Item>, goal: seq<Item>, i: nat)
      reads this
    {
      i <= |queue| && i <= |all| && queue[..i] == all[..i] && goal == Coalesced(all[..i]) + queue[i..]
    }

    method DropSnapshot(i: nat, ghost all: seq<Item>, ghost goal: seq<Item>)
      requires Valid() && Coalescing(all, goal, i + 1) && !queue[i].report.Operation?
      modifies this`queue, this`keys, this`diagnosticPending
      ensures Valid() && Coalescing(all, goal, i)
    {
      Peel(queue, all, i);
      CoalescedNext(all, i + 1, queue[i + 1..]);
      if queue[i].report.Snapshot? {
        RemoveSnapshot(i);
      }
    }

    /** Drops the snapshots a newer one replaces. */
    method Coalesce()
      requires Valid()
      modifies this`queue, this`keys, this`diagnosticPending
      ensures Valid() && queue == Coalesced(old(queue))
    {
      ghost var all, goal := queue, Coalesced(queue);
      var i := |queue|;
      assert all[..i] == all && goal == Coalesced(all[..i]) + [];
      while i > 0 && !queue[i - 1].report.Operation?
        invariant Valid() && Coalescing(all, goal, i)
      {
        i := i - 1;
        DropSnapshot(i, all, goal);
      }
      NothingToDrop(all[..i]);
      assert queue == queue[..i] + queue[i..];
    }

    /** Puts an admitted report at the end of the queue and counts it. */
    method Append(item: Item)
      requires Valid() && KeyOf(item.report) !in keys
      modifies this`queue, this`keys, this`operations, this`diagnosticPending
      ensures Valid() && queue == old(queue) + [item]
      ensures FlagsOf(operations) == WithLane(FlagsOf(old(operations)), item.report)
    {
      AppendAgrees(queue, item, keys);
      CountUp(item);
      queue, keys := queue + [item], keys + {KeyOf(item.report)};
    }

    method CountUp(item: Item)
      requires LanesAgree(queue, operations) && PendingAgrees(queue, diagnosticPending)
      modifies this`operations, this`diagnosticPending
      ensures LanesAgree(queue + [item], operations) && PendingAgrees(queue + [item], diagnosticPending)
      ensures FlagsOf(operations) == WithLane(FlagsOf(old(operations)), item.report)
    {
      ghost var pending := diagnosticPending;
      match item.report {
        case Operation(op, _, _) =>
          var lane := if op in operations then operations[op] else Lane(0, false, false);
          lane := lane.(pending := lane.pending + 1, terminal := lane.terminal || TerminalReport(item.report));
          LaneCounted(queue, item, operations, lane);
          FlagsUpdate(operations, op, lane);
          operations := operations[op := lane];
        case Snapshot(diagnostics) =>
          LanesWith(queue, item, operations);
          AddPendingDiagnostics(diagnostics);
        case Capability(_) =>
          LanesWith(queue, item, operations);
      }
      PendingWith(queue, item, pending, diagnosticPending);
    }

    /** A snapshot gets the next number and replaces the snapshots behind the last operation report. */
    method MakeRoom(report: Report) returns (item: Item)
      requires Valid()
      modifies this
      ensures Valid() && View() == Made(old(View()), report) && item == Numbered(old(View()), report)
      ensures operations == old(operations)
    {
      item := Item(report, 0);
      if report.Snapshot? {
        nextDiagnosticSeq := nextDiagnosticSeq + 1;
        item := Item(report, nextDiagnosticSeq);
        Coalesce();
      }
    }

    /** Admits a report, unless it is known or the lanes are full. */
    method Enqueue(report: Report) returns (accepted: bool)
      requires Valid()
      modifies this
      ensures Valid() && Admission(View(), accepted) == Enqueued(old(View()), report, limit)
    {
      var item := MakeRoom(report);
      assert KeyOf(report) in keys <==> HasKey(queue, KeyOf(report));
      if KeyOf(report) in keys {
        return true;
      }
      if KeyOf(report) in sent && !report.Snapshot? {
        return true;
      }
      if report.Operation? && report.operationId !in operations && |operations| >= limit {
        return false;
      }
      Append(item);
      return true;
    }

    /** The report to send next; a head that has to wait goes to the back instead. */
    method PickHead(blocked: set<string>) returns (picked: Option<Item>)
      requires Valid() && queue != []
      modifies this`queue
      ensures Valid() && picked == if Held(old(View()), blocked) then None else Some(old(queue[0]))
      ensures View() == if picked.None? then Rotated(old(View())) else old(View())
    {
      var item := queue[0];
      var held: bool;
      match item.report {
        case Operation(op, diagnosticId, _) =>
          PendingIsAwaited(queue, diagnosticId);
          held := op in blocked || (op in operations && operations[op].quarantined) || Pending(diagnosticPending, diagnosticId) > 0;
        case _ =>
          held := item.seqNo != 0 && item.seqNo != Earliest(queue);
      }
      if held {
        Rotate(item);
        return None;
      }
      return Some(item);
    }

    /** Replaces the head by an item of the same key at the back. */
    method Rotate(item: Item)
      requires Valid() && queue != [] && KeyOf(item.report) == KeyOf(queue[0].report)
      modifies this`queue
      ensures Valid() && queue == old(queue[1..]) + [item]
    {
      HeadFirst(queue);
      RotateKeys(queue[0], queue[1..], item, keys);
      RotateCounts(queue[0], queue[1..], item, operations, diagnosticPending);
      queue := queue[1..] + [item];
    }

    /** The sender is done with `item`: if the head still has its key, it is taken out or goes to the
        back. */
    method Settle(item: Item, outcome: Outcome) returns (matched: bool)
      requires Valid()
      modifies this
      ensures Valid() && matched == Matches(old(View()), item)
      ensures View() == Settled(old(View()), item, outcome, limit)
    {
      matched := queue != [] && KeyOf(queue[0].report) == KeyOf(item.report);
      if !matched {
        return;
      }
      if outcome.Accepted? {
        Deliver(item);
      } else {
        Rotate(item);
        if outcome.Permanent? && item.report.Operation? {
          Quarantine(item.report.operationId);
        }
      }
    }

    method Quarantine(op: string)
      requires Valid() && CountOperation(queue, op) > 0
      modifies this`operations
      ensures Valid() && FlagsOf(operations) == FlagsOf(old(operations))[op := FlagsOf(old(operations))[op].(quarantined := true)]
      ensures op in old(operations)
    {
      var lane := operations[op].(quarantined := true);
      FlagsUpdate(operations, op, lane);
      operations := operations[op := lane];
    }

    /** Takes the delivered head out and remembers its key. */
    method Deliver(item: Item)
      requires Valid() && queue != [] && KeyOf(queue[0].report) == KeyOf(item.report)
      modifies this
      ensures Valid() && View() == Delivered(old(View()), item, limit)
    {
      ghost var rest := queue[1..];
      TakeHead(item);
      if !item.report.Snapshot? {
        sent, sentOrder := sent + {KeyOf(item.report)}, sentOrder + [KeyOf(item.report)];
        if |sentOrder| > limit * 8 {
          sent, sentOrder := sent - {sentOrder[0]}, sentOrder[1..];
        }
      }
    }

    /** Takes the head out of the queue and the counters; a finished lane without reports is closed. */
    method TakeHead(item: Item)
      requires Valid() && queue != [] && KeyOf(queue[0].report) == KeyOf(item.report)
      modifies this`queue, this`keys, this`operations, this`diagnosticPending
      ensures Valid() && queue == old(queue[1..])
      ensures FlagsOf(operations) == WithoutDone(FlagsOf(old(operations)), old(queue[1..]), item.report)
    {
      HeadFirst(queue);
      RemoveAgrees([], queue[0], queue[1..], keys);
      Uncount(item.report, queue[0], queue[1..]);
      queue, keys := queue[1..], keys - {KeyOf(item.report)};
    }

    /** Takes a report with the head's key out of the counters. */
    method Uncount(r: Report, ghost first: Item, ghost rest: seq<Item>)
      requires LanesAgree([] + [first] + rest, operations) && PendingAgrees([] + [first] + rest, diagnosticPending)
      requires KeyOf(first.report) == KeyOf(r)
      modifies this`operations, this`diagnosticPending
      ensures LanesAgree(rest, operations) && PendingAgrees(rest, diagnosticPending)
      ensures FlagsOf(operations) == WithoutDone(FlagsOf(old(operations)), rest, r)
    {
      ghost var pending := diagnosticPending;
      HeadCounts(first, rest);
      LanesOfRest(first, rest, operations);
      match r {
        case Operation(op, _, _) => CountDown(op, first, rest);
        case Snapshot(diagnostics) => ReleasePendingDiagnostics(diagnostics);
        case Capability(_) =>
      }
      PendingOfRest(first, rest, pending, diagnosticPending);
    }

    /** One report less in the lane; a finished lane without reports is closed. */
    method CountDown(op: string, ghost first: Item, ghost rest: seq<Item>)
      requires LanesAgree([] + [first] + rest, operations) && first.report.Operation? && first.report.operationId == op
      modifies this`operations
      ensures LanesAgree(rest, operations)
      ensures FlagsOf(operations) == WithoutDone(FlagsOf(old(operations)), rest, first.report)
    {
      HeadCounts(first, rest);
      CountedIsThere(rest, op);
      var lane := operations[op].(pending := operations[op].pending - 1);
      FlagsUpdate(operations, op, lane);
      LaneDiscounted(first, rest, operations, lane);
      SameFlags(operations, op, lane);
      if lane.pending == 0 && lane.terminal {
        operations := operations - {op};
      } else {
        operations := operations[op := lane];
      }
    }

    /** Picks the head and, unless it waits, sends it and settles the answer. */
    method TakeTurn(blocked: set<string>) returns (outcome: Outcome, nowBlocked: set<string>)
      requires Valid() && queue != []
      modifies this
      ensures Valid() && View() == TurnOf(old(View()), blocked, outcome, limit).view
      ensures nowBlocked == TurnOf(old(View()), blocked, outcome, limit).blocked
    {
      nowBlocked, outcome := blocked, *;
      var picked := PickHead(blocked);
      if picked.Some? {
        var item := picked.value;
        var matched := Settle(item, outcome);
        if matched && !outcome.Accepted? && item.report.Operation? {
          nowBlocked := blocked + {item.report.operationId};
        }
      }
    }

    /** Sends what it can. `outcomes[k]` is what the sender answered, or would have, in turn `k`. With no
        enqueue in between, the queue is never empty before the last turn. */
    method Flush() returns (ghost outcomes: seq<Outcome>)
      requires Valid()
      modifies this
      ensures Valid() && |outcomes| == |old(View()).queue|
      ensures View() == ReportQueue.Flush(old(View()), outcomes, limit).view
    {
      var remaining, blocked := |queue|, {};
      outcomes := [];
      ghost var start, t := View(), Turn(View(), {}, []);
      while remaining > 0
        invariant Valid() && |outcomes| + remaining == |start.queue| && 0 <= remaining <= |queue|
        invariant t == Flushed(start, outcomes, |outcomes|, limit) && t.view == View() && t.blocked == blocked
      {
        remaining := remaining - 1;
        var outcome;
        outcome, blocked := TakeTurn(blocked);
        TurnShape(t.view, t.blocked, outcome, limit);
        FlushedMore(start, outcomes, limit, t, outcome);
        t := OneMore(t, outcome, limit);
        outcomes := outcomes + [outcome];
      }
    }
  }

  ghost function OneMore(t: Turn, o: Outcome, limit: nat): Turn
    requires t.view.queue != []
  {
    var next := TurnOf(t.view, t.blocked, o, limit);
    next.(sent := t.sent + next.sent)
  }

  lemma {:induction false} FlushedPrefix(start: View, a: seq<Outcome>, b: seq<Outcome>, n: nat, limit: nat)
    requires n <= |a| && n <= |b| && a[..n] == b[..n]
    ensures Flushed(start, a, n, limit) == Flushed(start, b, n, limit)
  {
    if n > 0 {
      assert a[..n][n - 1] == b[..n][n - 1] && a[..n][..n - 1] == a[..n - 1] && b[..n][..n - 1] == b[..n - 1];
      FlushedPrefix(start, a, b, n - 1, limit);
    }
  }

  lemma FlushedOnce(start: View, outcomes: seq<Outcome>, n: nat, limit: nat, t: Turn)
    requires n < |outcomes| && t == Flushed(start, outcomes, n, limit) && t.view.queue != []
    ensures Flushed(start, outcomes, n + 1, limit) == OneMore(t, outcomes[n], limit)
  {
  }

  lemma FlushedMore(start: View, outcomes: seq<Outcome>, limit: nat, t: Turn, o: Outcome)
    requires t == Flushed(start, outcomes, |outcomes|, limit) && t.view.queue != []
    ensures Flushed(start, outcomes + [o], |outcomes| + 1, limit) == OneMore(t, o, limit)
  {
    FlushedPrefix(start, outcomes, outcomes + [o], |outcomes|, limit);
    FlushedOnce(start, outcomes + [o], |outcomes|, limit, t);
  }

  lemma HeadFirst(queue: seq<Item>)
    requires queue != []
    ensures queue == [] + [queue[0]] + queue[1..] && [] + queue[1..] == queue[1..]
  {
  }

  lemma HeadCounts(first: Item, rest: seq<Item>)
    ensures forall op :: CountOperation([] + [first] + rest, op) ==
              CountOperation(rest, op) + if first.report.Operation? && first.report.operationId == op then 1 else 0
    ensures forall id :: CountNamed([] + [first] + rest, id) == CountNamed(rest, id) + Named(first.report, id)
  {
    CountMiddle([], first, rest);
    assert [] + rest == rest;
  }

  lemma RotateKeys(first: Item, rest: seq<Item>, item: Item, keys: set<Key>)
    requires KeysAgree([] + [first] + rest, keys) && KeyOf(item.report) == KeyOf(first.report)
    ensures KeysAgree(rest + [item], keys)
  {
    assert ([] + [first] + rest)[0] == first && first in [] + [first] + rest && KeyOf(first.report) in keys;
    RemoveAgrees([], first, rest, keys);
    assert [] + rest == rest;
    AppendAgrees(rest, item, keys - {KeyOf(first.report)});
    assert keys - {KeyOf(first.report)} + {KeyOf(item.report)} == keys;
  }

  lemma RotateCounts(first: Item, rest: seq<Item>, item: Item, operations: map<string, Lane>, pending: map<string, nat>)
    requires LanesAgree([] + [first] + rest, operations) && PendingAgrees([] + [first] + rest, pending)
    requires KeyOf(item.report) == KeyOf(first.report)
    ensures LanesAgree(rest + [item], operations) && PendingAgrees(rest + [item], pending)
  {
    HeadCounts(first, rest);
    CountConcat(rest, [item]);
    CountOne(item);
    assert forall id :: Named(item.report, id) == Named(first.report, id);
    assert forall op :: CountOperation(rest + [item], op) == CountOperation([] + [first] + rest, op);
  }

  lemma LaneDiscounted(first: Item, rest: seq<Item>, operations: map<string, Lane>, lane: Lane)
    requires LanesAgree([] + [first] + rest, operations) && first.report.Operation?
    requires first.report.operationId in operations && lane.pending + 1 == operations[first.report.operationId].pending
    ensures LanesAgree(rest, operations[first.report.operationId := lane])
    ensures lane.pending == 0 ==> LanesAgree(rest, operations - {first.report.operationId})
  {
    HeadCounts(first, rest);
  }

  lemma LanesOfRest(first: Item, rest: seq<Item>, operations: map<string, Lane>)
    requires LanesAgree([] + [first] + rest, operations)
    ensures !first.report.Operation? ==> LanesAgree(rest, operations)
  {
    HeadCounts(first, rest);
  }

  lemma PendingOfRest(first: Item, rest: seq<Item>, before: map<string, nat>, after: map<string, nat>)
    requires PendingAgrees([] + [first] + rest, before)
    requires if first.report.Snapshot? then Shifted(before, after, first.report.diagnostics, false) else after == before
    ensures PendingAgrees(rest, after)
  {
    HeadCounts(first, rest);
  }

  lemma SameFlags(operations: map<string, Lane>, op: string, lane: Lane)
    requires op in operations && lane.terminal == operations[op].terminal && lane.quarantined == operations[op].quarantined
    ensures FlagsOf(operations[op := lane]) == FlagsOf(operations)
  {
  }

  lemma Peel(queue: seq<Item>, all: seq<Item>, i: nat)
    requires i < |queue| && i < |all| && queue[..i + 1] == all[..i + 1]
    ensures queue[i] == all[i] && queue[..i] == all[..i] && queue[i..] == [queue[i]] + queue[i + 1..]
  {
    assert queue[..i + 1][i] == all[..i + 1][i];
    assert queue[..i + 1][..i] == queue[..i] && all[..i + 1][..i] == all[..i];
  }

  lemma NothingToDrop(queue: seq<Item>)
    requires queue == [] || queue[|queue| - 1].report.Operation?
    ensures Coalesced(queue) == queue
  {
  }

  lemma CoalescedNext(all: seq<Item>, i: nat, behind: seq<Item>)
    requires 0 < i <= |all| && !all[i - 1].report.Operation?
    ensures Coalesced(all[..i]) + behind == Coalesced(all[..i - 1]) + (if all[i - 1].report.Snapshot? then behind else [all[i - 1]] + behind)
  {
    var front := all[..i];
    assert front[..|front| - 1] == all[..i - 1] && front[|front| - 1] == all[i - 1];
    Regroup(Coalesced(all[..i - 1]), all[i - 1], behind);
  }

  lemma Regroup(a: seq<Item>, x: Item, b: seq<Item>)
    ensures a + [x] + b == a + ([x] + b)
  {
  }
}
