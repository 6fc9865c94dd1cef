/** The agent's circuit breaker: when automatic repairs of a resource are refused. */
module RecoveryBreaker {
  import opened RecoveryState

  /** Nanoseconds; 0 is the zero time. */
  type Time = int

  const MINUTE := 60 * 1_000_000_000
  const WINDOW := 15 * MINUTE
  const OPEN_TIME := 60 * MINUTE
  const FAILURES := 3

  datatype Key = Key(action: string, fingerprint: string)

  datatype Source = Automatic | User

  datatype Entry = Entry(failures: seq<Time>, openedAt: Time, rollbackFailed: bool)

  const FRESH := Entry([], 0, false)

  predicate InWindow(failure: Time, now: Time) {
    now - WINDOW <= failure <= now
  }

  /** The failures of the window that ends now. */
  function Compacted(failures: seq<Time>, now: Time): (kept: seq<Time>)
    ensures |kept| <= |failures|
    ensures forall f | f in kept :: f in failures && InWindow(f, now)
    ensures forall f | f in failures && InWindow(f, now) :: f in kept
  {
    if failures == [] then []
    else
      var before, last := Compacted(failures[..|failures| - 1], now), failures[|failures| - 1];
      assert failures == failures[..|failures| - 1] + [last];
      if InWindow(last, now) then before + [last] else before
  }

  // ----- the two calls -----

  datatype Decision = Allowed | Latched | Open(retryAt: Time)

  /** What the breaker answers, and what it remembers afterwards. */
  datatype Answer = Answer(entry: Entry, decision: Decision)

  function Asked(e: Entry, source: Source, now: Time): Answer {
    var c := e.(failures := Compacted(e.failures, now));
    if c.rollbackFailed then Answer(c, if source.User? then Allowed else Latched)
    else if c.openedAt == 0 then Answer(c, Allowed)
    else if now < c.openedAt + OPEN_TIME then Answer(c, if source.Automatic? then Open(c.openedAt + OPEN_TIME) else Allowed)
    else Answer(c.(openedAt := 0, failures := []), Allowed)
  }

  function Allow(states: map<Key, Entry>, key: Key, source: Source, now: Time): (map<Key, Entry>, Decision) {
    if key !in states then (states, Allowed)
    else
      var a := Asked(states[key], source, now);
      (states[key := a.entry], a.decision)
  }

  function LastThree(failures: seq<Time>): seq<Time> {
    if |failures| > FAILURES then failures[|failures| - FAILURES..] else failures
  }

  function Failed(e: Entry, outcome: State, at: Time): Entry {
    var failures := LastThree(Compacted(e.failures, at) + [at]);
    Entry(failures, if |failures| >= FAILURES then at else e.openedAt, e.rollbackFailed || outcome.RollbackFailed?)
  }

  /** What an outcome makes of the map, if it can be persisted; otherwise nothing changes. A success
      clears the key, but a failed rollback only if it was validated by hand. */
  function Recorded(states: map<Key, Entry>, key: Key, outcome: State, at: Time, manual: bool, persisted: bool): map<Key, Entry> {
    var e := if key in states then states[key] else FRESH;
    if outcome.Succeeded? then
      if !persisted then states else if !e.rollbackFailed || manual then states - {key} else states[key := e]
    else if !outcome.RolledBack? && !outcome.RollbackFailed? then states[key := e]
    else if persisted then states[key := Failed(e, outcome, at)]
    else states
  }

  // ----- what every entry keeps -----

  predicate Ascending(failures: seq<Time>) {
    forall i, j | 0 <= i < j < |failures| :: failures[i] <= failures[j]
  }

  /** At most three failures, in order, none after `now`, and an opening no later than that. */
  ghost predicate EntryOk(e: Entry, now: Time) {
    && |e.failures| <= FAILURES && Ascending(e.failures)
    && (forall f | f in e.failures :: 0 < f <= now) && 0 <= e.openedAt <= now
  }

  ghost predicate StatesOk(states: map<Key, Entry>, now: Time) {
    forall key | key in states :: EntryOk(states[key], now)
  }

  predicate AllUpTo(a: seq<Time>, x: Time) {
    forall i | 0 <= i < |a| :: a[i] <= x
  }

  lemma AscendingPush(a: seq<Time>, x: Time)
    requires Ascending(a) && AllUpTo(a, x)
    ensures Ascending(a + [x])
  {
  }

  lemma AscendingFront(a: seq<Time>)
    requires a != [] && Ascending(a)
    ensures Ascending(a[..|a| - 1]) && AllUpTo(a[..|a| - 1], a[|a| - 1])
  {
  }

  lemma PartUpTo(whole: seq<Time>, part: seq<Time>, x: Time)
    requires AllUpTo(whole, x) && forall f | f in part :: f in whole
    ensures AllUpTo(part, x)
  {
    forall i | 0 <= i < |part| ensures part[i] <= x {
      var f := part[i];
      assert f in part;
      var k :| 0 <= k < |whole| && whole[k] == f;
    }
  }

  lemma {:induction false} CompactedAscends(failures: seq<Time>, now: Time)
    requires Ascending(failures)
    ensures Ascending(Compacted(failures, now))
  {
    if failures != [] {
      var front, last := failures[..|failures| - 1], failures[|failures| - 1];
      AscendingFront(failures);
      CompactedAscends(front, now);
      PartUpTo(front, Compacted(front, now), last);
      AscendingPush(Compacted(front, now), last);
    }
  }

  lemma LastThreeKeeps(a: seq<Time>)
    requires a != [] && Ascending(a)
    ensures var b := LastThree(a); Ascending(b) && 0 < |b| <= FAILURES && b[|b| - 1] == a[|a| - 1] && forall f | f in b :: f in a
  {
  }

  lemma FailedOk(e: Entry, outcome: State, at: Time, now: Time)
    requires EntryOk(e, now) && now <= at && 0 < at
    ensures EntryOk(Failed(e, outcome, at), at)
    ensures Failed(e, outcome, at).failures != [] && Failed(e, outcome, at).failures[|Failed(e, outcome, at).failures| - 1] == at
  {
    var kept := Compacted(e.failures, at);
    CompactedAscends(e.failures, at);
    forall i | 0 <= i < |kept| ensures kept[i] <= at { assert kept[i] in kept; }
    AscendingPush(kept, at);
    LastThreeKeeps(kept + [at]);
  }

  lemma AskedOk(e: Entry, source: Source, now: Time, later: Time)
    requires EntryOk(e, now) && now <= later
    ensures EntryOk(Asked(e, source, later).entry, later)
  {
    CompactedAscends(e.failures, later);
  }

  // ----- runs -----

  /** The map in memory, and the map in the file of a persistent breaker. */
  datatype Tables = Tables(states: map<Key, Entry>, disk: map<Key, Entry>)

  const EMPTY := Tables(map[], map[])

  /** `Reload` is a restart: what is in memory is lost and the file is read. */
  datatype Call =
    | Ask(key: Key, source: Source, now: Time)
    | Record(key: Key, outcome: State, at: Time, manual: bool, persisted: bool)
    | Reload(now: Time)

  function TimeOf(call: Call): Time {
    match call case Ask(_, _, now) => now case Record(_, _, at, _, _) => at case Reload(now) => now
  }

  predicate Persists(outcome: State) {
    outcome.Succeeded? || outcome.RolledBack? || outcome.RollbackFailed?
  }

  function Step(t: Tables, call: Call): Tables {
    match call
    case Ask(key, source, now) => t.(states := Allow(t.states, key, source, now).0)
    case Record(key, outcome, at, manual, persisted) =>
      var after := Recorded(t.states, key, outcome, at, manual, persisted);
      Tables(after, if persisted && Persists(outcome) then after else t.disk)
    case Reload(_) => Tables(t.disk, t.disk)
  }

  /** Tables of a run: one before the first call and one after each. Times never decrease, and a restart goes
      on only if the loader accepts the file. */
  ghost predicate IsRun(runs: seq<Tables>, calls: seq<Call>) {
    && |runs| == |calls| + 1
    && (forall n: nat | n < |calls| :: runs[n + 1] == Step(runs[n], calls[n]))
    && (forall n: nat | n < |calls| :: 0 < TimeOf(calls[n]) && (calls[n].Reload? ==> FileLoads(runs[n].disk)))
    && (forall m: nat, n: nat | m < n < |calls| :: TimeOf(calls[m]) <= TimeOf(calls[n]))
  }

  ghost predicate TablesOk(t: Tables, now: Time) {
    StatesOk(t.states, now) && StatesOk(t.disk, now)
  }

  lemma StatesLater(states: map<Key, Entry>, now: Time, later: Time)
    requires StatesOk(states, now) && now <= later
    ensures StatesOk(states, later)
  {
    forall key | key in states ensures EntryOk(states[key], later) { assert EntryOk(states[key], now); }
  }

  lemma StepOk(t: Tables, call: Call, now: Time)
    requires TablesOk(t, now) && now <= TimeOf(call) && 0 < TimeOf(call)
    ensures TablesOk(Step(t, call), TimeOf(call))
  {
    StatesLater(t.states, now, TimeOf(call));
    StatesLater(t.disk, now, TimeOf(call));
    match call
    case Ask(key, source, at) =>
      if key in t.states { AskedOk(t.states[key], source, now, at); }
    case Record(key, outcome, at, manual, persisted) =>
      FailedOk(if key in t.states then t.states[key] else FRESH, outcome, at, Later(now, 0));
    case Reload(_) =>
  }

  function Later(a: Time, b: Time): Time {
    if a < b then b else a
  }

  /** At every point of a run, restarts included, there are at most three failures a key, in ascending order
      and none in the future, in memory and in the file. */
  lemma {:induction false} AtMostThreeFailures(runs: seq<Tables>, calls: seq<Call>, n: nat)
    requires IsRun(runs, calls) && runs[0] == EMPTY && n <= |calls|
    ensures TablesOk(runs[n], if n == 0 then 0 else TimeOf(calls[n - 1]))
  {
    if n > 0 {
      AtMostThreeFailures(runs, calls, n - 1);
      StepOk(runs[n - 1], calls[n - 1], if n == 1 then 0 else TimeOf(calls[n - 2]));
    }
  }

  predicate Refused(states: map<Key, Entry>, key: Key, now: Time) {
    !Allow(states, key, Automatic, now).1.Allowed?
  }

  predicate ClearsKey(call: Call, key: Key) {
    call.Record? && call.key == key && call.outcome.Succeeded?
  }

  /** Opened at `from` or later. */
  ghost predicate StillOpen(states: map<Key, Entry>, key: Key, from: Time) {
    key in states && (states[key].rollbackFailed || states[key].openedAt >= from)
  }

  lemma OpenStep(t: Tables, call: Call, key: Key, from: Time)
    requires 0 < from <= TimeOf(call) < from + OPEN_TIME && !ClearsKey(call, key)
    requires StillOpen(t.states, key, from) && StillOpen(t.disk, key, from)
    ensures StillOpen(Step(t, call).states, key, from) && StillOpen(Step(t, call).disk, key, from)
  {
  }

  lemma {:induction false} StaysOpen(runs: seq<Tables>, calls: seq<Call>, i: nat, j: nat, key: Key, from: Time)
    requires IsRun(runs, calls) && i < j <= |calls| && 0 < from <= TimeOf(calls[i])
    requires StillOpen(runs[i + 1].states, key, from) && StillOpen(runs[i + 1].disk, key, from)
    requires forall n | i < n < j :: !ClearsKey(calls[n], key) && TimeOf(calls[n]) < from + OPEN_TIME
    ensures StillOpen(runs[j].states, key, from) && StillOpen(runs[j].disk, key, from)
  {
    if i + 1 < j {
      StaysOpen(runs, calls, i, j - 1, key, from);
      assert runs[j] == Step(runs[j - 1], calls[j - 1]);
      assert TimeOf(calls[i]) <= TimeOf(calls[j - 1]);
      OpenStep(runs[j - 1], calls[j - 1], key, from);
    }
  }

  lemma OpenIsRefused(states: map<Key, Entry>, key: Key, from: Time, now: Time)
    requires StillOpen(states, key, from) && 0 < from <= now < from + OPEN_TIME
    ensures Refused(states, key, now)
  {
  }

  /** From the failure that made three within the window, every automatic request in the next hour is
      refused, whatever else happens, restarts included, unless a success of the key is recorded. */
  lemma OpenForAnHour(runs: seq<Tables>, calls: seq<Call>, i: nat, j: nat)
    requires IsRun(runs, calls) && i < j <= |calls|
    requires calls[i].Record? && calls[i].persisted && (calls[i].outcome.RolledBack? || calls[i].outcome.RollbackFailed?)
    requires |runs[i + 1].states[calls[i].key].failures| == FAILURES
    requires forall n | i < n < j :: !ClearsKey(calls[n], calls[i].key) && TimeOf(calls[n]) < calls[i].at + OPEN_TIME
    ensures forall now | calls[i].at <= now < calls[i].at + OPEN_TIME :: Refused(runs[j].states, calls[i].key, now)
  {
    var key, from := calls[i].key, calls[i].at;
    assert runs[i + 1] == Step(runs[i], calls[i]);
    assert 0 < TimeOf(calls[i]);
    StaysOpen(runs, calls, i, j, key, from);
    forall now | from <= now < from + OPEN_TIME ensures Refused(runs[j].states, key, now) {
      OpenIsRefused(runs[j].states, key, from, now);
    }
  }

  predicate ValidatesByHand(call: Call, key: Key) {
    ClearsKey(call, key) && call.manual && call.persisted
  }

  ghost predicate IsLatched(t: Tables, key: Key) {
    key in t.states && t.states[key].rollbackFailed && key in t.disk && t.disk[key].rollbackFailed
  }

  /** After a failed rollback every automatic request is refused, at any time and by any later process, until a
      success is validated by hand. */
  lemma {:induction false} LatchedUntilValidated(runs: seq<Tables>, calls: seq<Call>, i: nat, j: nat)
    requires IsRun(runs, calls) && i < j <= |calls|
    requires calls[i].Record? && calls[i].persisted && calls[i].outcome.RollbackFailed?
    requires forall n | i < n < j :: !ValidatesByHand(calls[n], calls[i].key)
    ensures IsLatched(runs[j], calls[i].key)
    ensures forall now :: Refused(runs[j].states, calls[i].key, now)
  {
    if j == i + 1 {
      assert runs[i + 1] == Step(runs[i], calls[i]);
    } else {
      LatchedUntilValidated(runs, calls, i, j - 1);
      assert runs[j] == Step(runs[j - 1], calls[j - 1]);
    }
  }

  /** Nothing else is refused: only a latched or an open key, and an open one only for its hour. */
  lemma RefusedIff(states: map<Key, Entry>, key: Key, now: Time)
    ensures Refused(states, key, now) <==>
              key in states && (states[key].rollbackFailed || (states[key].openedAt != 0 && now < states[key].openedAt + OPEN_TIME))
  {
  }

  // ----- what a restart can read back -----

  /** What the loader accepts of an entry. */
  predicate Loads(e: Entry) {
    && |e.failures| <= FAILURES && (forall f | f in e.failures :: f != 0) && Ascending(e.failures)
    && (e.openedAt != 0 ==> |e.failures| >= FAILURES)
  }

  const MAX_ENTRIES := 10000

  /** What the loader accepts of a file. */
  ghost predicate FileLoads(disk: map<Key, Entry>) {
    |disk| <= MAX_ENTRIES && forall key | key in disk :: Loads(disk[key])
  }

  /** After any run the file can be read back exactly if it is not too long and each of its keys is closed or
      still has three failures. */
  lemma LoadsIff(runs: seq<Tables>, calls: seq<Call>, n: nat)
    requires IsRun(runs, calls) && runs[0] == EMPTY && n <= |calls|
    ensures FileLoads(runs[n].disk) <==>
              && |runs[n].disk| <= MAX_ENTRIES
              && forall key | key in runs[n].disk :: runs[n].disk[key].openedAt == 0 || |runs[n].disk[key].failures| == FAILURES
  {
    AtMostThreeFailures(runs, calls, n);
    forall key | key in runs[n].disk
      ensures Loads(runs[n].disk[key]) <==> runs[n].disk[key].openedAt == 0 || |runs[n].disk[key].failures| == FAILURES
    {
      assert EntryOk(runs[n].disk[key], if n == 0 then 0 else TimeOf(calls[n - 1]));
    }
  }

  lemma {:induction false} NoneInWindow(failures: seq<Time>, now: Time)
    requires forall f | f in failures :: !InWindow(f, now)
    ensures Compacted(failures, now) == []
  {
    if failures != [] {
      NoneInWindow(failures[..|failures| - 1], now);
      assert failures[|failures| - 1] in failures;
    }
  }

  /** The calls of a caller who fails three times and, still refused, once more twenty minutes later. */
  function Failing(key: Key, at: Time): Call {
    Record(key, RolledBack, at, false, true)
  }

  function FailedAgain(key: Key): seq<Call> {
    [Failing(key, 1), Failing(key, 2), Failing(key, 3), Failing(key, 20 * MINUTE)]
  }

  const ONE_FAILURE := Entry([1], 0, false)
  const TWO_FAILURES := Entry([1, 2], 0, false)
  const OPEN_KEY := Entry([1, 2, 3], 3, false)
  const STALE_KEY := Entry([20 * MINUTE], 3, false)

  function Both(key: Key, e: Entry): Tables {
    Tables(map[key := e], map[key := e])
  }

  function FailingRun(key: Key): seq<Tables> {
    [EMPTY, Both(key, ONE_FAILURE), Both(key, TWO_FAILURES), Both(key, OPEN_KEY), Both(key, STALE_KEY)]
  }

  /** So what a run persists may be refused by the loader: the fourth failure finds the key open and the
      first three outside the window. */
  lemma OpenKeyMayNotLoad(key: Key)
    ensures IsRun(FailingRun(key), FailedAgain(key))
    ensures FileLoads(FailingRun(key)[3].disk) && !FileLoads(FailingRun(key)[4].disk)
  {
    var runs, calls := FailingRun(key), FailedAgain(key);
    forall n: nat | n < |calls| ensures runs[n + 1] == Step(runs[n], calls[n]) {
      FailingStep(key, n);
    }
    forall m: nat, n: nat | m < n < |calls| ensures TimeOf(calls[m]) <= TimeOf(calls[n]) {
      FailingTime(key, n);
    }
    forall n: nat | n < |calls| ensures 0 < TimeOf(calls[n]) && !calls[n].Reload? {
      FailingTime(key, n);
    }
    StaleDoesNotLoad(key);
  }

  lemma StaleDoesNotLoad(key: Key)
    ensures FileLoads(Both(key, OPEN_KEY).disk) && !FileLoads(Both(key, STALE_KEY).disk)
  {
    assert key in Both(key, STALE_KEY).disk && !Loads(STALE_KEY);
  }

  lemma FailingTime(key: Key, n: nat)
    requires n < 4
    ensures 0 < TimeOf(FailedAgain(key)[n]) && !FailedAgain(key)[n].Reload?
    ensures forall m: nat | m < n :: TimeOf(FailedAgain(key)[m]) <= TimeOf(FailedAgain(key)[n])
  {
  }

  lemma FailingStep(key: Key, n: nat)
    requires n < 4
    ensures FailingRun(key)[n + 1] == Step(FailingRun(key)[n], FailedAgain(key)[n])
  {
    if n == 0 {
      FirstFailure(key);
    } else if n == 1 {
      SecondFailure(key);
    } else if n == 2 {
      ThirdFailure(key);
    } else {
      FourthFailure(key);
    }
  }

  lemma FirstFailure(key: Key)
    ensures Both(key, ONE_FAILURE) == Step(EMPTY, Failing(key, 1))
  {
    FailsOnce(FRESH, 1);
    assert [] + [1] == [1];
  }

  lemma SecondFailure(key: Key)
    ensures Both(key, TWO_FAILURES) == Step(Both(key, ONE_FAILURE), Failing(key, 2))
  {
    FailsOnce(ONE_FAILURE, 2);
    assert [1] + [2] == [1, 2];
  }

  lemma ThirdFailure(key: Key)
    ensures Both(key, OPEN_KEY) == Step(Both(key, TWO_FAILURES), Failing(key, 3))
  {
    FailsOnce(TWO_FAILURES, 3);
    assert [1, 2] + [3] == [1, 2, 3];
  }

  lemma FourthFailure(key: Key)
    ensures Both(key, STALE_KEY) == Step(Both(key, OPEN_KEY), Failing(key, 20 * MINUTE))
  {
    NoneInWindow([1, 2, 3], 20 * MINUTE);
    assert Failed(OPEN_KEY, RolledBack, 20 * MINUTE) == STALE_KEY;
  }

  /** A failure within the window of all before it is added to them. */
  lemma FailsOnce(e: Entry, at: Time)
    requires |e.failures| < FAILURES && forall f | f in e.failures :: InWindow(f, at)
    ensures Failed(e, RolledBack, at) ==
              Entry(e.failures + [at], if |e.failures| + 1 >= FAILURES then at else e.openedAt, e.rollbackFailed)
  {
    AllInWindow(e.failures, at);
  }

  lemma {:induction false} AllInWindow(failures: seq<Time>, now: Time)
    requires forall f | f in failures :: InWindow(f, now)
    ensures Compacted(failures, now) == failures
  {
    if failures != [] {
      AllInWindow(failures[..|failures| - 1], now);
      assert failures == failures[..|failures| - 1] + [failures[|failures| - 1]];
    }
  }

  // ----- the breaker -----

  class Breaker {
    var states: map<Key, Entry>
    const persistent: bool
    var disk: map<Key, Entry>

    constructor (persistent: bool)
      ensures states == map[] && this.persistent == persistent
    {
      this.persistent := persistent;
      states, disk := map[], map[];
    }

    /** A restart reads the file, entry by entry, and gives up at the first one that is not well formed. */
    method Load() returns (ok: bool)
      requires persistent
      modifies this`states
      ensures ok <==> FileLoads(disk)
      ensures states == if ok then disk else old(states)
    {
      if |disk| > MAX_ENTRIES {
        return false;
      }
      var todo := disk.Keys;
      while todo != {}
        invariant todo <= disk.Keys && states == old(states)
        invariant forall key | key in disk && key !in todo :: Loads(disk[key])
      {
        var key :| key in todo;
        var ordered := Ordered(disk[key].failures);
        if |disk[key].failures| > FAILURES || !ordered || (disk[key].openedAt != 0 && |disk[key].failures| < FAILURES) {
          return false;
        }
        todo := todo - {key};
      }
      states := disk;
      return true;
    }

    method Ordered(failures: seq<Time>) returns (ok: bool)
      ensures ok <==> (forall f | f in failures :: f != 0) && Ascending(failures)
    {
      for i := 0 to |failures|
        invariant forall k | 0 <= k < i :: failures[k] != 0
        invariant Ascending(failures[..i])
      {
        assert failures[i] in failures;
        if failures[i] == 0 || (i > 0 && failures[i] < failures[i - 1]) {
          return false;
        }
      }
      return true;
    }

    method Compact(failures: seq<Time>, now: Time) returns (kept: seq<Time>)
      ensures kept == Compacted(failures, now)
    {
      var cutoff := now - WINDOW;
      kept := [];
      for i := 0 to |failures|
        invariant kept == Compacted(failures[..i], now)
      {
        assert failures[..i + 1][..i] == failures[..i];
        if !(failures[i] < cutoff) && !(failures[i] > now) {
          kept := kept + [failures[i]];
        }
      }
      assert failures[..|failures|] == failures;
    }

    method AllowRequest(key: Key, source: Source, now: Time) returns (decision: Decision)
      modifies this`states
      ensures (states, decision) == Allow(old(states), key, source, now)
    {
      if key !in states {
        return Allowed;
      }
      var e := states[key];
      var failures := Compact(e.failures, now);
      e := e.(failures := failures);
      states := states[key := e];
      if e.rollbackFailed {
        return if source.User? then Allowed else Latched;
      }
      if e.openedAt != 0 {
        var retryAt := e.openedAt + OPEN_TIME;
        if now < retryAt && source.Automatic? {
          return Open(retryAt);
        }
        if !(now < retryAt) {
          states := states[key := e.(openedAt := 0, failures := [])];
          assert states == old(states)[key := e.(openedAt := 0, failures := [])];
        }
      }
      return Allowed;
    }

    /** Writes the map if the breaker is persistent; if that fails, the map is as it was before. */
    method PersistOrRestore(before: map<Key, Entry>) returns (ok: bool)
      modifies this`states, this`disk
      ensures states == if ok then old(states) else before
      ensures disk == if ok && persistent then states else old(disk)
      ensures !persistent ==> ok
    {
      if !persistent {
        return true;
      }
      ok := *;
      if !ok {
        states := before;
        return false;
      }
      disk := states;
    }

    method Record(key: Key, outcome: State, at: Time, manual: bool) returns (ok: bool)
      modifies this`states, this`disk
      ensures states == Recorded(old(states), key, outcome, at, manual, ok)
      ensures !persistent ==> ok
    {
      var before := states;
      var e := if key in states then states[key] else FRESH;
      states := states[key := e];
      if outcome.Succeeded? {
        if !e.rollbackFailed || manual {
          states := states - {key};
        }
        assert before[key := e] - {key} == before - {key};
        ok := PersistOrRestore(before);
        return;
      }
      if !outcome.RolledBack? && !outcome.RollbackFailed? {
        return true;
      }
      e := AddFailure(e, outcome, at);
      states := states[key := e];
      assert states == before[key := e];
      ok := PersistOrRestore(before);
    }

    method AddFailure(e: Entry, outcome: State, at: Time) returns (f: Entry)
      ensures f == Failed(e, outcome, at)
    {
      var failures := Compact(e.failures, at);
      failures := failures + [at];
      if |failures| > FAILURES {
        failures := failures[|failures| - FAILURES..];
      }
      f := Entry(failures, if |failures| >= FAILURES then at else e.openedAt, e.rollbackFailed || outcome.RollbackFailed?);
    }
  }
}
