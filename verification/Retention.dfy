/** Which finished operations a retention pass removes. */
module Retention {
  import opened HelperProtocol
  import Strings

  const RETENTION_PER_ACTION := 50
  const RETENTION_AGE := 14 * 24 * HOUR
  const MAX_RETAINED := 1000

  /** The order candidates are sorted in: newest first, the larger operation id first on a tie. */
  predicate Newer(a: Record, b: Record) {
    a.updatedAt > b.updatedAt || (a.updatedAt == b.updatedAt && Strings.Less(b.operationId, a.operationId))
  }

  lemma NewerTotal(a: Record, b: Record)
    ensures !(Newer(a, b) && Newer(b, a))
    ensures a.operationId != b.operationId ==> Newer(a, b) || Newer(b, a)
    ensures !Newer(a, a)
  {
    Strings.LessTotal(a.operationId, b.operationId);
    Strings.LessTotal(a.operationId, a.operationId);
  }

  lemma NewerTransitive(a: Record, b: Record, c: Record)
    requires Newer(a, b) && Newer(b, c)
    ensures Newer(a, c)
  {
    if a.updatedAt == b.updatedAt == c.updatedAt {
      Strings.LessTransitive(c.operationId, b.operationId, a.operationId);
    }
  }

  // ----- what is removed, without any sorting or iteration order -----

  /** Operation records are keyed by their id, so no two candidates share one. */
  ghost predicate DistinctIds(c: set<Record>) {
    forall a, b | a in c && b in c && a.operationId == b.operationId :: a == b
  }

  ghost function NewerThan(c: set<Record>, r: Record): set<Record> {
    set q | q in c && Newer(q, r)
  }

  ghost function OfAction(c: set<Record>, action: Action): set<Record> {
    set q | q in c && q.action == action
  }

  /** How many candidates of the same action are newer. */
  ghost function Rank(c: set<Record>, r: Record): nat {
    |NewerThan(OfAction(c, r.action), r)|
  }

  /** Among the newest of its action, kept whatever its age. */
  ghost predicate OnFloor(c: set<Record>, r: Record) {
    Rank(c, r) < RETENTION_PER_ACTION
  }

  ghost function Expired(c: set<Record>, now: Time): set<Record> {
    set r | r in c && !OnFloor(c, r) && now - r.updatedAt > RETENTION_AGE
  }

  ghost function Overflow(c: set<Record>, now: Time): set<Record> {
    set r | r in c && !OnFloor(c, r) && now - r.updatedAt <= RETENTION_AGE
  }

  /** How many retained records the backstop wants gone. */
  ghost function Excess(c: set<Record>, now: Time): int {
    |c| - |Expired(c, now)| - MAX_RETAINED
  }

  ghost function OlderOverflow(c: set<Record>, now: Time, r: Record): nat {
    |set q | q in Overflow(c, now) && Newer(r, q)|
  }

  ghost function Trimmed(c: set<Record>, now: Time): set<Record> {
    set r | r in Overflow(c, now) && OlderOverflow(c, now, r) < Excess(c, now) && now - r.updatedAt >= RETENTION_MIN_AGE
  }

  /** The records a pass removes, as a function of the candidate set alone. */
  ghost function PruneSet(c: set<Record>, now: Time): set<Record> {
    Expired(c, now) + Trimmed(c, now)
  }

  // ----- sorting -----

  ghost predicate NewestFirst(s: seq<Record>) {
    forall i, j | 0 <= i < j < |s| :: Newer(s[i], s[j])
  }

  ghost function Elements(s: seq<Record>): set<Record> {
    set r | r in s
  }

  function Insert(r: Record, s: seq<Record>): (t: seq<Record>)
    requires NewestFirst(s) && forall q | q in s :: q.operationId != r.operationId
    ensures NewestFirst(t) && Elements(t) == Elements(s) + {r} && |t| == |s| + 1
  {
    if s == [] then [r]
    else if Newer(r, s[0]) then
      assert forall j | 0 <= j < |s| :: Newer(r, s[j]) by {
        forall j | 0 < j < |s| ensures Newer(r, s[j]) { NewerTransitive(r, s[0], s[j]); }
      }
      [r] + s
    else
      assert s == [s[0]] + s[1..];
      var rest := Insert(r, s[1..]);
      assert forall j | 0 <= j < |rest| :: Newer(s[0], rest[j]) by {
        NewerTotal(r, s[0]);
        forall j | 0 <= j < |rest| ensures Newer(s[0], rest[j]) { assert rest[j] in Elements(rest); }
      }
      [s[0]] + rest
  }

  /** The one newest-first arrangement of the given records. */
  function Sorted(s: seq<Record>): (t: seq<Record>)
    requires forall i, j | 0 <= i < j < |s| :: s[i].operationId != s[j].operationId
    ensures NewestFirst(t) && Elements(t) == Elements(s) && |t| == |s|
  {
    if s == [] then [] else
      var rest := Sorted(s[1..]);
      assert s == [s[0]] + s[1..];
      assert forall q | q in rest :: q.operationId != s[0].operationId by {
        forall q | q in rest ensures q.operationId != s[0].operationId { assert q in Elements(rest); }
      }
      Insert(s[0], rest)
  }

  /** In newest-first order a record stands at the index that counts the newer ones. */
  lemma {:induction false} IndexCountsNewer(s: seq<Record>, i: nat)
    requires NewestFirst(s) && i < |s|
    ensures NewerThan(Elements(s), s[i]) == Elements(s[..i]) && |Elements(s[..i])| == i
  {
    forall q | q in s ensures Newer(q, s[i]) <==> q in s[..i] {
      var k :| 0 <= k < |s| && s[k] == q;
      NewerTotal(s[k], s[i]);
      if q in s[..i] {
        var m :| 0 <= m < i && s[m] == q;
      }
    }
    CountPrefix(s, i);
  }

  lemma {:induction false} CountPrefix(s: seq<Record>, i: nat)
    requires NewestFirst(s) && i <= |s|
    ensures |Elements(s[..i])| == i
  {
    if i > 0 {
      CountPrefix(s, i - 1);
      assert s[..i] == s[..i - 1] + [s[i - 1]];
      assert Elements(s[..i]) == Elements(s[..i - 1]) + {s[i - 1]};
      if s[i - 1] in s[..i - 1] {
        var k :| 0 <= k < i - 1 && s[k] == s[i - 1];
        NewerTotal(s[k], s[i - 1]);
        assert false;
      }
    }
  }

  lemma {:induction false} CountSuffix(s: seq<Record>, i: nat)
    requires NewestFirst(s) && i <= |s|
    ensures |Elements(s[i..])| == |s| - i
    decreases |s| - i
  {
    assert s[i..][..|s| - i] == s[i..];
    CountPrefix(s[i..], |s| - i);
  }

  /** In newest-first order the older records stand behind. */
  lemma {:induction false} SuffixCountsOlder(s: seq<Record>, i: nat)
    requires NewestFirst(s) && i < |s|
    ensures (set q | q in Elements(s) && Newer(s[i], q)) == Elements(s[i + 1..])
    ensures |Elements(s[i + 1..])| == |s| - 1 - i
  {
    forall q | q in s ensures Newer(s[i], q) <==> q in s[i + 1..] {
      var k :| 0 <= k < |s| && s[k] == q;
      NewerTotal(s[k], s[i]);
      if q in s[i + 1..] {
        var m :| 0 <= m < |s| - i - 1 && s[i + 1..][m] == q;
        assert s[i + 1 + m] == q;
      }
      if k > i {
        assert s[i + 1..][k - i - 1] == q;
      }
    }
    CountSuffix(s, i + 1);
  }

  // ----- the pass itself -----

  /** The candidates of one action, sorted, split into kept, expired and overflow by their index. */
  method SplitAction(c: seq<Record>, now: Time) returns (expired: seq<Record>, overflow: seq<Record>, retained: nat)
    requires NewestFirst(c)
    ensures forall r :: r in expired <==> exists i :: RETENTION_PER_ACTION <= i < |c| && c[i] == r && now - r.updatedAt > RETENTION_AGE
    ensures forall r :: r in overflow <==> exists i :: RETENTION_PER_ACTION <= i < |c| && c[i] == r && now - r.updatedAt <= RETENTION_AGE
    ensures |expired| + retained == |c| && NewestFirst(expired) && NewestFirst(overflow)
  {
    expired, overflow, retained := [], [], 0;
    for index := 0 to |c|
      invariant forall r :: r in expired <==> exists i :: RETENTION_PER_ACTION <= i < index && c[i] == r && now - r.updatedAt > RETENTION_AGE
      invariant forall r :: r in overflow <==> exists i :: RETENTION_PER_ACTION <= i < index && c[i] == r && now - r.updatedAt <= RETENTION_AGE
      invariant |expired| + retained == index && NewestFirst(expired) && NewestFirst(overflow)
    {
      if index < RETENTION_PER_ACTION {
        retained := retained + 1;
      } else if now - c[index].updatedAt > RETENTION_AGE {
        expired := expired + [c[index]];
      } else {
        retained := retained + 1;
        overflow := overflow + [c[index]];
      }
    }
  }

  /** The records a pass may consider: finished, and stored under their own id. */
  ghost function Candidates(records: map<string, Record>): set<Record> {
    set id | id in records && records[id].operationId == id && Prunable(records[id].state) :: records[id]
  }

  predicate DistinctSeq(s: seq<Record>) {
    forall i, j | 0 <= i < j < |s| :: s[i].operationId != s[j].operationId
  }

  method GroupByAction(records: map<string, Record>) returns (byAction: map<Action, seq<Record>>)
    ensures forall r | r in Candidates(records) :: r.action in byAction
    ensures forall a | a in byAction :: DistinctSeq(byAction[a]) && Elements(byAction[a]) == OfAction(Candidates(records), a)
  {
    byAction := map[];
    var todo := records.Keys;
    ghost var done: set<string> := {};
    while todo != {}
      invariant done + todo == records.Keys && done !! todo
      invariant forall id | id in done && records[id].operationId == id && Prunable(records[id].state) ::
          records[id].action in byAction && records[id] in byAction[records[id].action]
      invariant forall a | a in byAction :: DistinctSeq(byAction[a])
      invariant forall a, r | a in byAction && r in byAction[a] ::
          r.action == a && Prunable(r.state) && r.operationId in done && records[r.operationId] == r
    {
      var id :| id in todo;
      todo, done := todo - {id}, done + {id};
      var record := records[id];
      if record.operationId == id && Prunable(record.state) {
        var bucket := if record.action in byAction then byAction[record.action] else [];
        byAction := byAction[record.action := bucket + [record]];
      }
    }
    forall a | a in byAction ensures Elements(byAction[a]) == OfAction(Candidates(records), a) {
      forall r ensures r in Elements(byAction[a]) <==> r in OfAction(Candidates(records), a) {
        if r in byAction[a] {
          assert records[r.operationId] == r;
        }
      }
    }
  }

  /** The part of `s` whose action was visited. */
  ghost function Visited(s: set<Record>, actions: set<Action>): set<Record> {
    set r | r in s && r.action in actions
  }

  /** Adding one action's share to what was gathered so far. */
  lemma VisitOne(s: set<Record>, actions: set<Action>, a: Action, gathered: seq<Record>, share: seq<Record>)
    requires a !in actions
    requires Elements(gathered) == Visited(s, actions) && |Elements(gathered)| == |gathered|
    requires Elements(share) == OfAction(s, a) && NewestFirst(share)
    ensures Elements(gathered + share) == Visited(s, actions + {a})
    ensures |Elements(gathered + share)| == |gathered + share|
  {
    assert Visited(s, actions) !! OfAction(s, a);
    assert Elements(gathered + share) == Elements(gathered) + Elements(share);
    assert Visited(s, actions + {a}) == Visited(s, actions) + OfAction(s, a);
    CountPrefix(share, |share|);
    assert share[..|share|] == share;
  }

  /** What the split of one action's sorted bucket finds is what the ranks say. */
  lemma SplitMatchesRank(c: set<Record>, bucket: seq<Record>, a: Action, i: nat)
    requires NewestFirst(bucket) && Elements(bucket) == OfAction(c, a) && i < |bucket|
    ensures Rank(c, bucket[i]) == i
  {
    assert bucket[i] in Elements(bucket);
    IndexCountsNewer(bucket, i);
  }

  lemma {:induction false} CountAtMost(s: seq<Record>)
    ensures |Elements(s)| <= |s|
  {
    if s != [] {
      CountAtMost(s[1..]);
      assert s == [s[0]] + s[1..];
      assert Elements(s) == Elements(s[1..]) + {s[0]};
    }
  }

  /** A list as long as its element set has no repeats. */
  lemma {:induction false} CountMakesDistinct(s: seq<Record>)
    requires forall a, b | a in s && b in s && a != b :: a.operationId != b.operationId
    requires |Elements(s)| == |s|
    ensures DistinctSeq(s)
  {
    if s != [] {
      var rest := s[1..];
      assert s == [s[0]] + rest;
      assert Elements(s) == Elements(rest) + {s[0]};
      CountAtMost(rest);
      assert s[0] !in Elements(rest);
      CountMakesDistinct(rest);
      forall k | 0 < k < |s| ensures s[k].operationId != s[0].operationId { assert s[k] == rest[k - 1]; }
      forall i, j | 0 < i < j < |s| ensures s[i].operationId != s[j].operationId { assert s[i] == rest[i - 1] && s[j] == rest[j - 1]; }
    }
  }

  lemma SplitResult(c: set<Record>, now: Time, bucket: seq<Record>, a: Action, expired: seq<Record>, overflow: seq<Record>)
    requires NewestFirst(bucket) && Elements(bucket) == OfAction(c, a)
    requires forall r :: r in expired <==> exists i :: RETENTION_PER_ACTION <= i < |bucket| && bucket[i] == r && now - r.updatedAt > RETENTION_AGE
    requires forall r :: r in overflow <==> exists i :: RETENTION_PER_ACTION <= i < |bucket| && bucket[i] == r && now - r.updatedAt <= RETENTION_AGE
    ensures Elements(expired) == OfAction(Expired(c, now), a)
    ensures Elements(overflow) == OfAction(Overflow(c, now), a)
  {
    forall i | 0 <= i < |bucket| ensures Rank(c, bucket[i]) == i && bucket[i] in OfAction(c, a) {
      SplitMatchesRank(c, bucket, a, i);
      assert bucket[i] in Elements(bucket);
    }
    forall r ensures r in OfAction(c, a) <==> exists i :: 0 <= i < |bucket| && bucket[i] == r {
      assert r in OfAction(c, a) <==> r in Elements(bucket);
    }
    forall r ensures r in expired <==> r in OfAction(Expired(c, now), a) {
      assert r in OfAction(Expired(c, now), a) ==> r in OfAction(c, a);
    }
    forall r ensures r in overflow <==> r in OfAction(Overflow(c, now), a) {
      assert r in OfAction(Overflow(c, now), a) ==> r in OfAction(c, a);
    }
  }

  method Split(ghost c: set<Record>, byAction: map<Action, seq<Record>>, now: Time)
    returns (expired: seq<Record>, overflow: seq<Record>, retained: nat)
    requires forall r | r in c :: r.action in byAction
    requires forall a | a in byAction :: DistinctSeq(byAction[a]) && Elements(byAction[a]) == OfAction(c, a)
    ensures Elements(expired) == Expired(c, now) && |Elements(expired)| == |expired|
    ensures Elements(overflow) == Overflow(c, now) && |Elements(overflow)| == |overflow|
    ensures |expired| + retained == |c|
  {
    expired, overflow, retained := [], [], 0;
    ghost var seen: seq<Record> := [];
    var todo := byAction.Keys;
    ghost var done: set<Action> := {};
    while todo != {}
      invariant done + todo == byAction.Keys && done !! todo
      invariant Elements(expired) == Visited(Expired(c, now), done) && |Elements(expired)| == |expired|
      invariant Elements(overflow) == Visited(Overflow(c, now), done) && |Elements(overflow)| == |overflow|
      invariant Elements(seen) == Visited(c, done) && |Elements(seen)| == |seen| == |expired| + retained
    {
      var a :| a in todo;
      var bucket := Sorted(byAction[a]);
      var e, o, kept := SplitAction(bucket, now);
      SplitResult(c, now, bucket, a, e, o);
      VisitOne(c, done, a, seen, bucket);
      VisitOne(Expired(c, now), done, a, expired, e);
      VisitOne(Overflow(c, now), done, a, overflow, o);
      todo, done := todo - {a}, done + {a};
      seen, expired, overflow, retained := seen + bucket, expired + e, overflow + o, retained + kept;
    }
    assert Visited(c, done) == c;
    assert Visited(Expired(c, now), done) == Expired(c, now);
    assert Visited(Overflow(c, now), done) == Overflow(c, now);
  }

  /** The backstop: from the oldest overflow on, while too many are retained and the record is old
      enough. `cut` is the index in `overflow` where it stops. */
  method Trim(now: Time, expired: seq<Record>, overflow: seq<Record>, retained: nat)
    returns (pruned: seq<Record>, ghost cut: nat)
    ensures cut <= |overflow|
    ensures Elements(pruned) == Elements(expired) + Elements(overflow[cut..])
    ensures |pruned| == |expired| + |overflow| - cut
    ensures cut < |overflow| ==>
              |overflow| - cut <= retained - MAX_RETAINED && now - overflow[cut].updatedAt >= RETENTION_MIN_AGE
    ensures cut > 0 ==>
              |overflow| - cut >= retained - MAX_RETAINED || now - overflow[cut - 1].updatedAt < RETENTION_MIN_AGE
  {
    pruned := expired;
    var left := retained;
    var index := |overflow|;
    while index > 0 && left > MAX_RETAINED && now - overflow[index - 1].updatedAt >= RETENTION_MIN_AGE
      invariant 0 <= index <= |overflow|
      invariant Elements(pruned) == Elements(expired) + Elements(overflow[index..])
      invariant |pruned| == |expired| + |overflow| - index
      invariant left == retained - (|overflow| - index)
      invariant index < |overflow| ==> left >= MAX_RETAINED && now - overflow[index].updatedAt >= RETENTION_MIN_AGE
    {
      index := index - 1;
      TailGrows(overflow, index);
      AppendElement(pruned, overflow[index]);
      pruned := pruned + [overflow[index]];
      left := left - 1;
    }
    cut := index;
  }

  lemma TailGrows(s: seq<Record>, i: nat)
    requires i < |s|
    ensures Elements(s[i..]) == {s[i]} + Elements(s[i + 1..])
  {
    assert s[i..] == [s[i]] + s[i + 1..];
  }

  lemma AppendElement(s: seq<Record>, r: Record)
    ensures Elements(s + [r]) == Elements(s) + {r}
  {
  }

  lemma TrimCount(c: set<Record>, now: Time, overflow: seq<Record>, index: nat)
    requires NewestFirst(overflow) && index <= |overflow| && Elements(overflow[index..]) == Trimmed(c, now)
    ensures |PruneSet(c, now)| == |Expired(c, now)| + |overflow| - index
  {
    CountSuffix(overflow, index);
    assert Expired(c, now) !! Trimmed(c, now);
  }

  /** The index where the backstop stops cuts the overflow exactly at the trimmed records. */
  lemma TrimResult(c: set<Record>, now: Time, overflow: seq<Record>, index: nat)
    requires Elements(overflow) == Overflow(c, now) && NewestFirst(overflow) && index <= |overflow|
    requires index < |overflow| ==>
               |overflow| - index <= Excess(c, now) && now - overflow[index].updatedAt >= RETENTION_MIN_AGE
    requires index > 0 ==>
               |overflow| - index >= Excess(c, now) || now - overflow[index - 1].updatedAt < RETENTION_MIN_AGE
    ensures Elements(overflow[index..]) == Trimmed(c, now)
  {
    forall i | 0 <= i < |overflow| ensures overflow[i] in Trimmed(c, now) <==> index <= i {
      assert overflow[i] in Elements(overflow);
      SuffixCountsOlder(overflow, i);
      assert OlderOverflow(c, now, overflow[i]) == |overflow| - 1 - i;
      if i > index {
        assert Newer(overflow[index], overflow[i]);
      }
      if i < index - 1 {
        assert Newer(overflow[i], overflow[index - 1]);
      }
    }
    forall r ensures r in overflow[index..] <==> r in Trimmed(c, now) {
      if r in Trimmed(c, now) {
        assert r in Elements(overflow);
        var i :| 0 <= i < |overflow| && overflow[i] == r;
        assert overflow[index..][i - index] == r;
      }
    }
  }

  lemma TrimmedIsPruneSet(c: set<Record>, now: Time, overflow: seq<Record>, cut: nat, pruned: seq<Record>)
    requires DistinctIds(c) && NewestFirst(overflow) && cut <= |overflow|
    requires Elements(overflow[cut..]) == Trimmed(c, now)
    requires Elements(pruned) == Expired(c, now) + Elements(overflow[cut..])
    requires |pruned| == |Expired(c, now)| + |overflow| - cut
    ensures DistinctSeq(pruned) && Elements(pruned) == PruneSet(c, now)
  {
    TrimCount(c, now, overflow, cut);
    forall r | r in pruned ensures r in c { assert r in Elements(pruned); }
    CountMakesDistinct(pruned);
  }

  lemma OverflowIsDistinct(c: set<Record>, now: Time, overflow: seq<Record>)
    requires DistinctIds(c) && Elements(overflow) == Overflow(c, now) && |Elements(overflow)| == |overflow|
    ensures DistinctSeq(overflow)
  {
    forall r | r in overflow ensures r in c { assert r in Elements(overflow); }
    CountMakesDistinct(overflow);
  }

  /** Reads every record, splits each action's newest-first list, and trims the oldest overflow while
      too many records would be retained. Neither the directory order nor the order in which the
      actions are visited shows in the result. */
  method PruneCandidates(records: map<string, Record>, now: Time) returns (pruned: seq<Record>)
    ensures DistinctSeq(pruned)
    ensures Elements(pruned) == PruneSet(Candidates(records), now)
  {
    var byAction := GroupByAction(records);
    ghost var c := Candidates(records);
    var expired, overflow, retained := Split(c, byAction, now);
    OverflowIsDistinct(c, now, overflow);
    var sorted := Sorted(overflow);
    ghost var cut;
    pruned, cut := Trim(now, expired, sorted, retained);
    TrimResult(c, now, sorted, cut);
    TrimmedIsPruneSet(c, now, sorted, cut, pruned);
  }

  // ----- what the choice guarantees -----

  /** Never one of the newest of its action, never a record younger than an hour. */
  lemma PrunedIsOldAndOffFloor(c: set<Record>, now: Time, r: Record)
    requires r in PruneSet(c, now)
    ensures r in c && Rank(c, r) >= RETENTION_PER_ACTION && now - r.updatedAt >= RETENTION_MIN_AGE
  {
  }

  lemma OlderHasMoreNewer(c: set<Record>, r: Record, q: Record)
    requires DistinctIds(c) && r in c && q in c && q.action == r.action && Newer(r, q)
    ensures Rank(c, q) > Rank(c, r)
  {
    var some, more := NewerThan(OfAction(c, r.action), r), NewerThan(OfAction(c, r.action), q);
    forall x | x in some ensures x in more { NewerTransitive(x, r, q); }
    NewerTotal(r, r);
    assert r in more && r !in some;
    SubsetCard(some, more, r);
  }

  lemma SubsetCard<T>(a: set<T>, b: set<T>, x: T)
    requires a <= b && x in b && x !in a
    ensures |a| < |b|
  {
    assert a + (b - a) == b && |b| == |a| + |b - a| && x in b - a;
  }

  /** What is pruned is a suffix of its action's newest-first list. */
  lemma PrunedIsSuffix(c: set<Record>, now: Time, r: Record, q: Record)
    requires DistinctIds(c) && r in PruneSet(c, now) && q in c && q.action == r.action && Newer(r, q)
    ensures q in PruneSet(c, now)
  {
    OlderHasMoreNewer(c, r, q);
    if q in Overflow(c, now) {
      var fewer, some := set x | x in Overflow(c, now) && Newer(q, x), set x | x in Overflow(c, now) && Newer(r, x);
      forall x | x in fewer ensures x in some { NewerTransitive(r, q, x); }
      NewerTotal(q, q);
      SubsetCard(fewer, some, q);
    }
  }

  /** If an overflow record has at least `n` older ones and is an hour old, `n` records get trimmed. */
  lemma TailIsTrimmed(c: set<Record>, now: Time, overflow: seq<Record>, i: nat, n: nat)
    requires NewestFirst(overflow) && Elements(overflow) == Overflow(c, now) && i < |overflow|
    requires n <= |overflow| - 1 - i && n <= Excess(c, now) && now - overflow[i].updatedAt >= RETENTION_MIN_AGE
    ensures |Trimmed(c, now)| >= n
  {
    var cut := |overflow| - n;
    forall r | r in overflow[cut..] ensures r in Trimmed(c, now) {
      var k :| 0 <= k < n && overflow[cut..][k] == r;
      assert overflow[cut + k] == r && r in Elements(overflow);
      SuffixCountsOlder(overflow, cut + k);
      assert Newer(overflow[i], overflow[cut + k]);
    }
    CountSuffix(overflow, cut);
    CardMonotone(Elements(overflow[cut..]), Trimmed(c, now));
  }

  /** Afterwards the bound holds, or everything retained off the floors is younger than an hour. */
  lemma BoundOrYoung(c: set<Record>, now: Time, r: Record)
    requires DistinctIds(c) && |c| - |PruneSet(c, now)| > MAX_RETAINED
    requires r in c && r !in PruneSet(c, now) && !OnFloor(c, r)
    ensures now - r.updatedAt < RETENTION_MIN_AGE
  {
    assert Expired(c, now) !! Trimmed(c, now);
    assert |PruneSet(c, now)| == |Expired(c, now)| + |Trimmed(c, now)|;
    if now - r.updatedAt >= RETENTION_MIN_AGE {
      var overflow := Sorted(Listed(Overflow(c, now)));
      assert r in Elements(overflow);
      var i :| 0 <= i < |overflow| && overflow[i] == r;
      SuffixCountsOlder(overflow, i);
      assert Excess(c, now) > 0;
      TailIsTrimmed(c, now, overflow, i, Excess(c, now));
    }
  }

  lemma CardMonotone<T>(a: set<T>, b: set<T>)
    requires a <= b
    ensures |a| <= |b|
  {
    assert a + (b - a) == b && |b| == |a| + |b - a|;
  }

  ghost function Listed(s: set<Record>): (t: seq<Record>)
    requires DistinctIds(s)
    ensures DistinctSeq(t) && Elements(t) == s
  {
    if s == {} then [] else
      var r :| r in s;
      var rest := Listed(s - {r});
      assert forall q | q in rest :: q in Elements(rest);
      assert Elements([r] + rest) == {r} + Elements(rest);
      [r] + rest
  }
}
