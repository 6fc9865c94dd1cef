/** Which recovery operations the store still keeps. */
module RecoveryRetention {
  import opened Sorting

  const RETENTION_AGE := 7 * 24 * 3600 * 1_000_000_000
  const RETENTION_COUNT := 20

  /** An operation directory as retention sees it; one without a manifest counts from its own time. */
  datatype Found = Found(id: string, created: int, active: bool, incomplete: bool)

  predicate Newer(a: Found, b: Found) {
    a.created > b.created
  }

  predicate TooOld(f: Found, now: int) {
    f.created < now - RETENTION_AGE
  }

  predicate Finished(f: Found) {
    !f.active && !f.incomplete
  }

  /** Twenty other finished operations are no older. */
  ghost predicate Crowded(all: seq<Found>, f: Found) {
    exists newest: set<Found> :: Outnumber(all, newest, f)
  }

  ghost predicate Outnumber(all: seq<Found>, newest: set<Found>, f: Found) {
    |newest| == RETENTION_COUNT && f !in newest && forall g | g in newest :: g in all && Finished(g) && f.created <= g.created
  }

  /** What may go: an incomplete directory once old, a finished operation once old or crowded out. */
  ghost predicate MayGo(all: seq<Found>, f: Found, now: int) {
    !f.active && (TooOld(f, now) || (!f.incomplete && Crowded(all, f)))
  }

  ghost predicate Once(all: seq<Found>) {
    forall i, j | 0 <= i < j < |all| :: all[i] != all[j]
  }

  /** Whatever the order of equally old operations, and wherever the walk stops. */
  ghost predicate Retained(all: seq<Found>, gone: set<Found>, now: int) {
    && (forall f | f in all && f !in gone :: f.active || !TooOld(f, now))
    && |set f | f in all && f !in gone && Finished(f)| <= RETENTION_COUNT
  }

  ghost predicate Allowed(all: seq<Found>, done: seq<Found>, now: int, gone: set<Found>) {
    && (forall f | f in gone :: f in done && MayGo(all, f, now))
    && (forall f | f in done && f !in gone :: f.active || !TooOld(f, now))
  }

  /** After the operations of `done`: `kept` of the finished ones stay, `first` are the newest. */
  ghost predicate Counted(done: seq<Found>, gone: set<Found>, kept: set<Found>, seen: set<Found>, first: set<Found>) {
    && gone <= (set f | f in done) && kept <= seen && seen <= (set f | f in done && Finished(f))
    && (forall f | f in done && Finished(f) && f !in gone :: f in kept)
    && |kept| <= |first| && first <= seen && |first| == if |seen| < RETENTION_COUNT then |seen| else RETENTION_COUNT
  }

  /** Walks the operations newest first and removes what retention does not keep; a failed removal ends
      the walk. */
  method Prune(all: seq<Found>, now: int) returns (gone: set<Found>, ok: bool)
    requires Once(all)
    ensures forall f | f in gone :: f in all && MayGo(all, f, now)
    ensures ok ==> Retained(all, gone, now)
  {
    var sorted := Sort(Newer, all);
    SortedOnce(all, sorted);
    gone, ok := {}, false;
    var keptTerminal := 0;
    ghost var kept: set<Found>, seen: set<Found>, first: set<Found> := {}, {}, {};
    for i := 0 to |sorted|
      invariant Allowed(all, sorted[..i], now, gone) && Counted(sorted[..i], gone, kept, seen, first) && keptTerminal == |seen|
    {
      var f := sorted[i];
      NextOne(sorted, i);
      var expired := false;
      if f.incomplete && !f.active {
        expired := f.created < now - RETENTION_AGE;
      } else if !f.active {
        keptTerminal := keptTerminal + 1;
        expired := keptTerminal > RETENTION_COUNT || f.created < now - RETENTION_AGE;
      }
      FirstOutnumber(all, sorted, i, gone, kept, seen, first);
      AllowedNext(all, sorted[..i], f, now, gone, |seen| >= RETENTION_COUNT, expired);
      CountedNext(sorted[..i], f, gone, kept, seen, first, expired);
      if expired {
        var removed: bool := *;
        if !removed {
          return;
        }
        gone := gone + {f};
      }
      kept, first := if Finished(f) && !expired then kept + {f} else kept, if Finished(f) && |seen| < RETENTION_COUNT then first + {f} else first;
      seen := if Finished(f) then seen + {f} else seen;
    }
    assert sorted[..|sorted|] == sorted;
    KeptAreFew(all, now, gone, kept, seen, first, sorted);
    ok := true;
  }

  lemma SortedOnce(all: seq<Found>, sorted: seq<Found>)
    requires Once(all) && multiset(sorted) == multiset(all)
    ensures Once(sorted) && forall f :: f in sorted <==> f in all
  {
    forall f ensures f in sorted <==> f in all { assert f in multiset(sorted) <==> f in multiset(all); }
    forall i, j | 0 <= i < j < |sorted| ensures sorted[i] != sorted[j] {
      var f := sorted[i];
      assert sorted == sorted[..i] + [sorted[i]] + sorted[i + 1..j] + [sorted[j]] + sorted[j + 1..];
      OnceCounts(all, f);
    }
  }

  lemma {:induction false} OnceCounts(all: seq<Found>, f: Found)
    requires Once(all)
    ensures multiset(all)[f] <= 1
  {
    if all != [] {
      var front, last := all[..|all| - 1], all[|all| - 1];
      assert all == front + [last] && last !in front;
      OnceCounts(front, f);
    }
  }

  lemma NextOne(sorted: seq<Found>, i: nat)
    requires Once(sorted) && i < |sorted|
    ensures sorted[..i + 1] == sorted[..i] + [sorted[i]] && sorted[i] !in sorted[..i] && sorted[i] in sorted
  {
  }

  /** Whoever was seen before is no older. */
  lemma FirstOutnumber(
    all: seq<Found>, sorted: seq<Found>, i: nat, gone: set<Found>, kept: set<Found>, seen: set<Found>, first: set<Found>)
    requires i < |sorted| && Sorted(Newer, sorted) && Once(sorted) && forall f :: f in sorted <==> f in all
    requires Counted(sorted[..i], gone, kept, seen, first)
    ensures |seen| >= RETENTION_COUNT ==> Crowded(all, sorted[i])
  {
    forall g | g in first ensures g in all && g != sorted[i] && sorted[i].created <= g.created && Finished(g) {
      var k :| 0 <= k < i && sorted[k] == g;
      assert !Newer(sorted[i], sorted[k]);
    }
    if |seen| >= RETENTION_COUNT { assert Outnumber(all, first, sorted[i]); }
  }

  lemma AllowedNext(all: seq<Found>, done: seq<Found>, f: Found, now: int, gone: set<Found>, crowd: bool, expired: bool)
    requires Allowed(all, done, now, gone) && (crowd ==> Crowded(all, f))
    requires expired <==> !f.active && (TooOld(f, now) || (!f.incomplete && crowd))
    ensures expired ==> MayGo(all, f, now)
    ensures Allowed(all, done + [f], now, if expired then gone + {f} else gone)
  {
  }

  lemma CountedNext(done: seq<Found>, f: Found, gone: set<Found>, kept: set<Found>, seen: set<Found>, first: set<Found>, expired: bool)
    requires Counted(done, gone, kept, seen, first) && f !in done
    requires Finished(f) && |seen| >= RETENTION_COUNT ==> expired
    ensures Counted(done + [f], if expired then gone + {f} else gone,
                    if Finished(f) && !expired then kept + {f} else kept,
                    if Finished(f) then seen + {f} else seen,
                    if Finished(f) && |seen| < RETENTION_COUNT then first + {f} else first)
  {
    assert f !in seen && f !in first && f !in gone && f !in kept;
  }

  lemma KeptAreFew(all: seq<Found>, now: int, gone: set<Found>, kept: set<Found>, seen: set<Found>, first: set<Found>, sorted: seq<Found>)
    requires Allowed(all, sorted, now, gone) && Counted(sorted, gone, kept, seen, first) && forall f :: f in sorted <==> f in all
    ensures Retained(all, gone, now)
  {
    var stay := set f | f in all && f !in gone && Finished(f);
    assert stay <= kept;
    Smaller(stay, kept);
  }

  lemma {:induction false} Smaller(a: set<Found>, b: set<Found>)
    requires a <= b
    ensures |a| <= |b|
  {
    if a != {} {
      var x :| x in a;
      Smaller(a - {x}, b - {x});
    }
  }
}
