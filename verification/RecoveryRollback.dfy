/** Capturing files before a repair and putting them back: everything is checked before anything is
    written, and a restore that died half way can be run again. */
module RecoveryRollback {

  datatype Option<+T> = None | Some(value: T)

  /** An absolute clean path, as its directory and last component. */
  datatype Path = Path(dir: string, name: string)

  /** `special` holds the mode bits outside the permission bits. */
  datatype Node = Regular(bytes: string, perm: nat, special: nat) | Link(target: Path) | Other

  /** `dirs` gives each directory its identity (device and inode). */
  datatype Fs = Fs(nodes: map<Path, Node>, dirs: map<string, nat>)

  datatype Digest = OfBytes(bytes: string) | OfTarget(target: Path)

  /** `blob` numbers the private copy of a regular file. */
  datatype Captured =
    | AbsentEntry
    | RegularEntry(perm: nat, blob: nat, sha: Digest)
    | SymlinkEntry(target: Path, sha: Digest)

  datatype Entry = Entry(path: Path, resolved: Path, parent: nat, captured: Captured)

  datatype Snapshot = Snapshot(entries: seq<Entry>, blobs: map<nat, string>)

  function Lookup(fs: Fs, p: Path): Option<Node> {
    if p in fs.nodes then Some(fs.nodes[p]) else None
  }

  // ----- resolving symlinks -----

  const MAX_LINKS := 255

  datatype Followed = Found(path: Path) | Missing | TooMany

  function Follow(fs: Fs, p: Path, n: nat): Followed
    decreases n
  {
    match Lookup(fs, p)
    case None => Missing
    case Some(Link(target)) => if n == 0 then TooMany else Follow(fs, target, n - 1)
    case Some(_) => Found(p)
  }

  /** A path that leads nowhere stands for itself. */
  function Canonical(fs: Fs, p: Path): Option<Path> {
    match Follow(fs, p, MAX_LINKS)
    case Found(q) => Some(q)
    case Missing => Some(p)
    case TooMany => None
  }

  /** What the guard takes a captured path to stand for. */
  function Resolved(fs: Fs, p: Path): Option<Path> {
    match Lookup(fs, p)
    case Some(Link(target)) =>
      (match Follow(fs, p, MAX_LINKS)
       case Found(q) => Some(q)
       case Missing => Canonical(fs, target)
       case TooMany => None)
    case _ => Some(p)
  }

  // ----- capturing -----

  predicate Capturable(fs: Fs, p: Path) {
    p.dir in fs.dirs && Lookup(fs, p) != Some(Other) && Resolved(fs, p).Some?
  }

  function CaptureOne(fs: Fs, p: Path, index: nat): Entry
    requires Capturable(fs, p)
  {
    Entry(p, Resolved(fs, p).value, fs.dirs[p.dir],
      match Lookup(fs, p)
      case Some(Regular(bytes, perm, _)) => RegularEntry(perm, index, OfBytes(bytes))
      case Some(Link(target)) => SymlinkEntry(target, OfTarget(target))
      case _ => AbsentEntry)
  }

  predicate Distinct(paths: seq<Path>) {
    forall i, j | 0 <= i < j < |paths| :: paths[i] != paths[j]
  }

  /** A snapshot records, for each path in order, exactly what is there. */
  ghost predicate IsCaptureOf(snapshot: Snapshot, fs: Fs, paths: seq<Path>) {
    && |snapshot.entries| == |paths| && Distinct(paths)
    && (forall i | 0 <= i < |paths| :: Capturable(fs, paths[i]) && snapshot.entries[i] == CaptureOne(fs, paths[i], i))
    && (forall i | 0 <= i < |paths| && IsRegular(fs, paths[i]) :: i in snapshot.blobs && snapshot.blobs[i] == fs.nodes[paths[i]].bytes)
  }

  predicate IsRegular(fs: Fs, p: Path) {
    p in fs.nodes && fs.nodes[p].Regular?
  }

  /** Captures the paths, or refuses: nothing to capture, a path twice, or one that cannot be captured. */
  method Capture(fs: Fs, paths: seq<Path>) returns (snapshot: Option<Snapshot>)
    ensures snapshot.Some? <==> paths != [] && Distinct(paths) && forall p | p in paths :: Capturable(fs, p)
    ensures snapshot.Some? ==> IsCaptureOf(snapshot.value, fs, paths)
  {
    if paths == [] {
      return None;
    }
    var entries: seq<Entry>, blobs: map<nat, string>, seen: set<Path> := [], map[], {};
    for i := 0 to |paths|
      invariant IsCaptureOf(Snapshot(entries, blobs), fs, paths[..i])
      invariant seen == set p | p in paths[..i]
    {
      var p := paths[i];
      assert paths[..i + 1] == paths[..i] + [p];
      if p in seen || !Capturable(fs, p) {
        assert p in paths;
        return None;
      }
      if IsRegular(fs, p) {
        blobs := blobs[i := fs.nodes[p].bytes];
      }
      seen, entries := seen + {p}, entries + [CaptureOne(fs, p, i)];
    }
    assert paths[..|paths|] == paths;
    return Some(Snapshot(entries, blobs));
  }

  // ----- checking before writing -----

  predicate BlobOk(snapshot: Snapshot, e: Entry) {
    e.captured.RegularEntry? ==> e.captured.blob in snapshot.blobs && OfBytes(snapshot.blobs[e.captured.blob]) == e.captured.sha
  }

  /** A captured symlink must still lead where it led. */
  predicate LinkOk(fs: Fs, e: Entry) {
    e.captured.SymlinkEntry? ==> OfTarget(e.captured.target) == e.captured.sha && Canonical(fs, e.captured.target) == Some(e.resolved)
  }

  predicate TargetOk(fs: Fs, e: Entry) {
    e.path.dir in fs.dirs && fs.dirs[e.path.dir] == e.parent && Lookup(fs, e.path) != Some(Other)
  }

  predicate EntryOk(fs: Fs, snapshot: Snapshot, e: Entry) {
    BlobOk(snapshot, e) && LinkOk(fs, e) && TargetOk(fs, e)
  }

  predicate Prevalidates(fs: Fs, snapshot: Snapshot) {
    forall e | e in snapshot.entries :: EntryOk(fs, snapshot, e)
  }

  predicate DistinctEntries(snapshot: Snapshot) {
    forall i, j | 0 <= i < j < |snapshot.entries| :: snapshot.entries[i].path != snapshot.entries[j].path
  }

  // ----- restoring -----

  /** What an entry puts at its path. */
  function Wanted(snapshot: Snapshot, e: Entry): Option<Node>
    requires BlobOk(snapshot, e)
  {
    match e.captured
    case AbsentEntry => None
    case RegularEntry(perm, blob, _) => Some(Regular(snapshot.blobs[blob], perm, 0))
    case SymlinkEntry(target, _) => Some(Link(target))
  }

  function Put(fs: Fs, p: Path, node: Option<Node>): Fs {
    match node
    case None => fs.(nodes := fs.nodes - {p})
    case Some(n) => fs.(nodes := fs.nodes[p := n])
  }

  /** Restores the chosen entries, last first. */
  function RestoreSome(fs: Fs, snapshot: Snapshot, n: nat, chosen: set<nat>): Fs
    requires n <= |snapshot.entries| && forall e | e in snapshot.entries :: BlobOk(snapshot, e)
    decreases n
  {
    if n == 0 then fs
    else
      var e := snapshot.entries[n - 1];
      RestoreSome(if n - 1 in chosen then Put(fs, e.path, Wanted(snapshot, e)) else fs, snapshot, n - 1, chosen)
  }

  function UpTo(n: nat): (s: set<nat>)
    ensures forall i: nat :: i in s <==> i < n
  {
    if n == 0 then {} else UpTo(n - 1) + {n - 1}
  }

  function All(snapshot: Snapshot): set<nat> {
    UpTo(|snapshot.entries|)
  }

  function Restored(fs: Fs, snapshot: Snapshot, chosen: set<nat>): Fs
    requires forall e | e in snapshot.entries :: BlobOk(snapshot, e)
  {
    RestoreSome(fs, snapshot, |snapshot.entries|, chosen)
  }

  class Files {
    var fs: Fs

    constructor (fs: Fs)
      ensures this.fs == fs
    {
      this.fs := fs;
    }

    /** Checks every entry, then restores them. `done` says which restores went through. */
    method Rollback(snapshot: Snapshot) returns (ok: bool, ghost done: set<nat>)
      modifies this
      ensures !Prevalidates(old(fs), snapshot) ==> !ok && fs == old(fs)
      ensures Prevalidates(old(fs), snapshot) ==>
                && done <= All(snapshot) && fs == Restored(old(fs), snapshot, done) && (ok <==> done == All(snapshot))
    {
      done := {};
      for i := 0 to |snapshot.entries|
        invariant fs == old(fs)
        invariant forall e | e in snapshot.entries[..i] :: EntryOk(fs, snapshot, e)
      {
        var e := snapshot.entries[i];
        assert snapshot.entries[..i + 1] == snapshot.entries[..i] + [e];
        if !EntryOk(fs, snapshot, e) {
          assert e in snapshot.entries;
          return false, done;
        }
      }
      assert snapshot.entries[..|snapshot.entries|] == snapshot.entries;
      ok, done := RestoreAll(snapshot);
    }

    /** From the last to the first; a restore may fail and the others are tried all the same. */
    method RestoreAll(snapshot: Snapshot) returns (ok: bool, ghost done: set<nat>)
      requires forall e | e in snapshot.entries :: BlobOk(snapshot, e)
      modifies this
      ensures done <= All(snapshot) && fs == Restored(old(fs), snapshot, done) && (ok <==> done == All(snapshot))
    {
      ok, done := true, {};
      assert forall later: set<nat> :: {} + later == later;
      for i := |snapshot.entries| downto 0
        invariant done <= All(snapshot) && (forall k | k in done :: i <= k)
        invariant GoesOn(old(fs), fs, snapshot, i, done)
        invariant ok <==> forall k: nat | i <= k < |snapshot.entries| :: k in done
      {
        var e := snapshot.entries[i];
        assert e in snapshot.entries;
        var written: bool := *;
        GoesOnNext(old(fs), fs, snapshot, i, done);
        if written {
          fs := Put(fs, e.path, Wanted(snapshot, e));
          done := done + {i};
        } else {
          ok := false;
        }
      }
      assert done + {} == done;
    }
  }

  /** Whatever is still to come, it ends as if all had been restored in one go. */
  ghost predicate GoesOn(start: Fs, fs: Fs, snapshot: Snapshot, i: nat, done: set<nat>)
    requires i <= |snapshot.entries| && forall e | e in snapshot.entries :: BlobOk(snapshot, e)
  {
    forall later: set<nat> | (forall k | k in later :: k < i) ::
      RestoreSome(fs, snapshot, i, later) == RestoreSome(start, snapshot, |snapshot.entries|, done + later)
  }

  lemma GoesOnNext(start: Fs, fs: Fs, snapshot: Snapshot, i: nat, done: set<nat>)
    requires i < |snapshot.entries| && forall e | e in snapshot.entries :: BlobOk(snapshot, e)
    requires GoesOn(start, fs, snapshot, i + 1, done)
    ensures GoesOn(start, fs, snapshot, i, done)
    ensures GoesOn(start, Put(fs, snapshot.entries[i].path, Wanted(snapshot, snapshot.entries[i])), snapshot, i, done + {i})
  {
    var next := Put(fs, snapshot.entries[i].path, Wanted(snapshot, snapshot.entries[i]));
    forall later: set<nat> | (forall k | k in later :: k < i)
      ensures RestoreSome(next, snapshot, i, later) == RestoreSome(start, snapshot, |snapshot.entries|, done + {i} + later)
    {
      assert done + {i} + later == done + (later + {i});
      Irrelevant(next, snapshot, i, later, later + {i});
    }
  }

  /** Only the entries below `n` matter. */
  lemma {:induction false} Irrelevant(fs: Fs, snapshot: Snapshot, n: nat, a: set<nat>, b: set<nat>)
    requires n <= |snapshot.entries| && forall e | e in snapshot.entries :: BlobOk(snapshot, e)
    requires forall k | k < n :: k in a <==> k in b
    ensures RestoreSome(fs, snapshot, n, a) == RestoreSome(fs, snapshot, n, b)
    decreases n
  {
    if n > 0 {
      var e := snapshot.entries[n - 1];
      Irrelevant(if n - 1 in a then Put(fs, e.path, Wanted(snapshot, e)) else fs, snapshot, n - 1, a, b);
    }
  }

  // ----- what a restore leaves -----

  /** A chosen entry's path holds what was captured; nothing else moved. */
  lemma {:induction false} RestoredElsewhere(fs: Fs, snapshot: Snapshot, n: nat, chosen: set<nat>, p: Path)
    requires n <= |snapshot.entries| && forall e | e in snapshot.entries :: BlobOk(snapshot, e)
    requires forall i | 0 <= i < n && i in chosen :: snapshot.entries[i].path != p
    ensures Lookup(RestoreSome(fs, snapshot, n, chosen), p) == Lookup(fs, p)
    ensures RestoreSome(fs, snapshot, n, chosen).dirs == fs.dirs
    decreases n
  {
    if n > 0 {
      var e := snapshot.entries[n - 1];
      RestoredElsewhere(if n - 1 in chosen then Put(fs, e.path, Wanted(snapshot, e)) else fs, snapshot, n - 1, chosen, p);
    }
  }

  lemma {:induction false} RestoredAt(fs: Fs, snapshot: Snapshot, n: nat, chosen: set<nat>, i: nat)
    requires n <= |snapshot.entries| && DistinctEntries(snapshot) && forall e | e in snapshot.entries :: BlobOk(snapshot, e)
    requires i < n && i in chosen
    ensures Lookup(RestoreSome(fs, snapshot, n, chosen), snapshot.entries[i].path) == Wanted(snapshot, snapshot.entries[i])
    decreases n
  {
    var e := snapshot.entries[n - 1];
    var next := if n - 1 in chosen then Put(fs, e.path, Wanted(snapshot, e)) else fs;
    if i == n - 1 {
      RestoredElsewhere(next, snapshot, n - 1, chosen, e.path);
    } else {
      RestoredAt(next, snapshot, n - 1, chosen, i);
    }
  }

  lemma RestoredLookup(fs: Fs, snapshot: Snapshot, chosen: set<nat>, p: Path)
    requires DistinctEntries(snapshot) && forall e | e in snapshot.entries :: BlobOk(snapshot, e)
    ensures (forall i | 0 <= i < |snapshot.entries| && i in chosen :: snapshot.entries[i].path != p) ==>
              Lookup(Restored(fs, snapshot, chosen), p) == Lookup(fs, p)
    ensures forall i | 0 <= i < |snapshot.entries| && i in chosen && snapshot.entries[i].path == p ::
              Lookup(Restored(fs, snapshot, chosen), p) == Wanted(snapshot, snapshot.entries[i])
    ensures Restored(fs, snapshot, chosen).dirs == fs.dirs
  {
    RestoredDirs(fs, snapshot, |snapshot.entries|, chosen);
    if i :| 0 <= i < |snapshot.entries| && i in chosen && snapshot.entries[i].path == p {
      RestoredAt(fs, snapshot, |snapshot.entries|, chosen, i);
    } else {
      RestoredElsewhere(fs, snapshot, |snapshot.entries|, chosen, p);
    }
  }

  lemma {:induction false} RestoredDirs(fs: Fs, snapshot: Snapshot, n: nat, chosen: set<nat>)
    requires n <= |snapshot.entries| && forall e | e in snapshot.entries :: BlobOk(snapshot, e)
    ensures RestoreSome(fs, snapshot, n, chosen).dirs == fs.dirs
    decreases n
  {
    if n > 0 {
      var e := snapshot.entries[n - 1];
      RestoredDirs(if n - 1 in chosen then Put(fs, e.path, Wanted(snapshot, e)) else fs, snapshot, n - 1, chosen);
    }
  }

  lemma LookupsDecide(a: Fs, b: Fs)
    requires a.dirs == b.dirs && forall p :: Lookup(a, p) == Lookup(b, p)
    ensures a == b
  {
    forall p ensures p in a.nodes <==> p in b.nodes { assert Lookup(a, p) == Lookup(b, p); }
    forall p | p in a.nodes ensures a.nodes[p] == b.nodes[p] { assert Lookup(a, p) == Lookup(b, p); }
  }

  // ----- running it again after a crash -----

  /** Every captured symlink leads where it led, with the files as they are. */
  predicate LinksHold(fs: Fs, snapshot: Snapshot) {
    forall e | e in snapshot.entries && e.captured.SymlinkEntry? :: Canonical(fs, e.captured.target) == Some(e.resolved)
  }

  /** After any part of a restore, the checks pass again exactly when the captured symlinks still lead
      where they led, and then the second restore ends where the first would have. */
  lemma RerunReachesSame(fs: Fs, snapshot: Snapshot, part: set<nat>)
    requires DistinctEntries(snapshot) && Prevalidates(fs, snapshot) && part <= All(snapshot)
    ensures Prevalidates(Restored(fs, snapshot, part), snapshot) <==> LinksHold(Restored(fs, snapshot, part), snapshot)
    ensures Restored(Restored(fs, snapshot, part), snapshot, All(snapshot)) == Restored(fs, snapshot, All(snapshot))
  {
    var mid := Restored(fs, snapshot, part);
    forall e | e in snapshot.entries ensures TargetOk(mid, e) {
      RestoredLookup(fs, snapshot, part, e.path);
    }
    var a, b, n := Restored(mid, snapshot, All(snapshot)), Restored(fs, snapshot, All(snapshot)), |snapshot.entries|;
    RestoredDirs(fs, snapshot, n, part);
    RestoredDirs(mid, snapshot, n, All(snapshot));
    RestoredDirs(fs, snapshot, n, All(snapshot));
    forall p ensures Lookup(a, p) == Lookup(b, p) {
      RestoredLookup(fs, snapshot, part, p);
      RestoredLookup(mid, snapshot, All(snapshot), p);
      RestoredLookup(fs, snapshot, All(snapshot), p);
    }
    LookupsDecide(a, b);
  }

  /** However the first `n` links from `p` are followed, each as it is in `a` or as it is in `b`, the walk ends
      at `home`, or at nothing if `home` is where it set out. */
  predicate EitherWay(a: Fs, b: Fs, p: Path, n: nat, home: Path, start: Path) {
    Fares(a, a, b, p, n, home, start) && Fares(b, a, b, p, n, home, start)
  }

  /** So it is if `p` itself is as in `here`. */
  predicate Fares(here: Fs, a: Fs, b: Fs, p: Path, n: nat, home: Path, start: Path)
    decreases n, 0
  {
    match Lookup(here, p)
    case None => start == home
    case Some(Link(target)) => n > 0 && Fares(a, a, b, target, n - 1, home, start) && Fares(b, a, b, target, n - 1, home, start)
    case Some(_) => p == home
  }

  /** The tree holds at each path what one of the two trees holds there. */
  ghost predicate Mixes(fs: Fs, a: Fs, b: Fs) {
    forall p :: Lookup(fs, p) == Lookup(a, p) || Lookup(fs, p) == Lookup(b, p)
  }

  /** Following a link of the tree ends as it should. */
  predicate Arrives(fs: Fs, p: Path, n: nat, home: Path, start: Path) {
    match Follow(fs, p, n)
    case Found(q) => q == home
    case Missing => start == home
    case TooMany => false
  }

  lemma {:induction false} EveryMixArrives(fs: Fs, a: Fs, b: Fs, p: Path, n: nat, home: Path, start: Path)
    requires Mixes(fs, a, b) && EitherWay(a, b, p, n, home, start)
    ensures Arrives(fs, p, n, home, start)
    decreases n
  {
    var here := if Lookup(fs, p) == Lookup(a, p) then a else b;
    match Lookup(fs, p)
    case Some(Link(target)) => EveryMixArrives(fs, a, b, target, n - 1, home, start);
    case _ =>
  }

  /** The most links, up to `n`, that can be followed from `p` and still end badly. */
  function Worst(a: Fs, b: Fs, p: Path, n: nat, home: Path, start: Path): (m: nat)
    ensures m <= n && (m == n || EitherWay(a, b, p, m + 1, home, start))
    ensures m > 0 ==> !EitherWay(a, b, p, m, home, start)
  {
    if n == 0 || !EitherWay(a, b, p, n, home, start) then n else Worst(a, b, p, n - 1, home, start)
  }

  lemma {:induction false} MoreLinksFare(here: Fs, a: Fs, b: Fs, p: Path, n: nat, home: Path, start: Path)
    requires Fares(here, a, b, p, n, home, start)
    ensures Fares(here, a, b, p, n + 1, home, start)
    decreases n
  {
    match Lookup(here, p)
    case Some(Link(target)) =>
      MoreLinksFare(a, a, b, target, n - 1, home, start);
      MoreLinksFare(b, a, b, target, n - 1, home, start);
    case _ =>
  }

  lemma {:induction false} WorstIsLargest(a: Fs, b: Fs, p: Path, n: nat, home: Path, start: Path, m: nat)
    requires m <= n && !EitherWay(a, b, p, m, home, start)
    ensures m <= Worst(a, b, p, n, home, start) && !EitherWay(a, b, p, Worst(a, b, p, n, home, start), home, start)
    decreases n - m
  {
    if m < n && EitherWay(a, b, p, n, home, start) {
      WorstIsLargest(a, b, p, n - 1, home, start, m);
    }
  }

  /** Whether `p` is to be as in `b` for the worst walk from it. */
  predicate Worse(a: Fs, b: Fs, p: Path, home: Path, start: Path) {
    Fares(a, a, b, p, Worst(a, b, p, MAX_LINKS, home, start), home, start)
  }

  /** The tree that goes wrong wherever one can: it holds at each path what leads the longest bad walk on. */
  ghost predicate GoesWrong(fs: Fs, a: Fs, b: Fs, home: Path, start: Path) {
    forall p :: Lookup(fs, p) == if Worse(a, b, p, home, start) then Lookup(b, p) else Lookup(a, p)
  }

  lemma {:induction false} WrongNeverArrives(fs: Fs, a: Fs, b: Fs, p: Path, n: nat, home: Path, start: Path)
    requires GoesWrong(fs, a, b, home, start) && n <= MAX_LINKS && !EitherWay(a, b, p, n, home, start)
    ensures !Arrives(fs, p, n, home, start)
    decreases n
  {
    var m := Worst(a, b, p, MAX_LINKS, home, start);
    WorstIsLargest(a, b, p, MAX_LINKS, home, start, n);
    var here := if Worse(a, b, p, home, start) then b else a;
    assert !Fares(here, a, b, p, m, home, start) && Lookup(fs, p) == Lookup(here, p);
    match Lookup(fs, p)
    case Some(Link(target)) =>
      if n > 0 {
        assert !EitherWay(a, b, target, m - 1, home, start);
        FewerLinksFareWorse(a, b, target, n - 1, m - 1, home, start);
        WrongNeverArrives(fs, a, b, target, n - 1, home, start);
      }
    case _ =>
  }

  lemma {:induction false} FewerLinksFareWorse(a: Fs, b: Fs, p: Path, n: nat, m: nat, home: Path, start: Path)
    requires n <= m && !EitherWay(a, b, p, m, home, start)
    ensures !EitherWay(a, b, p, n, home, start)
    decreases m - n
  {
    if n < m && EitherWay(a, b, p, n, home, start) {
      MoreLinksFare(a, a, b, p, n, home, start);
      MoreLinksFare(b, a, b, p, n, home, start);
      FewerLinksFareWorse(a, b, p, n + 1, m, home, start);
    }
  }

  /** Every captured symlink leads home however far the restore got. */
  ghost predicate LinksAlwaysHold(fs: Fs, snapshot: Snapshot)
    requires forall e | e in snapshot.entries :: BlobOk(snapshot, e)
  {
    forall e | e in snapshot.entries && e.captured.SymlinkEntry? ::
      EitherWay(fs, Restored(fs, snapshot, All(snapshot)), e.captured.target, MAX_LINKS, e.resolved, e.captured.target)
  }

  /** A restore can die anywhere, or leave any of the files out, and be run again to its end, exactly if every
      captured symlink leads home through any mixture of the tree as it is and the tree as it is to become. */
  lemma RerunsAlwaysIff(fs: Fs, snapshot: Snapshot)
    requires DistinctEntries(snapshot) && Prevalidates(fs, snapshot)
    ensures LinksAlwaysHold(fs, snapshot) <==>
              forall part: set<nat> | part <= All(snapshot) :: Prevalidates(Restored(fs, snapshot, part), snapshot)
  {
    if LinksAlwaysHold(fs, snapshot) {
      forall part: set<nat> | part <= All(snapshot) ensures Prevalidates(Restored(fs, snapshot, part), snapshot) {
        AnyPartPrevalidates(fs, snapshot, part);
      }
    } else {
      var e :| e in snapshot.entries && e.captured.SymlinkEntry?
        && !EitherWay(fs, Restored(fs, snapshot, All(snapshot)), e.captured.target, MAX_LINKS, e.resolved, e.captured.target);
      var part := SomePartFails(fs, snapshot, e);
      assert part <= All(snapshot) && !Prevalidates(Restored(fs, snapshot, part), snapshot);
    }
  }

  lemma PartMixes(fs: Fs, snapshot: Snapshot, part: set<nat>)
    requires DistinctEntries(snapshot) && part <= All(snapshot) && forall e | e in snapshot.entries :: BlobOk(snapshot, e)
    ensures Mixes(Restored(fs, snapshot, part), fs, Restored(fs, snapshot, All(snapshot)))
  {
    forall p ensures Lookup(Restored(fs, snapshot, part), p) == Lookup(fs, p)
                     || Lookup(Restored(fs, snapshot, part), p) == Lookup(Restored(fs, snapshot, All(snapshot)), p) {
      RestoredLookup(fs, snapshot, part, p);
      RestoredLookup(fs, snapshot, All(snapshot), p);
    }
  }

  lemma AnyPartPrevalidates(fs: Fs, snapshot: Snapshot, part: set<nat>)
    requires DistinctEntries(snapshot) && Prevalidates(fs, snapshot) && part <= All(snapshot) && LinksAlwaysHold(fs, snapshot)
    ensures Prevalidates(Restored(fs, snapshot, part), snapshot)
  {
    var mid, full := Restored(fs, snapshot, part), Restored(fs, snapshot, All(snapshot));
    PartMixes(fs, snapshot, part);
    RerunReachesSame(fs, snapshot, part);
    forall e | e in snapshot.entries && e.captured.SymlinkEntry? ensures Canonical(mid, e.captured.target) == Some(e.resolved) {
      EveryMixArrives(mid, fs, full, e.captured.target, MAX_LINKS, e.resolved, e.captured.target);
    }
  }

  /** The part of the restore after which `e` leads astray. */
  lemma SomePartFails(fs: Fs, snapshot: Snapshot, e: Entry) returns (part: set<nat>)
    requires DistinctEntries(snapshot) && Prevalidates(fs, snapshot) && e in snapshot.entries && e.captured.SymlinkEntry?
    requires !EitherWay(fs, Restored(fs, snapshot, All(snapshot)), e.captured.target, MAX_LINKS, e.resolved, e.captured.target)
    ensures part <= All(snapshot) && !Prevalidates(Restored(fs, snapshot, part), snapshot)
  {
    var full, home, start := Restored(fs, snapshot, All(snapshot)), e.resolved, e.captured.target;
    part := set i: nat | i in All(snapshot) && Worse(fs, full, snapshot.entries[i].path, home, start);
    var mid := Restored(fs, snapshot, part);
    forall p ensures Lookup(mid, p) == if Worse(fs, full, p, home, start) then Lookup(full, p) else Lookup(fs, p) {
      RestoredLookup(fs, snapshot, part, p);
      RestoredLookup(fs, snapshot, All(snapshot), p);
    }
    WrongNeverArrives(mid, fs, full, start, MAX_LINKS, home, start);
    assert !LinkOk(mid, e);
  }

  /** Captured symlinks of one hop: what they point at neither is nor becomes a symlink. */
  predicate OneHop(fs: Fs, snapshot: Snapshot) {
    forall e | e in snapshot.entries && e.captured.SymlinkEntry? ::
      && (e.captured.target in fs.nodes ==> !fs.nodes[e.captured.target].Link?)
      && forall f | f in snapshot.entries && f.path == e.captured.target :: !f.captured.SymlinkEntry?
  }

  /** Then a restore can die anywhere and be run again to the same end. */
  lemma OneHopRerunsAlways(fs: Fs, snapshot: Snapshot, part: set<nat>)
    requires DistinctEntries(snapshot) && Prevalidates(fs, snapshot) && OneHop(fs, snapshot) && part <= All(snapshot)
    ensures Prevalidates(Restored(fs, snapshot, part), snapshot)
    ensures Restored(Restored(fs, snapshot, part), snapshot, All(snapshot)) == Restored(fs, snapshot, All(snapshot))
  {
    var mid := Restored(fs, snapshot, part);
    RerunReachesSame(fs, snapshot, part);
    forall e | e in snapshot.entries && e.captured.SymlinkEntry? ensures Canonical(mid, e.captured.target) == Some(e.resolved) {
      var q := e.captured.target;
      assert EntryOk(fs, snapshot, e);
      RestoredLookup(fs, snapshot, part, q);
      assert Lookup(mid, q) == Lookup(fs, q) || exists i :: 0 <= i < |snapshot.entries| && i in part && snapshot.entries[i].path == q;
      assert Lookup(mid, q).Some? ==> !Lookup(mid, q).value.Link?;
    }
  }

  // ----- capture and restore -----

  function Stripped(item: Option<Node>): Option<Node> {
    match item case Some(Regular(bytes, perm, _)) => Some(Regular(bytes, perm, 0)) case _ => item
  }

  lemma {:induction false} FollowMore(fs: Fs, p: Path, n: nat)
    requires !Follow(fs, p, n).TooMany?
    ensures Follow(fs, p, n + 1) == Follow(fs, p, n)
    decreases n
  {
    if p in fs.nodes && fs.nodes[p].Link? {
      FollowMore(fs, fs.nodes[p].target, n - 1);
    }
  }

  /** A fresh snapshot passes its own checks. */
  lemma FreshPrevalidates(snapshot: Snapshot, fs: Fs, paths: seq<Path>)
    requires IsCaptureOf(snapshot, fs, paths)
    ensures Prevalidates(fs, snapshot) && DistinctEntries(snapshot)
  {
    forall e | e in snapshot.entries ensures EntryOk(fs, snapshot, e) {
      var i :| 0 <= i < |paths| && snapshot.entries[i] == e;
      assert e == CaptureOne(fs, paths[i], i);
      if e.captured.SymlinkEntry? {
        if !Follow(fs, paths[i], MAX_LINKS).Missing? { FollowMore(fs, e.captured.target, MAX_LINKS - 1); }
      }
    }
  }

  lemma CapturedIsWanted(snapshot: Snapshot, before: Fs, paths: seq<Path>, i: nat)
    requires IsCaptureOf(snapshot, before, paths) && i < |paths| && BlobOk(snapshot, snapshot.entries[i])
    ensures Wanted(snapshot, snapshot.entries[i]) == Stripped(Lookup(before, paths[i]))
  {
  }

  /** Whatever happened in between: if the checks pass, a complete restore brings every captured path
      back, but for the special mode bits, and leaves all others. */
  lemma RestoreBringsBack(snapshot: Snapshot, before: Fs, paths: seq<Path>, fs: Fs, p: Path)
    requires IsCaptureOf(snapshot, before, paths) && Prevalidates(fs, snapshot)
    ensures Lookup(Restored(fs, snapshot, All(snapshot)), p) == if p in paths then Stripped(Lookup(before, p)) else Lookup(fs, p)
  {
    var n := |snapshot.entries|;
    assert DistinctEntries(snapshot) by { FreshPrevalidates(snapshot, before, paths); }
    if p in paths {
      var i :| 0 <= i < |paths| && paths[i] == p;
      CapturedIsWanted(snapshot, before, paths, i);
      RestoredAt(fs, snapshot, n, All(snapshot), i);
    } else {
      forall i | 0 <= i < n ensures snapshot.entries[i].path != p { assert paths[i] in paths; }
      RestoredElsewhere(fs, snapshot, n, All(snapshot), p);
    }
  }

  // ----- when a second run is refused -----

  const L := Path("/m", "l")
  const A := Path("/m", "a")
  const B := Path("/m", "b")
  const C := Path("/m", "c")

  /** Captured: l -> a -> b, and nothing at c. */
  const CHAIN := Fs(map[L := Link(A), A := Link(B), B := Regular("", 0, 0)], map["/m" := 1])

  /** Then the repair made it l -> a -> c -> b. */
  const REPAIRED := Fs(map[L := Link(A), A := Link(C), C := Link(B), B := Regular("", 0, 0)], map["/m" := 1])

  const CHAIN_SNAPSHOT := Snapshot(
    [Entry(L, B, 1, SymlinkEntry(A, OfTarget(A))), Entry(A, B, 1, SymlinkEntry(B, OfTarget(B))), Entry(C, C, 1, AbsentEntry)], map[])

  lemma ChainsFollowed()
    ensures Follow(CHAIN, L, MAX_LINKS) == Found(B) && Follow(CHAIN, A, MAX_LINKS) == Found(B) && Follow(CHAIN, B, MAX_LINKS) == Found(B)
    ensures Follow(REPAIRED, A, MAX_LINKS) == Found(B) && Follow(REPAIRED, B, MAX_LINKS) == Found(B)
  {
    assert Follow(CHAIN, B, MAX_LINKS - 2) == Found(B) && Follow(CHAIN, A, MAX_LINKS - 1) == Found(B) && Follow(CHAIN, B, MAX_LINKS - 1) == Found(B);
    assert Follow(REPAIRED, B, MAX_LINKS - 2) == Found(B) && Follow(REPAIRED, C, MAX_LINKS - 1) == Found(B);
  }

  /** The snapshot is a true capture and the checks pass; a crash right after the first restore leaves a
      dangling link, and from then on every rollback is refused. */
  lemma ChainedLinksStrandRollback()
    ensures IsCaptureOf(CHAIN_SNAPSHOT, CHAIN, [L, A, C])
    ensures Prevalidates(REPAIRED, CHAIN_SNAPSHOT)
    ensures !Prevalidates(Restored(REPAIRED, CHAIN_SNAPSHOT, {2}), CHAIN_SNAPSHOT)
  {
    ChainsFollowed();
    assert Canonical(REPAIRED, A) == Some(B) && Canonical(REPAIRED, B) == Some(B);
    ChainBreaks();
  }

  lemma ChainBreaks()
    requires forall e | e in CHAIN_SNAPSHOT.entries :: BlobOk(CHAIN_SNAPSHOT, e)
    ensures !Prevalidates(Restored(REPAIRED, CHAIN_SNAPSHOT, {2}), CHAIN_SNAPSHOT)
  {
    var s := CHAIN_SNAPSHOT;
    var mid := Put(REPAIRED, C, None);
    assert RestoreSome(mid, s, 2, {2}) == RestoreSome(mid, s, 1, {2}) == RestoreSome(mid, s, 0, {2}) == mid;
    assert Restored(REPAIRED, s, {2}) == mid;
    assert Follow(mid, C, MAX_LINKS - 1) == Missing && Follow(mid, A, MAX_LINKS) == Missing && Canonical(mid, A) == Some(A);
    assert s.entries[0] in s.entries && !LinkOk(mid, s.entries[0]);
  }
}
