/** The snapshot a managed apply takes before it writes, and what restoring it undoes. */
module ManagedRollback {
  import opened ManagedFs
  import opened ManagedExecute

  /** What was at a target before the apply; `None` if nothing. */
  datatype Captured = Captured(path: Path, item: Option<Node>)

  /** The paths an apply may write, in the order they are captured. */
  function FileTargets(files: seq<FileTarget>): seq<Path> {
    if files == [] then []
    else
      var f := files[|files| - 1];
      FileTargets(files[..|files| - 1]) + if f.preserve then [] else [f.path]
  }

  function LinkTargets(links: seq<LinkTarget>): seq<Path> {
    if links == [] then []
    else
      var l := links[|links| - 1];
      LinkTargets(links[..|links| - 1]) + if l.preserve then [] else [l.path]
  }

  function Targets(c: Compilation): seq<Path> {
    FileTargets(c.files) + LinkTargets(c.links)
  }

  function Lookup(fs: Fs, path: Path): Option<Node> {
    if path in fs.nodes then Some(fs.nodes[path]) else None
  }

  function CaptureAll(fs: Fs, targets: seq<Path>): (s: seq<Captured>)
    ensures |s| == |targets| && forall i | 0 <= i < |s| :: s[i] == Captured(targets[i], Lookup(fs, targets[i]))
  {
    seq(|targets|, i requires 0 <= i < |targets| => Captured(targets[i], Lookup(fs, targets[i])))
  }

  /** A chmod to the permission bits is all a restore does about the mode. */
  function Stripped(node: Node): Node {
    if node.Regular? then node.(special := 0) else node
  }

  datatype Restoration = Restoration(fs: Fs, ok: bool)

  function RestoreOne(fs: Fs, captured: Captured): Restoration {
    if captured.item.None? && captured.path !in fs.nodes then Restoration(fs, true)
    else if !DirSafe(fs, captured.path) then Restoration(fs, false)
    else match captured.item
      case None => Restoration(WithoutNode(fs, captured.path), true)
      case Some(node) => Restoration(WithNode(fs, captured.path, Stripped(node)), true)
  }

  /** Last captured first; the first failure ends it. */
  function RestoreAll(fs: Fs, snapshot: seq<Captured>): Restoration
    decreases |snapshot|
  {
    if snapshot == [] then Restoration(fs, true)
    else
      var r := RestoreOne(fs, snapshot[|snapshot| - 1]);
      if r.ok then RestoreAll(r.fs, snapshot[..|snapshot| - 1]) else r
  }

  /** The nodes after a rollback: as before, but for the special mode bits of the targets. */
  function Rewound(nodes: map<Path, Node>, targets: seq<Path>): map<Path, Node> {
    map p | p in nodes :: if p in targets then Stripped(nodes[p]) else nodes[p]
  }

  // ----- what a run may touch -----

  ghost predicate SameOutside(a: Fs, b: Fs, paths: seq<Path>) {
    && (forall p | p !in paths :: Lookup(a, p) == Lookup(b, p))
    && a.safeDirs == b.safeDirs && a.authParentSafe == b.authParentSafe
  }

  lemma {:induction false} RunTouchesTargets(fs: Fs, steps: seq<Step>, id: Identity, paths: seq<Path>)
    requires forall s | s in steps :: StepPath(s) in paths
    ensures SameOutside(fs, RunSteps(fs, steps, id).fs, paths)
  {
    if steps != [] {
      RunTouchesTargets(fs, steps[..|steps| - 1], id, paths);
      assert steps[|steps| - 1] in steps;
    }
  }

  lemma {:induction false} FileTargetsHold(files: seq<FileTarget>, f: FileTarget)
    requires f in files && !f.preserve
    ensures f.path in FileTargets(files)
  {
    var front := files[..|files| - 1];
    assert files == front + [files[|files| - 1]];
    if f in front {
      FileTargetsHold(front, f);
    }
  }

  lemma {:induction false} LinkTargetsHold(links: seq<LinkTarget>, l: LinkTarget)
    requires l in links && !l.preserve
    ensures l.path in LinkTargets(links)
  {
    var front := links[..|links| - 1];
    assert links == front + [links[|links| - 1]];
    if l in front {
      LinkTargetsHold(front, l);
    }
  }

  /** A deletion never preserves, and auth files lie in their own directory. */
  predicate Sane(c: Compilation) {
    && (forall f | f in c.files :: !(f.delete && f.preserve) && AuthInPlace(f))
    && (forall l | l in c.links :: !(l.delete && l.preserve))
  }

  predicate AuthInPlace(f: FileTarget) {
    f.kind.AuthFile? ==> f.path.Managed? && f.path.dir.Auth?
  }

  lemma StepsTouchTargets(c: Compilation, id: Identity)
    requires Sane(c)
    ensures forall s | s in AllSteps(c, id) :: StepPath(s) in Targets(c) && (s.InstallFile? ==> AuthInPlace(s.file))
  {
    forall s | s in AllSteps(c, id) ensures StepPath(s) in Targets(c) && (s.InstallFile? ==> AuthInPlace(s.file)) {
      InPass(c.links, LinkRemoval(), s);
      InPass(c.files, FileRemoval(false, id), s);
      InPass(c.files, FileInstall(), s);
      InPass(c.links, LinkInstall(), s);
      InPass(c.files, FileRemoval(true, id), s);
      if s.RemoveLink? || s.InstallLink? {
        LinkTargetsHold(c.links, s.link);
      } else {
        FileTargetsHold(c.files, s.file);
      }
    }
  }

  // ----- what restoring does -----

  function StrippedItem(item: Option<Node>): Option<Node> {
    match item case None => None case Some(node) => Some(Stripped(node))
  }

  lemma RestoredHere(fs: Fs, captured: Captured, p: Path)
    requires RestoreOne(fs, captured).ok
    ensures Lookup(RestoreOne(fs, captured).fs, p) == if p == captured.path then StrippedItem(captured.item) else Lookup(fs, p)
  {
  }

  lemma {:induction false} RestoredElsewhere(fs: Fs, snapshot: seq<Captured>, p: Path)
    requires forall i | 0 <= i < |snapshot| :: snapshot[i].path != p
    requires RestoreAll(fs, snapshot).ok
    ensures Lookup(RestoreAll(fs, snapshot).fs, p) == Lookup(fs, p)
    decreases |snapshot|
  {
    if snapshot != [] {
      RestoredHere(fs, snapshot[|snapshot| - 1], p);
      RestoredElsewhere(RestoreOne(fs, snapshot[|snapshot| - 1]).fs, snapshot[..|snapshot| - 1], p);
    }
  }

  lemma CaptureFront(fs: Fs, targets: seq<Path>)
    requires targets != []
    ensures CaptureAll(fs, targets)[..|targets| - 1] == CaptureAll(fs, targets[..|targets| - 1])
    ensures CaptureAll(fs, targets)[|targets| - 1] == Captured(targets[|targets| - 1], Lookup(fs, targets[|targets| - 1]))
  {
  }

  /** Each captured target gets back what was captured there. */
  lemma {:induction false} RestoredAt(before: Fs, fs: Fs, targets: seq<Path>, p: Path)
    requires RestoreAll(fs, CaptureAll(before, targets)).ok && p in targets
    ensures Lookup(RestoreAll(fs, CaptureAll(before, targets)).fs, p) == StrippedItem(Lookup(before, p))
    decreases |targets|
  {
    var n, snapshot := |targets| - 1, CaptureAll(before, targets);
    var front, next := snapshot[..n], RestoreOne(fs, snapshot[n]).fs;
    assert targets == targets[..n] + [targets[n]];
    assert RestoreAll(fs, snapshot) == RestoreAll(next, front);
    CaptureFront(before, targets);
    if p in targets[..n] {
      RestoredAt(before, next, targets[..n], p);
    } else {
      RestoredHere(fs, snapshot[n], p);
      RestoredElsewhere(next, front, p);
    }
  }

  lemma RestoreRewinds(before: Fs, fs: Fs, targets: seq<Path>)
    requires SameOutside(before, fs, targets) && RestoreAll(fs, CaptureAll(before, targets)).ok
    ensures RestoreAll(fs, CaptureAll(before, targets)).fs.nodes == Rewound(before.nodes, targets)
  {
    var snapshot := CaptureAll(before, targets);
    var done := RestoreAll(fs, snapshot).fs;
    forall p ensures Lookup(done, p) == if p in targets then StrippedItem(Lookup(before, p)) else Lookup(before, p) {
      if p in targets {
        RestoredAt(before, fs, targets, p);
      } else {
        RestoredElsewhere(fs, snapshot, p);
      }
    }
    LookupsDecide(done, before.(nodes := Rewound(before.nodes, targets)));
  }

  lemma LookupsDecide(a: Fs, b: Fs)
    requires forall p :: Lookup(a, p) == Lookup(b, p)
    ensures a.nodes == b.nodes
  {
    forall p ensures p in a.nodes <==> p in b.nodes { assert Lookup(a, p) == Lookup(b, p); }
    forall p | p in a.nodes ensures a.nodes[p] == b.nodes[p] { assert Lookup(a, p) == Lookup(b, p); }
  }

  /** A restore goes through exactly when every target that was or is there lies in a safe directory. */
  lemma {:induction false} RestoreSucceedsIff(before: Fs, fs: Fs, targets: seq<Path>)
    ensures RestoreAll(fs, CaptureAll(before, targets)).ok <==>
              forall t | t in targets && (t in before.nodes || t in fs.nodes) :: DirSafe(fs, t)
    decreases |targets|
  {
    if targets != [] {
      var n, snapshot := |targets| - 1, CaptureAll(before, targets);
      assert targets == targets[..n] + [targets[n]];
      CaptureFront(before, targets);
      var r := RestoreOne(fs, snapshot[n]);
      if r.ok {
        RestoreSucceedsIff(before, r.fs, targets[..n]);
        forall t ensures DirSafe(r.fs, t) == DirSafe(fs, t) {}
      }
    }
  }

  /** Steps write only into safe directories and make none unsafe. */
  lemma {:induction false} RunStaysSafe(fs: Fs, steps: seq<Step>, id: Identity, p: Path)
    requires forall s | s in steps && s.InstallFile? :: AuthInPlace(s.file)
    ensures var after := RunSteps(fs, steps, id).fs;
            (DirSafe(fs, p) ==> DirSafe(after, p)) && (p in after.nodes && p !in fs.nodes ==> DirSafe(after, p))
  {
    if steps != [] {
      var front, last := steps[..|steps| - 1], steps[|steps| - 1];
      assert last in steps;
      RunStaysSafe(fs, front, id, p);
      if RunSteps(fs, front, id).ok && Perform(RunSteps(fs, front, id).fs, last, id).Done? {
        StepStaysSafe(RunSteps(fs, front, id).fs, last, id, p);
      }
    }
  }

  lemma StepStaysSafe(fs: Fs, step: Step, id: Identity, p: Path)
    requires Perform(fs, step, id).Done? && (step.InstallFile? ==> AuthInPlace(step.file))
    ensures var after := Perform(fs, step, id).fs;
            (DirSafe(fs, p) ==> DirSafe(after, p)) && (p in after.nodes && p !in fs.nodes ==> DirSafe(after, p))
  {
  }

  /** Any prefix of the steps, finished or failed, is undone by restoring the snapshot taken before it:
      every path is as it was, but for the special mode bits of the targets. The restore is refused only
      if a target that was there already lies in an unsafe directory. */
  lemma RollbackUndoesPrefix(fs: Fs, c: Compilation, id: Identity, n: nat)
    requires Sane(c) && n <= |AllSteps(c, id)|
    ensures var snapshot, reached := CaptureAll(fs, Targets(c)), RunSteps(fs, AllSteps(c, id)[..n], id).fs;
            && (RestoreAll(reached, snapshot).ok ==> RestoreAll(reached, snapshot).fs.nodes == Rewound(fs.nodes, Targets(c)))
            && (RestoreAll(reached, snapshot).ok <==> forall t | t in Targets(c) && t in fs.nodes :: DirSafe(reached, t))
            && ((forall t | t in Targets(c) && t in fs.nodes :: DirSafe(fs, t)) ==> RestoreAll(reached, snapshot).ok)
  {
    var steps := AllSteps(c, id)[..n];
    StepsTouchTargets(c, id);
    forall s | s in steps ensures StepPath(s) in Targets(c) && (s.InstallFile? ==> AuthInPlace(s.file)) { assert s in AllSteps(c, id); }
    RunTouchesTargets(fs, steps, id, Targets(c));
    var reached := RunSteps(fs, steps, id).fs;
    forall p ensures (DirSafe(fs, p) ==> DirSafe(reached, p)) && (p in reached.nodes && p !in fs.nodes ==> DirSafe(reached, p)) {
      RunStaysSafe(fs, steps, id, p);
    }
    RestoreSucceedsIff(fs, reached, Targets(c));
    if RestoreAll(reached, CaptureAll(fs, Targets(c))).ok {
      RestoreRewinds(fs, reached, Targets(c));
    }
  }

  /** The restored nodes are the original ones exactly when no target carried special mode bits. */
  lemma RewoundExact(nodes: map<Path, Node>, targets: seq<Path>)
    ensures Rewound(nodes, targets) == nodes <==>
              forall p | p in targets && p in nodes && nodes[p].Regular? :: nodes[p].special == 0
  {
    if forall p | p in targets && p in nodes && nodes[p].Regular? :: nodes[p].special == 0 {
      assert Rewound(nodes, targets) == nodes;
    } else {
      var p :| p in targets && p in nodes && nodes[p].Regular? && nodes[p].special != 0;
      assert Rewound(nodes, targets)[p] != nodes[p];
    }
  }

  method CaptureFiles(fs: Fs, files: seq<FileTarget>, id: Identity) returns (snapshot: Option<seq<Captured>>)
    ensures snapshot.Some? ==> snapshot.value == CaptureAll(fs, FileTargets(files))
    ensures snapshot.Some? <==> forall f | f in files && !f.preserve :: InspectFile(fs, f.path, f.kind, id).Seen?
  {
    var items: seq<Captured> := [];
    for i := 0 to |files|
      invariant items == CaptureAll(fs, FileTargets(files[..i]))
      invariant forall f | f in files[..i] && !f.preserve :: InspectFile(fs, f.path, f.kind, id).Seen?
    {
      var f := files[i];
      assert files[..i + 1] == files[..i] + [f];
      if !f.preserve {
        var seen := InspectFile(fs, f.path, f.kind, id);
        if seen.Refused? {
          assert f in files;
          return None;
        }
        CaptureNext(fs, FileTargets(files[..i]), f.path);
        items := items + [Captured(f.path, seen.item)];
      } else {
        assert FileTargets(files[..i + 1]) == FileTargets(files[..i]);
      }
    }
    assert files[..|files|] == files;
    return Some(items);
  }

  method CaptureLinks(fs: Fs, links: seq<LinkTarget>, id: Identity) returns (snapshot: Option<seq<Captured>>)
    ensures snapshot.Some? ==> snapshot.value == CaptureAll(fs, LinkTargets(links))
    ensures snapshot.Some? <==> forall l | l in links && !l.preserve :: InspectLink(fs, l.path, l.target, id).Seen?
  {
    var items: seq<Captured> := [];
    for i := 0 to |links|
      invariant items == CaptureAll(fs, LinkTargets(links[..i]))
      invariant forall l | l in links[..i] && !l.preserve :: InspectLink(fs, l.path, l.target, id).Seen?
    {
      var l := links[i];
      assert links[..i + 1] == links[..i] + [l];
      if !l.preserve {
        var seen := InspectLink(fs, l.path, l.target, id);
        if seen.Refused? {
          assert l in links;
          return None;
        }
        CaptureNext(fs, LinkTargets(links[..i]), l.path);
        items := items + [Captured(l.path, seen.item)];
      } else {
        assert LinkTargets(links[..i + 1]) == LinkTargets(links[..i]);
      }
    }
    assert links[..|links|] == links;
    return Some(items);
  }

  /** Captures every target the apply may write; a target that would be refused is an error. */
  method Capture(fs: Fs, c: Compilation, id: Identity) returns (snapshot: Option<seq<Captured>>)
    ensures snapshot.Some? ==> snapshot.value == CaptureAll(fs, Targets(c))
    ensures snapshot.Some? <==>
              && (forall f | f in c.files && !f.preserve :: InspectFile(fs, f.path, f.kind, id).Seen?)
              && (forall l | l in c.links && !l.preserve :: InspectLink(fs, l.path, l.target, id).Seen?)
  {
    var files := CaptureFiles(fs, c.files, id);
    if files.None? {
      return None;
    }
    var links := CaptureLinks(fs, c.links, id);
    if links.None? {
      return None;
    }
    CaptureConcat(fs, FileTargets(c.files), LinkTargets(c.links));
    return Some(files.value + links.value);
  }

  lemma CaptureNext(fs: Fs, targets: seq<Path>, p: Path)
    ensures CaptureAll(fs, targets + [p]) == CaptureAll(fs, targets) + [Captured(p, Lookup(fs, p))]
  {
  }

  lemma CaptureConcat(fs: Fs, a: seq<Path>, b: seq<Path>)
    ensures CaptureAll(fs, a + b) == CaptureAll(fs, a) + CaptureAll(fs, b)
  {
  }

  /** Restores the snapshot backwards, then validates, reloads and validates the proxy again. */
  method Rollback(machine: ManagedApply, snapshot: seq<Captured>) returns (ok: bool)
    modifies machine
    ensures machine.fs == RestoreAll(old(machine.fs), snapshot).fs
    ensures ok <==> RestoreAll(old(machine.fs), snapshot).ok && machine.host.validate(machine.fs) && machine.host.reload(machine.fs)
  {
    assert snapshot[..|snapshot|] == snapshot;
    for i := |snapshot| downto 0
      invariant RestoreAll(machine.fs, snapshot[..i]) == RestoreAll(old(machine.fs), snapshot)
    {
      assert snapshot[..i + 1][..i] == snapshot[..i];
      var r := RestoreOne(machine.fs, snapshot[i]);
      if !r.ok {
        return false;
      }
      machine.fs := r.fs;
    }
    if !machine.host.validate(machine.fs) || !machine.host.reload(machine.fs) {
      return false;
    }
    return machine.host.validate(machine.fs);
  }
}
