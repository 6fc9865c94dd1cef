/** What the filesystem looks like once every step of an apply went through. */
module ManagedApplied {
  import opened Marker
  import opened ManagedExecute
  import opened ManagedFs
  import opened ManagedRollback

  function DirOf(kind: Kind): Dir {
    match kind case Vhost => Available case Secret => Certificates case AuthFile => Auth
  }

  predicate IsTargetFile(f: FileTarget, gid: Option<nat>) {
    && f.path.Managed? && f.path.dir == DirOf(f.kind)
    && (f.preserve ==> f.kind.Vhost? && !f.delete)
    && (f.delete || f.preserve ||
        match f.kind
        case Vhost => HasManagedArtifactMarker(f.content)
        case Secret => |f.content| <= MAX_CONFIG_FILE_BYTES
        case AuthFile => |f.content| <= MAX_CONFIG_FILE_BYTES && gid == Some(f.gid))
  }

  predicate IsTargetLink(l: LinkTarget) {
    l.path.Managed? && l.path.dir.Enabled? && l.target.Managed? && l.target.dir.Available? && !(l.delete && l.preserve)
  }

  /** Every target lies where its class belongs, no path has two, and all auth files go to one group. */
  ghost predicate WellTargeted(c: Compilation, gid: Option<nat>) {
    && (forall f | f in c.files :: IsTargetFile(f, gid))
    && (forall l | l in c.links :: IsTargetLink(l))
    && (forall f, g | f in c.files && g in c.files && f.path == g.path :: f == g)
    && (forall l, m | l in c.links && m in c.links && l.path == m.path :: l == m)
  }

  // ----- single steps -----

  predicate IsStep(step: Step, gid: Option<nat>) {
    match step
    case RemoveLink(l) => IsTargetLink(l) && l.delete
    case InstallLink(l) => IsTargetLink(l) && !l.delete
    case RemoveFile(f) => IsTargetFile(f, gid) && f.delete
    case InstallFile(f) => IsTargetFile(f, gid) && !f.delete && !f.preserve && |f.content| <= MAX_CONFIG_FILE_BYTES
  }

  lemma StepSettles(fs: Fs, step: Step, id: Identity, gid: Option<nat>)
    requires IsStep(step, gid) && Perform(fs, step, id).Done?
    ensures Decide(Perform(fs, step, id).fs, step, id).Keep?
  {
  }

  lemma StepKeepsOthers(fs: Fs, step: Step, other: Step, id: Identity, gid: Option<nat>)
    requires IsStep(step, gid) && IsStep(other, gid) && StepPath(step) != StepPath(other)
    requires Perform(fs, step, id).Done? && Decide(fs, other, id).Keep?
    ensures Decide(Perform(fs, step, id).fs, other, id).Keep?
  {
  }

  predicate Inspected(fs: Fs, step: Step, id: Identity) {
    match step
    case RemoveLink(l) => InspectLink(fs, l.path, l.target, id).Seen?
    case InstallLink(l) => InspectLink(fs, l.path, l.target, id).Seen?
    case RemoveFile(f) => InspectFile(fs, f.path, f.kind, id).Seen?
    case InstallFile(f) => InspectFile(fs, f.path, f.kind, id).Seen?
  }

  lemma InspectedByLookup(a: Fs, b: Fs, step: Step, id: Identity)
    requires Lookup(a, StepPath(step)) == Lookup(b, StepPath(step)) && Inspected(a, step, id)
    ensures Inspected(b, step, id)
  {
  }

  // ----- runs -----

  ghost predicate OneStepPerPath(steps: seq<Step>) {
    forall s, t | s in steps && t in steps && StepPath(s) == StepPath(t) :: s == t
  }

  /** After a run that went through, each of its steps would be left alone. */
  lemma {:induction false} RunSettles(fs: Fs, steps: seq<Step>, id: Identity, gid: Option<nat>)
    requires OneStepPerPath(steps) && RunSteps(fs, steps, id).ok
    requires forall s | s in steps :: IsStep(s, gid)
    ensures forall s | s in steps :: Decide(RunSteps(fs, steps, id).fs, s, id).Keep?
  {
    if steps != [] {
      var front, last := steps[..|steps| - 1], steps[|steps| - 1];
      assert steps == front + [last];
      RunSettles(fs, front, id, gid);
      var mid := RunSteps(fs, front, id).fs;
      StepSettles(mid, last, id, gid);
      forall s | s in front && s != last ensures Decide(Perform(mid, last, id).fs, s, id).Keep? {
        StepKeepsOthers(mid, last, s, id, gid);
      }
    }
  }

  /** A run that went through found every target it inspected acceptable from the start. */
  lemma {:induction false} RunInspected(fs: Fs, steps: seq<Step>, id: Identity, s: Step)
    requires OneStepPerPath(steps) && RunSteps(fs, steps, id).ok && s in steps
    ensures Inspected(fs, s, id)
  {
    var front, last := steps[..|steps| - 1], steps[|steps| - 1];
    assert steps == front + [last];
    if s in front {
      RunInspected(fs, front, id, s);
    } else {
      var mid := RunSteps(fs, front, id).fs;
      PathUntouched(fs, front, id, StepPath(s));
      assert Inspected(mid, s, id);
      InspectedByLookup(mid, fs, s, id);
    }
  }

  lemma {:induction false} PathUntouched(fs: Fs, steps: seq<Step>, id: Identity, p: Path)
    requires forall s | s in steps :: StepPath(s) != p
    ensures Lookup(RunSteps(fs, steps, id).fs, p) == Lookup(fs, p)
  {
    if steps != [] {
      PathUntouched(fs, steps[..|steps| - 1], id, p);
      assert steps[|steps| - 1] in steps;
    }
  }

  // ----- all steps of a compilation -----

  lemma StepsOf(c: Compilation, id: Identity, s: Step)
    ensures s in AllSteps(c, id) <==>
              match s
              case RemoveLink(l) => l in c.links && l.delete
              case InstallLink(l) => l in c.links && !l.delete && !l.preserve
              case RemoveFile(f) => f in c.files && f.delete
              case InstallFile(f) => f in c.files && !f.delete && !f.preserve
  {
    InPass(c.links, LinkRemoval(), s);
    InPass(c.files, FileRemoval(false, id), s);
    InPass(c.files, FileInstall(), s);
    InPass(c.links, LinkInstall(), s);
    InPass(c.files, FileRemoval(true, id), s);
    match s {
      case RemoveLink(l) => assert LinkRemoval()(l) == (if l.delete then Some(s) else None);
      case InstallLink(l) => assert LinkInstall()(l) == (if !l.delete && !l.preserve then Some(s) else None);
      case RemoveFile(f) =>
        assert f.delete ==> FileRemoval(IsAuthDeletion(f, id), id)(f) == Some(s);
      case InstallFile(f) => assert FileInstall()(f) == (if !f.delete && !f.preserve then Some(s) else None);
    }
  }

  /** What a successful apply leaves behind, told apart by target. */
  ghost predicate Applied(before: Fs, after: Fs, c: Compilation, id: Identity) {
    && Settled(after, c, id)
    && (forall s | s in AllSteps(c, id) :: Inspected(before, s, id))
    && (forall p | (forall s | s in AllSteps(c, id) :: StepPath(s) != p) :: Lookup(after, p) == Lookup(before, p))
  }

  lemma ExecutedApplies(fs: Fs, c: Compilation, id: Identity, host: Host, hasEnabled: bool, gid: Option<nat>)
    requires WellTargeted(c, gid) && !Executed(fs, c, id, host, hasEnabled).failed
    ensures Applied(fs, Executed(fs, c, id, host, hasEnabled).fs, c, id)
    ensures Attested(Executed(fs, c, id, host, hasEnabled).fs, c, id, hasEnabled)
  {
    var steps, after := AllSteps(c, id), Executed(fs, c, id, host, hasEnabled).fs;
    RunConcat(fs, MainSteps(c, id), AuthSteps(c, id), id);
    assert RunSteps(fs, steps, id).ok && RunSteps(fs, steps, id).fs == after;
    forall s | s in steps ensures IsStep(s, gid) {
      StepsOf(c, id, s);
      if s.InstallFile? && s.file.kind.Vhost? {
        assert VhostAttested(after, c, s.file, id, hasEnabled);
      }
    }
    StepsAreApart(c, id, gid);
    RunSettles(fs, steps, id, gid);
    forall s | s in steps ensures Inspected(fs, s, id) { RunInspected(fs, steps, id, s); }
    forall p | (forall s | s in steps :: StepPath(s) != p) ensures Lookup(after, p) == Lookup(fs, p) { PathUntouched(fs, steps, id, p); }
  }

  lemma StepsAreApart(c: Compilation, id: Identity, gid: Option<nat>)
    requires WellTargeted(c, gid)
    ensures OneStepPerPath(AllSteps(c, id))
  {
    forall s, t | s in AllSteps(c, id) && t in AllSteps(c, id) && StepPath(s) == StepPath(t) ensures s == t {
      StepsOf(c, id, s);
      StepsOf(c, id, t);
    }
  }

  // ----- target by target -----

  lemma AppliedFile(before: Fs, after: Fs, c: Compilation, id: Identity, gid: Option<nat>, f: FileTarget)
    requires WellTargeted(c, gid) && Applied(before, after, c, id) && f in c.files
    ensures f.delete ==> f.path !in after.nodes
    ensures !f.delete && !f.preserve ==> IsRegularWith(after, f.path, f.content)
    ensures f.preserve ==> Lookup(after, f.path) == Lookup(before, f.path)
    ensures !f.preserve ==> InspectFile(before, f.path, f.kind, id).Seen?
  {
    var s := if f.delete then RemoveFile(f) else InstallFile(f);
    StepsOf(c, id, s);
    if f.preserve {
      forall t | t in AllSteps(c, id) ensures StepPath(t) != f.path { StepsOf(c, id, t); }
    } else {
      assert Decide(after, s, id).Keep? && Inspected(before, s, id);
    }
  }

  predicate IsRegularWith(fs: Fs, p: Path, content: string) {
    p in fs.nodes && fs.nodes[p].Regular? && fs.nodes[p].content == content
  }

  /** At a link's path there never is anything but that link. */
  predicate OnlyLink(fs: Fs, l: LinkTarget) {
    l.path in fs.nodes ==> fs.nodes[l.path].Symlink? && fs.nodes[l.path].target == l.target
  }

  lemma AppliedLink(before: Fs, after: Fs, c: Compilation, id: Identity, gid: Option<nat>, hasEnabled: bool, l: LinkTarget)
    requires WellTargeted(c, gid) && Applied(before, after, c, id) && Attested(after, c, id, hasEnabled) && l in c.links
    ensures OnlyLink(before, l) && OnlyLink(after, l)
  {
    var s := if l.delete then RemoveLink(l) else InstallLink(l);
    StepsOf(c, id, s);
    if l.preserve {
      forall t | t in AllSteps(c, id) ensures StepPath(t) != l.path { StepsOf(c, id, t); }
      assert Lookup(after, l.path) == Lookup(before, l.path);
      assert LinkAttested(after, l, id);
    } else {
      assert Decide(after, s, id).Keep? && Inspected(before, s, id);
    }
  }

  /** Every path that is no target is as before. */
  lemma AppliedElsewhere(before: Fs, after: Fs, c: Compilation, id: Identity, p: Path)
    requires Applied(before, after, c, id)
    requires (forall f | f in c.files :: f.path != p) && (forall l | l in c.links :: l.path != p)
    ensures Lookup(after, p) == Lookup(before, p)
  {
    forall s | s in AllSteps(c, id) ensures StepPath(s) != p { StepsOf(c, id, s); }
  }
}
