/** What an apply looks at before it changes anything: every target is inspected and compared with the plan. */
module ManagedGuard {
  import opened ManagedApplied
  import opened ManagedCompile
  import opened ManagedConfig
  import opened ManagedExecute
  import opened ManagedFs
  import opened ManagedRollback
  import opened ManagedShape

  /** An eighth of a protocol frame. */
  const MAX_RECEIPT_BYTES := 524_288

  // ----- the inspection -----

  predicate FileFit(fs: Fs, f: FileTarget, id: Identity) {
    if f.preserve then PreservedLive(fs, f, id) else InspectFile(fs, f.path, f.kind, id).Seen?
  }

  predicate LinkFit(fs: Fs, l: LinkTarget, id: Identity) {
    InspectLink(fs, l.path, l.target, id).Seen? && (l.preserve ==> l.path in fs.nodes)
  }

  /** The bytes of the vhosts; a receipt must be able to hold them. */
  function VhostBytes(files: seq<FileTarget>): nat {
    if files == [] then 0
    else
      var f := files[|files| - 1];
      VhostBytes(files[..|files| - 1]) + if f.kind.Vhost? && !f.delete then |f.content| else 0
  }

  lemma {:induction false} OneOfTheBytes(files: seq<FileTarget>, f: FileTarget)
    requires f in files && f.kind.Vhost? && !f.delete
    ensures |f.content| <= VhostBytes(files)
  {
    var front, last := files[..|files| - 1], files[|files| - 1];
    assert files == front + [last];
    if f in front {
      OneOfTheBytes(front, f);
    }
  }

  /** The vhosts fit a receipt, every target may be inspected, and what is to be kept is there. */
  predicate Fingerprinted(fs: Fs, c: Compilation, id: Identity) {
    && VhostBytes(c.files) <= MAX_RECEIPT_BYTES
    && (forall f | f in c.files :: FileFit(fs, f, id)) && (forall l | l in c.links :: LinkFit(fs, l, id))
  }

  method Fingerprint(fs: Fs, c: Compilation, id: Identity) returns (ok: bool)
    ensures ok <==> Fingerprinted(fs, c, id)
  {
    var total := 0;
    for i := 0 to |c.files|
      invariant total == VhostBytes(c.files[..i])
    {
      assert c.files[..i + 1][..i] == c.files[..i];
      if c.files[i].kind.Vhost? && !c.files[i].delete {
        total := total + |c.files[i].content|;
      }
    }
    assert c.files[..|c.files|] == c.files;
    if total > MAX_RECEIPT_BYTES {
      return false;
    }
    for i := 0 to |c.files|
      invariant forall f | f in c.files[..i] :: FileFit(fs, f, id)
    {
      assert c.files[..i + 1] == c.files[..i] + [c.files[i]] && c.files[i] in c.files;
      if !FileFit(fs, c.files[i], id) {
        return false;
      }
    }
    for i := 0 to |c.links|
      invariant forall l | l in c.links[..i] :: LinkFit(fs, l, id)
    {
      assert c.links[..i + 1] == c.links[..i] + [c.links[i]] && c.links[i] in c.links;
      if !LinkFit(fs, c.links[i], id) {
        return false;
      }
    }
    assert c.files[..|c.files|] == c.files && c.links[..|c.links|] == c.links;
    return true;
  }

  // ----- the whole handler -----

  /** `loaded` says that the snapshot could be read, `same` that compilation and fingerprint are the plan's. */
  function Planned(fs: Fs, c: Compilation, id: Identity, host: Host, hasEnabled: bool, loaded: bool, same: bool): Outcome {
    if loaded && same && Fingerprinted(fs, c, id) then Executed(fs, c, id, host, hasEnabled) else Outcome(fs, false, false, true)
  }

  function PlannedVerdict(fs: Fs, c: Compilation, id: Identity, host: Host, hasEnabled: bool, same: bool): Verdict {
    if same && Fingerprinted(fs, c, id) then CheckVerdict(fs, c, id, host, hasEnabled) else CheckFailed
  }

  method ExecutePlanned(machine: ManagedApply, c: Compilation, loaded: bool, same: bool) returns (result: ActionResult)
    modifies machine
    ensures Outcome(machine.fs, result.mutated, result.validated, result.failed) ==
              Planned(old(machine.fs), c, machine.id, machine.host, machine.hasEnabled, loaded, same)
  {
    if !loaded {
      return ActionResult(false, false, true);
    }
    var fit := Fingerprint(machine.fs, c, machine.id);
    if !fit || !same {
      return ActionResult(false, false, true);
    }
    result := machine.Execute(c);
  }

  method ConvergedPlanned(machine: ManagedApply, c: Compilation, same: bool) returns (verdict: Verdict)
    ensures verdict == PlannedVerdict(machine.fs, c, machine.id, machine.host, machine.hasEnabled, same)
  {
    var fit := Fingerprint(machine.fs, c, machine.id);
    if !fit || !same {
      return CheckFailed;
    }
    verdict := machine.Converged(c);
  }

  /** With the snapshot readable, the check is positive exactly when the apply would return no error and change
      nothing, and both refuse a target that may not be inspected before anything is changed. */
  lemma PlannedConvergedIff(fs: Fs, c: Compilation, id: Identity, host: Host, hasEnabled: bool, same: bool)
    ensures PlannedVerdict(fs, c, id, host, hasEnabled, same).AlreadyConverged? <==>
              !Planned(fs, c, id, host, hasEnabled, true, same).failed && !Planned(fs, c, id, host, hasEnabled, true, same).mutated
    ensures !Fingerprinted(fs, c, id) ==>
              PlannedVerdict(fs, c, id, host, hasEnabled, same).CheckFailed? && Planned(fs, c, id, host, hasEnabled, true, same).fs == fs
  {
    VerdictMeansConverged(fs, c, id, host, hasEnabled);
    ConvergedIffExecuteKeeps(fs, c, id, host, hasEnabled);
  }

  // ----- nothing is refused midway -----

  /** Steps only ever give the auth directory to the worker group. */
  ghost predicate DirsFrom(fs: Fs, later: Fs, gid: Option<nat>) {
    && later.safeDirs == fs.safeDirs && later.authParentSafe == fs.authParentSafe
    && (later.auth == fs.auth || (gid.Some? && later.auth == Owned(gid.value, PERM_0750, 0)))
  }

  lemma {:induction false} RunDirs(fs: Fs, steps: seq<Step>, id: Identity, gid: Option<nat>)
    requires forall s | s in steps :: IsStep(s, gid)
    ensures DirsFrom(fs, RunSteps(fs, steps, id).fs, gid)
  {
    if steps != [] {
      RunDirs(fs, steps[..|steps| - 1], id, gid);
      assert steps[|steps| - 1] in steps;
    }
  }

  lemma StepStillWorks(fs: Fs, later: Fs, s: Step, id: Identity, gid: Option<nat>)
    requires Perform(fs, s, id).Done? && IsStep(s, gid)
    requires DirsFrom(fs, later, gid) && Lookup(later, StepPath(s)) == Lookup(fs, StepPath(s))
    ensures Perform(later, s, id).Done?
  {
  }

  /** If each step alone could be done at the start, all of them can be done in a row. */
  lemma {:induction false} NothingRefusedMidway(fs: Fs, steps: seq<Step>, id: Identity, gid: Option<nat>)
    requires OneStepPerPath(steps)
    requires forall s | s in steps :: IsStep(s, gid) && Perform(fs, s, id).Done?
    ensures RunSteps(fs, steps, id).ok
  {
    if steps != [] {
      var front, last := steps[..|steps| - 1], steps[|steps| - 1];
      assert steps == front + [last];
      NothingRefusedMidway(fs, front, id, gid);
      if last in front {
        RunSettles(fs, front, id, gid);
      } else {
        PathUntouched(fs, front, id, StepPath(last));
        RunDirs(fs, front, id, gid);
        StepStillWorks(fs, RunSteps(fs, front, id).fs, last, id, gid);
      }
    }
  }

  /** The directories that the targets need are trusted, or can be made so. */
  predicate DirsReady(fs: Fs, c: Compilation) {
    && (forall f | f in c.files && !f.preserve ::
          if f.delete then f.path in fs.nodes ==> DirSafe(fs, f.path)
          else if f.kind.AuthFile? then fs.authParentSafe && !fs.auth.Foreign?
          else DirSafe(fs, f.path))
    && (forall l | l in c.links && !l.preserve :: (l.delete ==> l.path in fs.nodes) ==> DirSafe(fs, l.path))
  }

  lemma ReadyStep(fs: Fs, c: Compilation, id: Identity, gid: Option<nat>, s: Step)
    requires WellTargeted(c, gid) && Fingerprinted(fs, c, id) && DirsReady(fs, c) && s in AllSteps(c, id)
    ensures IsStep(s, gid) && Perform(fs, s, id).Done?
  {
    StepsOf(c, id, s);
    if s.InstallFile? && s.file.kind.Vhost? {
      OneOfTheBytes(c.files, s.file);
    }
    match s {
      case RemoveLink(l) => assert LinkFit(fs, l, id);
      case InstallLink(l) => assert LinkFit(fs, l, id);
      case RemoveFile(f) => assert FileFit(fs, f, id) && !f.preserve;
      case InstallFile(f) => assert FileFit(fs, f, id);
    }
  }

  /** Behind the inspection, an apply with its directories in order goes through all its targets: it stops only
      for the proxy or for the attestation, never at a target after it has changed another. */
  lemma FingerprintedGoesThrough(fs: Fs, c: Compilation, id: Identity, gid: Option<nat>)
    requires WellTargeted(c, gid) && Fingerprinted(fs, c, id) && DirsReady(fs, c)
    ensures RunSteps(fs, AllSteps(c, id), id).ok
  {
    StepsAreApart(c, id, gid);
    forall s | s in AllSteps(c, id) ensures IsStep(s, gid) && Perform(fs, s, id).Done? {
      ReadyStep(fs, c, id, gid, s);
    }
    NothingRefusedMidway(fs, AllSteps(c, id), id, gid);
  }

  /** So does everything that was compiled from a valid intent. */
  lemma CompiledGoesThrough(env: Env, fs: Fs, intent: Intent, c: Compilation)
    requires ValidIntent(intent) && IsCompiled(env, fs, intent, Some(c))
    requires Fingerprinted(fs, c, env.id) && DirsReady(fs, c)
    ensures RunSteps(fs, AllSteps(c, env.id), env.id).ok
  {
    CompiledIsWell(env, fs, intent, c);
    FingerprintedGoesThrough(fs, c, env.id, env.workerGroup);
  }
}
