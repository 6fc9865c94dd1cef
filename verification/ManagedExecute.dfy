/** Executing a compilation, and deciding without writing that there is nothing to execute. */
module ManagedExecute {
  import opened Marker
  import opened ManagedFs

  /** The proxy service: does it accept, reload and run the configuration on disk? */
  datatype Host = Host(validate: Fs -> bool, reload: Fs -> bool, active: Fs -> bool)

  datatype Outcome = Outcome(fs: Fs, mutated: bool, validated: bool, failed: bool)

  predicate HasDeletions(c: Compilation) {
    (exists f | f in c.files :: f.delete) || (exists l | l in c.links :: l.delete)
  }

  predicate LinkAttested(fs: Fs, link: LinkTarget, id: Identity) {
    InspectLink(fs, link.path, link.target, id).Seen? && link.path in fs.nodes
  }

  predicate VhostAttested(fs: Fs, c: Compilation, file: FileTarget, id: Identity, hasEnabled: bool) {
    && (if file.preserve then PreservedLive(fs, file, id)
        else
          && InspectFile(fs, file.path, file.kind, id).Seen? && file.path in fs.nodes
          && fs.nodes[file.path].Regular? && fs.nodes[file.path].content == file.content)
    && (hasEnabled ==> exists l | l in c.links :: !l.delete && l.target == file.path)
  }

  predicate Attested(fs: Fs, c: Compilation, id: Identity, hasEnabled: bool) {
    && (forall l | l in c.links && !l.delete :: LinkAttested(fs, l, id))
    && (forall f | f in c.files && !f.delete && f.kind.Vhost? :: VhostAttested(fs, c, f, id, hasEnabled))
  }

  function Executed(fs: Fs, c: Compilation, id: Identity, host: Host, hasEnabled: bool): Outcome {
    if !HasDeletions(c) && !host.validate(fs) then Outcome(fs, false, false, true)
    else
      var main := RunSteps(fs, MainSteps(c, id), id);
      if !main.ok then Outcome(main.fs, main.mutated, false, true)
      else if main.mutated && !(host.validate(main.fs) && host.reload(main.fs) && host.active(main.fs)) then
        Outcome(main.fs, true, false, true)
      else
        var auth := RunSteps(main.fs, AuthSteps(c, id), id);
        var done := auth.ok && Attested(auth.fs, c, id, hasEnabled);
        Outcome(auth.fs, main.mutated || auth.mutated, done, !done)
  }

  // ----- the convergence check -----

  /** The first target that is not left alone, in the order of the five passes. */
  function FirstStop(fs: Fs, steps: seq<Step>, id: Identity): (k: nat)
    ensures k <= |steps|
    ensures forall i | 0 <= i < k :: Decide(fs, steps[i], id).Keep?
    ensures k < |steps| ==> !Decide(fs, steps[k], id).Keep?
  {
    if steps == [] then 0
    else
      var before := FirstStop(fs, steps[..|steps| - 1], id);
      if before < |steps| - 1 then before
      else if Decide(fs, steps[|steps| - 1], id).Keep? then |steps| else |steps| - 1
  }

  predicate Settled(fs: Fs, c: Compilation, id: Identity) {
    forall step | step in AllSteps(c, id) :: Decide(fs, step, id).Keep?
  }

  predicate IsConverged(fs: Fs, c: Compilation, id: Identity, host: Host, hasEnabled: bool) {
    && Settled(fs, c, id)
    && (HasDeletions(c) || host.validate(fs))
    && Attested(fs, c, id, hasEnabled)
  }

  /** What the check answers: an error stands for a refused target, an invalid proxy or a failed
      attestation. */
  datatype Verdict = AlreadyConverged | ChangePending | CheckFailed

  function CheckVerdict(fs: Fs, c: Compilation, id: Identity, host: Host, hasEnabled: bool): Verdict {
    var steps := AllSteps(c, id);
    var k := FirstStop(fs, steps, id);
    if k < |steps| then (if Decide(fs, steps[k], id).Change? then ChangePending else CheckFailed)
    else if (HasDeletions(c) || host.validate(fs)) && Attested(fs, c, id, hasEnabled) then AlreadyConverged
    else CheckFailed
  }

  lemma VerdictMeansConverged(fs: Fs, c: Compilation, id: Identity, host: Host, hasEnabled: bool)
    ensures CheckVerdict(fs, c, id, host, hasEnabled).AlreadyConverged? <==> IsConverged(fs, c, id, host, hasEnabled)
  {
    var steps := AllSteps(c, id);
    var k := FirstStop(fs, steps, id);
    if k < |steps| {
      assert steps[k] in steps;
    }
  }

  /** A step that is not to be left alone either fails or changes something. */
  lemma StopFailsOrChanges(fs: Fs, step: Step, id: Identity)
    ensures Decide(fs, step, id).Keep? <==> Perform(fs, step, id) == Done(fs, false)
    ensures !Decide(fs, step, id).Keep? ==> Perform(fs, step, id).Failed? || Perform(fs, step, id).changed
  {
  }

  /** Up to the first stop nothing happens; the stop itself fails or mutates, and so does the run. */
  lemma {:induction false} RunUntilStop(fs: Fs, steps: seq<Step>, id: Identity)
    ensures var k := FirstStop(fs, steps, id);
            && RunSteps(fs, steps[..k], id) == Run(fs, false, true)
            && (k < |steps| ==> !RunSteps(fs, steps, id).ok || RunSteps(fs, steps, id).mutated)
  {
    if steps == [] {
      assert steps[..0] == [];
    } else {
      var front, last := steps[..|steps| - 1], steps[|steps| - 1];
      RunUntilStop(fs, front, id);
      StopFailsOrChanges(fs, last, id);
      var k := FirstStop(fs, steps, id);
      if k < |steps| {
        assert steps[..k] == front[..k];
      } else {
        assert steps[..k] == steps && front[..k - 1] == front;
      }
    }
  }

  lemma {:induction false} SettledRun(fs: Fs, steps: seq<Step>, id: Identity)
    ensures RunSteps(fs, steps, id) == Run(fs, false, true) <==> forall step | step in steps :: Decide(fs, step, id).Keep?
  {
    RunUntilStop(fs, steps, id);
    var k := FirstStop(fs, steps, id);
    if k < |steps| {
      assert steps[k] in steps;
    } else {
      assert steps[..k] == steps;
    }
  }

  /** The check says yes exactly when executing would succeed without changing anything. */
  lemma ConvergedIffExecuteKeeps(fs: Fs, c: Compilation, id: Identity, host: Host, hasEnabled: bool)
    ensures IsConverged(fs, c, id, host, hasEnabled) <==>
              (!Executed(fs, c, id, host, hasEnabled).failed && !Executed(fs, c, id, host, hasEnabled).mutated)
    ensures IsConverged(fs, c, id, host, hasEnabled) ==> Executed(fs, c, id, host, hasEnabled).fs == fs
  {
    var main, auth := MainSteps(c, id), AuthSteps(c, id);
    SettledRun(fs, main, id);
    SettledRun(fs, auth, id);
    RunUntilStop(fs, main, id);
    RunUntilStop(fs, auth, id);
    assert main[..|main|] == main && auth[..|auth|] == auth;
    assert forall step :: step in AllSteps(c, id) <==> step in main || step in auth;
  }

  /** Both meet the same target first: before it nothing is written, at it execution fails or mutates. */
  lemma SameFirstTarget(fs: Fs, c: Compilation, id: Identity, host: Host, hasEnabled: bool)
    ensures var steps := AllSteps(c, id);
            var k := FirstStop(fs, steps, id);
            k < |steps| ==>
              && RunSteps(fs, steps[..k], id) == Run(fs, false, true)
              && (Perform(fs, steps[k], id).Failed? || Perform(fs, steps[k], id).changed)
              && !IsConverged(fs, c, id, host, hasEnabled)
              && (Executed(fs, c, id, host, hasEnabled).failed || Executed(fs, c, id, host, hasEnabled).mutated)
  {
    var steps := AllSteps(c, id);
    RunUntilStop(fs, steps, id);
    var k := FirstStop(fs, steps, id);
    if k < |steps| {
      StopFailsOrChanges(fs, steps[k], id);
      assert steps[k] in steps;
      ConvergedIffExecuteKeeps(fs, c, id, host, hasEnabled);
    }
  }

  // ----- the handler -----

  datatype ActionResult = ActionResult(mutated: bool, validated: bool, failed: bool)

  class ManagedApply {
    var fs: Fs
    const id: Identity
    const host: Host
    const hasEnabled: bool

    constructor (fs: Fs, id: Identity, host: Host, hasEnabled: bool)
      ensures this.fs == fs && this.id == id && this.host == host && this.hasEnabled == hasEnabled
    {
      this.fs, this.id, this.host, this.hasEnabled := fs, id, host, hasEnabled;
    }

    method RemoveManagedLink(link: LinkTarget) returns (ok: bool, changed: bool)
      modifies this
      ensures Took(old(fs), RemoveLink(link), fs, ok, changed)
    {
      var pending := LinkPending(fs, link, id);
      if !pending.Change? {
        return pending.Keep?, false;
      }
      fs := fs.(nodes := fs.nodes - {link.path});
      return true, true;
    }

    method RemoveManagedFile(file: FileTarget) returns (ok: bool, changed: bool)
      modifies this
      ensures Took(old(fs), RemoveFile(file), fs, ok, changed)
    {
      var pending := FilePending(fs, file, id);
      if !pending.Change? {
        return pending.Keep?, false;
      }
      fs := fs.(nodes := fs.nodes - {file.path});
      return true, true;
    }

    method InstallManagedFile(file: FileTarget) returns (ok: bool, changed: bool)
      modifies this
      ensures Took(old(fs), InstallFile(file), fs, ok, changed)
    {
      var pending := FilePending(fs, file, id);
      if !pending.Change? {
        return pending.Keep?, false;
      }
      if file.kind.AuthFile? {
        if !fs.authParentSafe || fs.auth.Foreign? {
          return false, false;
        }
        fs := fs.(auth := Owned(file.gid, PERM_0750, 0));
        if file.path in fs.nodes && FileConverged(fs.nodes[file.path], file) {
          return true, true;
        }
      }
      fs := fs.(nodes := fs.nodes[file.path := Installed(file, id)]);
      return true, true;
    }

    method InstallManagedLink(link: LinkTarget) returns (ok: bool, changed: bool)
      modifies this
      ensures Took(old(fs), InstallLink(link), fs, ok, changed)
    {
      var pending := LinkPending(fs, link, id);
      if !pending.Change? {
        return pending.Keep?, false;
      }
      fs := fs.(nodes := fs.nodes[link.path := Symlink(link.target, id.owner, id.processGid)]);
      return true, true;
    }

    /** What a mutator reports is what the step does; a refused one leaves everything as it was. */
    ghost predicate Took(before: Fs, step: Step, after: Fs, ok: bool, changed: bool) {
      match ManagedFs.Perform(before, step, id)
      case Failed => !ok && !changed && after == before
      case Done(next, c) => ok && changed == c && after == next
    }

    method RemoveLinksPass(links: seq<LinkTarget>) returns (ok: bool, mutated: bool)
      modifies this
      ensures Run(fs, mutated, ok) == RunSteps(old(fs), Pass(links, LinkRemoval()), id)
    {
      mutated := false;
      for i := 0 to |links|
        invariant Run(fs, mutated, true) == RunSteps(old(fs), Pass(links[..i], LinkRemoval()), id)
      {
        PassNext(links, LinkRemoval(), i);
        if links[i].delete {
          LastStep(old(fs), Pass(links[..i], LinkRemoval()), RemoveLink(links[i]), id);
          var done, changed := RemoveManagedLink(links[i]);
          if !done {
            PassStops(old(fs), links, LinkRemoval(), i + 1, id);
            return false, mutated;
          }
          mutated := mutated || changed;
        }
      }
      assert links[..|links|] == links;
      return true, mutated;
    }

    method RemoveFilesPass(files: seq<FileTarget>, auth: bool) returns (ok: bool, mutated: bool)
      modifies this
      ensures Run(fs, mutated, ok) == RunSteps(old(fs), Pass(files, FileRemoval(auth, id)), id)
    {
      mutated := false;
      for i := 0 to |files|
        invariant Run(fs, mutated, true) == RunSteps(old(fs), Pass(files[..i], FileRemoval(auth, id)), id)
      {
        PassNext(files, FileRemoval(auth, id), i);
        if files[i].delete && IsAuthDeletion(files[i], id) == auth {
          LastStep(old(fs), Pass(files[..i], FileRemoval(auth, id)), RemoveFile(files[i]), id);
          var done, changed := RemoveManagedFile(files[i]);
          if !done {
            PassStops(old(fs), files, FileRemoval(auth, id), i + 1, id);
            return false, mutated;
          }
          mutated := mutated || changed;
        }
      }
      assert files[..|files|] == files;
      return true, mutated;
    }

    method InstallFilesPass(files: seq<FileTarget>) returns (ok: bool, mutated: bool)
      modifies this
      ensures Run(fs, mutated, ok) == RunSteps(old(fs), Pass(files, FileInstall()), id)
    {
      mutated := false;
      for i := 0 to |files|
        invariant Run(fs, mutated, true) == RunSteps(old(fs), Pass(files[..i], FileInstall()), id)
      {
        PassNext(files, FileInstall(), i);
        if !files[i].delete && !files[i].preserve {
          LastStep(old(fs), Pass(files[..i], FileInstall()), InstallFile(files[i]), id);
          var done, changed := InstallManagedFile(files[i]);
          if !done {
            PassStops(old(fs), files, FileInstall(), i + 1, id);
            return false, mutated;
          }
          mutated := mutated || changed;
        }
      }
      assert files[..|files|] == files;
      return true, mutated;
    }

    method InstallLinksPass(links: seq<LinkTarget>) returns (ok: bool, mutated: bool)
      modifies this
      ensures Run(fs, mutated, ok) == RunSteps(old(fs), Pass(links, LinkInstall()), id)
    {
      mutated := false;
      for i := 0 to |links|
        invariant Run(fs, mutated, true) == RunSteps(old(fs), Pass(links[..i], LinkInstall()), id)
      {
        PassNext(links, LinkInstall(), i);
        if !links[i].delete && !links[i].preserve {
          LastStep(old(fs), Pass(links[..i], LinkInstall()), InstallLink(links[i]), id);
          var done, changed := InstallManagedLink(links[i]);
          if !done {
            PassStops(old(fs), links, LinkInstall(), i + 1, id);
            return false, mutated;
          }
          mutated := mutated || changed;
        }
      }
      assert links[..|links|] == links;
      return true, mutated;
    }

    /** Everything that runs before the reload. */
    method MainPasses(c: Compilation) returns (ok: bool, mutated: bool)
      modifies this
      ensures Run(fs, mutated, ok) == RunSteps(old(fs), MainSteps(c, id), id)
    {
      ghost var fs0 := fs;
      var a, b, d := Pass(c.links, LinkRemoval()), Pass(c.files, FileRemoval(false, id)), Pass(c.files, FileInstall());
      RunConcat(fs0, a, b, id);
      RunConcat(fs0, a + b, d, id);
      RunConcat(fs0, a + b + d, Pass(c.links, LinkInstall()), id);
      var changed;
      ok, mutated := RemoveLinksPass(c.links);
      if ok {
        ok, changed := RemoveFilesPass(c.files, false);
        mutated := mutated || changed;
      }
      if ok {
        ok, changed := InstallFilesPass(c.files);
        mutated := mutated || changed;
      }
      if ok {
        ok, changed := InstallLinksPass(c.links);
        mutated := mutated || changed;
      }
    }

    method Execute(c: Compilation) returns (result: ActionResult)
      modifies this
      ensures Outcome(fs, result.mutated, result.validated, result.failed) == Executed(old(fs), c, id, host, hasEnabled)
    {
      if !HasDeletions(c) && !host.validate(fs) {
        return ActionResult(false, false, true);
      }
      var ok, mutated := MainPasses(c);
      if !ok {
        return ActionResult(mutated, false, true);
      }
      if mutated {
        if !host.validate(fs) || !host.reload(fs) || !host.validate(fs) || !host.active(fs) {
          return ActionResult(true, false, true);
        }
      }
      var authOk, removed := RemoveFilesPass(c.files, true);
      mutated := mutated || removed;
      if !authOk || !Attested(fs, c, id, hasEnabled) {
        return ActionResult(mutated, false, true);
      }
      return ActionResult(mutated, true, false);
    }

    /** Walks the passes in Execute's order and asks the mutators' own decision; writes nothing. */
    method Converged(c: Compilation) returns (verdict: Verdict)
      ensures verdict == CheckVerdict(fs, c, id, host, hasEnabled)
    {
      var steps := AllSteps(c, id);
      for i := 0 to |steps|
        invariant i <= FirstStop(fs, steps, id)
      {
        var pending := Decide(fs, steps[i], id);
        if !pending.Keep? {
          return if pending.Change? then ChangePending else CheckFailed;
        }
      }
      if !HasDeletions(c) && !host.validate(fs) {
        return CheckFailed;
      }
      if !Attested(fs, c, id, hasEnabled) {
        return CheckFailed;
      }
      return AlreadyConverged;
    }
  }

  lemma LastStep(fs: Fs, steps: seq<Step>, step: Step, id: Identity)
    ensures RunSteps(fs, steps + [step], id) ==
              var before := RunSteps(fs, steps, id);
              if !before.ok then before
              else match Perform(before.fs, step, id)
                case Failed => before.(ok := false)
                case Done(next, changed) => Run(next, before.mutated || changed, true)
  {
    assert (steps + [step])[..|steps|] == steps;
  }

  /** A failed pass stays where it is, whatever targets would follow. */
  lemma PassStops<T>(fs: Fs, items: seq<T>, pick: T -> Option<Step>, i: nat, id: Identity)
    requires i <= |items| && !RunSteps(fs, Pass(items[..i], pick), id).ok
    ensures RunSteps(fs, Pass(items, pick), id) == RunSteps(fs, Pass(items[..i], pick), id)
  {
    var rest := PassSplit(items, pick, i);
    RunConcat(fs, Pass(items[..i], pick), rest, id);
  }
}
