/** Applying the same intent twice: when the second time finds nothing to do, and what pruning never removes. */
module ManagedFixpoint {
  import opened ManagedApplied
  import opened ManagedCompile
  import opened ManagedConfig
  import opened ManagedExecute
  import opened ManagedFs
  import opened ManagedRecompile
  import opened ManagedRollback
  import opened ManagedShape
  import opened Marker
  import opened Strings

  // ----- the surviving configuration is the same -----

  /** Where a symlink leads: a regular file that is no target, or nowhere. */
  function Landing(fs: Fs, q: Path, n: nat, targets: set<Path>): Option<Path> {
    match Resolve(fs, q, n)
    case Some(p) => if IsRegular(fs, p) && p !in targets then Some(p) else None
    case None => None
  }

  lemma AtTarget(env: Env, before: Fs, after: Fs, intent: Intent, c: Compilation, q: Path, n: nat)
    requires Landed(env, before, after, intent, c) && q in TargetPaths(c.files)
    ensures Landing(before, q, n, TargetPaths(c.files)) == None == Landing(after, q, n, TargetPaths(c.files))
  {
    var f :| f in c.files && f.path == q;
    LandedFile(env, before, after, intent, c, f);
    if f.preserve {
      assert VhostAttested(after, c, f, env.id, env.hasEnabled);
      assert Lookup(after, q) == Lookup(before, q);
    }
  }

  lemma LinksToTarget(env: Env, fs: Fs, intent: Intent, c: Compilation, l: LinkTarget)
    requires ValidIntent(intent) && IsCompiled(env, fs, intent, Some(c)) && l in c.links
    ensures l.target in TargetPaths(c.files)
  {
    CompiledElements(env, fs, intent, c);
    BaseHasShape(env, fs, intent);
    var base := Base(env, fs, intent).value;
    assert IsLinkOf(env, fs, intent, base.files, l);
    if r :| r in intent.routes && IsRouteLink(env, fs, intent.staged, r, l) {
      var v := VhostTarget(env, r, Adopted(env, fs, intent.staged, r).value);
      assert RouteDone(env, fs, intent.staged, r, base.files) && IsRouteTarget(env, fs, intent.staged, r, v);
      assert v in c.files;
    } else {
      var d :| d in intent.deletions && IsDeletionLink(env, base.files, d, l);
      assert Removal(VhostPath(env, d.host), Vhost) in c.files;
    }
  }

  lemma AtLink(env: Env, before: Fs, after: Fs, intent: Intent, c: Compilation, l: LinkTarget, n: nat)
    requires Landed(env, before, after, intent, c) && l in c.links
    ensures Landing(before, l.path, n, TargetPaths(c.files)) == None == Landing(after, l.path, n, TargetPaths(c.files))
    ensures OnlyLink(before, l) && OnlyLink(after, l)
  {
    CompiledIsWell(env, before, intent, c);
    AppliedLink(before, after, c, env.id, env.workerGroup, env.hasEnabled, l);
    LinksToTarget(env, before, intent, c, l);
    if n > 0 {
      AtTarget(env, before, after, intent, c, l.target, n - 1);
    }
  }

  lemma SameElsewhere(env: Env, before: Fs, after: Fs, intent: Intent, c: Compilation, q: Path)
    requires Landed(env, before, after, intent, c)
    requires q !in TargetPaths(c.files) && forall l | l in c.links :: l.path != q
    ensures Lookup(after, q) == Lookup(before, q)
  {
    forall f | f in c.files ensures f.path != q { assert f.path in TargetPaths(c.files); }
    AppliedElsewhere(before, after, c, env.id, q);
  }

  lemma {:induction false} SameLanding(env: Env, before: Fs, after: Fs, intent: Intent, c: Compilation, q: Path, n: nat)
    requires Landed(env, before, after, intent, c)
    ensures Landing(after, q, n, TargetPaths(c.files)) == Landing(before, q, n, TargetPaths(c.files))
    decreases n
  {
    if q in TargetPaths(c.files) {
      AtTarget(env, before, after, intent, c, q, n);
    } else if l :| l in c.links && l.path == q {
      AtLink(env, before, after, intent, c, l, n);
    } else {
      SameElsewhere(env, before, after, intent, c, q);
      if q in before.nodes && before.nodes[q].Symlink? && n > 0 {
        SameLanding(env, before, after, intent, c, before.nodes[q].target, n - 1);
      }
      LandingOn(before, after, q, n, TargetPaths(c.files));
    }
  }

  lemma LandingOn(before: Fs, after: Fs, q: Path, n: nat, targets: set<Path>)
    requires Lookup(after, q) == Lookup(before, q)
    requires q in before.nodes && before.nodes[q].Symlink? && n > 0 ==>
               Landing(after, before.nodes[q].target, n - 1, targets) == Landing(before, before.nodes[q].target, n - 1, targets)
    ensures Landing(after, q, n, targets) == Landing(before, q, n, targets)
  {
  }

  /** A regular file that is no target is the same file before and after. */
  lemma SameRegular(env: Env, before: Fs, after: Fs, intent: Intent, c: Compilation, p: Path)
    requires Landed(env, before, after, intent, c) && p !in TargetPaths(c.files)
    ensures IsRegular(after, p) || IsRegular(before, p) ==> Lookup(after, p) == Lookup(before, p)
    ensures IsRegular(after, p) == IsRegular(before, p)
  {
    if l :| l in c.links && l.path == p {
      AtLink(env, before, after, intent, c, l, 0);
    } else {
      SameElsewhere(env, before, after, intent, c, p);
    }
  }

  lemma SameLeads(env: Env, before: Fs, after: Fs, intent: Intent, c: Compilation, link: Path, p: Path)
    requires Landed(env, before, after, intent, c)
    ensures LeadsTo(env, after, TargetPaths(c.files), link, p) == LeadsTo(env, before, TargetPaths(c.files), link, p)
  {
    var targets := TargetPaths(c.files);
    SameLanding(env, before, after, intent, c, link, MAX_LINKS);
    if p !in targets { SameRegular(env, before, after, intent, c, p); }
    if link !in targets {
      if l :| l in c.links && l.path == link {
        AtLink(env, before, after, intent, c, l, MAX_LINKS);
      } else {
        SameElsewhere(env, before, after, intent, c, link);
      }
    }
    LeadsMeansLanding(env, before, targets, link, p);
    LeadsMeansLanding(env, after, targets, link, p);
  }

  predicate IsFollowed(env: Env, fs: Fs, targets: set<Path>, link: Path) {
    link in fs.nodes && fs.nodes[link].Symlink? && InConfigDir(env, link) && link !in targets
  }

  lemma LeadsMeansLanding(env: Env, fs: Fs, targets: set<Path>, link: Path, p: Path)
    ensures LeadsTo(env, fs, targets, link, p) <==>
              IsFollowed(env, fs, targets, link) && Landing(fs, link, MAX_LINKS, targets) == Some(p) && fs.nodes[p].uid != env.agentUid
  {
  }

  lemma SameSource(env: Env, before: Fs, after: Fs, intent: Intent, c: Compilation, p: Path)
    requires Landed(env, before, after, intent, c)
    ensures IsSource(env, after, TargetPaths(c.files), p) == IsSource(env, before, TargetPaths(c.files), p)
    ensures IsSource(env, before, TargetPaths(c.files), p) ==> Lookup(after, p) == Lookup(before, p)
  {
    var targets := TargetPaths(c.files);
    if p !in targets {
      SameRegular(env, before, after, intent, c, p);
      forall link ensures LeadsTo(env, after, targets, link, p) == LeadsTo(env, before, targets, link, p) {
        SameLeads(env, before, after, intent, c, link, p);
      }
    }
  }

  /** Targets that were deleted make no difference to what is scanned. */
  lemma FewerTargets(env: Env, fs: Fs, few: set<Path>, all: set<Path>, p: Path)
    requires few <= all && forall q | q in all && q !in few :: q !in fs.nodes
    ensures IsSource(env, fs, few, p) == IsSource(env, fs, all, p)
  {
    forall link ensures LeadsTo(env, fs, few, link, p) == LeadsTo(env, fs, all, link, p) {}
  }

  /** A second compilation scans what the first would have scanned without its own targets. */
  lemma SameConfig(env: Env, before: Fs, after: Fs, intent: Intent, c: Compilation)
    requires Landed(env, before, after, intent, c)
    ensures Base(env, after, intent).Some?
    ensures Surviving(env, after, Base(env, after, intent).value.files) == Surviving(env, before, c.files)
  {
    SecondBase(env, before, after, intent, c);
    LandedBase(env, before, after, intent, c);
    var again := Base(env, after, intent).value.files;
    var few, all := TargetPaths(again), TargetPaths(c.files);
    forall q | q in all && q !in few ensures q !in after.nodes {
      var f :| f in c.files && f.path == q;
      LandedFile(env, before, after, intent, c, f);
    }
    forall q | q in few ensures q in all { var f :| f in again && f.path == q; }
    forall p ensures IsSource(env, after, few, p) == IsSource(env, before, all, p) {
      FewerTargets(env, after, few, all, p);
      SameSource(env, before, after, intent, c, p);
    }
    forall p | IsSource(env, before, all, p) ensures Lookup(after, p) == Lookup(before, p) {
      SameSource(env, before, after, intent, c, p);
    }
    assert forall f :: f in again && !f.delete <==> f in c.files && !f.delete;
    SameCollection(env, before, after, c.files, again, few, all);
  }

  lemma SameCollection(env: Env, before: Fs, after: Fs, files: seq<FileTarget>, again: seq<FileTarget>, few: set<Path>, all: set<Path>)
    requires forall f :: f in again && !f.delete <==> f in files && !f.delete
    requires few == TargetPaths(again) && all == TargetPaths(files)
    requires forall p :: IsSource(env, after, few, p) == IsSource(env, before, all, p)
    requires forall p | IsSource(env, before, all, p) :: Lookup(after, p) == Lookup(before, p)
    ensures Surviving(env, after, again) == Surviving(env, before, files)
  {
    var a, b := (set p | p in after.nodes && IsSource(env, after, few, p)), (set p | p in before.nodes && IsSource(env, before, all, p));
    assert a == b;
    assert (set f | f in again && f.kind.Vhost? && !f.delete :: f.content) == (set f | f in files && f.kind.Vhost? && !f.delete :: f.content);
    SameTexts(before, after, a);
  }

  lemma SameTexts(before: Fs, after: Fs, paths: set<Path>)
    requires forall p | p in paths :: p in before.nodes && Lookup(after, p) == Lookup(before, p)
    ensures Collect(after, [], paths) == Collect(before, [], paths)
    ensures forall files :: Collect(after, files, paths).unscanned == Collect(before, files, paths).unscanned
  {
    assert forall p | p in paths :: p in after.nodes && after.nodes[p] == before.nodes[p];
  }

  // ----- what pruning kept stays kept -----

  /** Every file pruning could have taken and did not is mentioned by configuration that is itself no
      target of the compilation, or by a vhost of it. */
  predicate PruneGrounded(env: Env, fs: Fs, intent: Intent, c: Compilation) {
    intent.prune ==>
      forall p | p in fs.nodes && IsCandidate(env, intent, c.files, p) && p !in TargetPaths(c.files) ::
        Mentioned(env, Surviving(env, fs, c.files), p)
  }

  /** Nothing the intent writes is ever a candidate. */
  lemma WrittenIsNoCandidate(env: Env, fs: Fs, intent: Intent, base: Compilation, f: FileTarget, files: seq<FileTarget>)
    requires ValidIntent(intent) && BaseShape(env, fs, intent, base) && f in base.files && !f.delete
    ensures !IsCandidate(env, intent, files, f.path)
  {
    assert IsTargetOf(env, fs, intent, f);
    if f in StagedFiles(env, intent.staged) {
      StagedShape(env, intent.staged, f);
      var s :| s in intent.staged && (f == CertTarget(env, s) || f == KeyTarget(env, s));
      NameEnds(env, s.host);
      AuthNamesEnd(env, f.path.name);
      StagedBase(env, s.host);
      assert s.host in intent.keep;
    } else {
      var r :| r in intent.routes && IsRouteTarget(env, fs, intent.staged, r, f);
      if f.kind.AuthFile? { AuthHostOf(env, r.host); }
    }
  }

  /** The certificate a staged file belongs to is the host it was staged for. */
  lemma StagedBase(env: Env, host: string)
    ensures var b := CertificateBase(env, SafeName(env, host) + ".crt"); b.None? || b.value == SafeName(env, host)
    ensures var b := CertificateBase(env, SafeName(env, host) + ".key.plain"); b.None? || b.value == SafeName(env, host)
  {
    var n, crt, key := SafeName(env, host), SafeName(env, host) + ".crt", SafeName(env, host) + ".key.plain";
    OtherSuffix(env, crt, ".key.plain", 't');
    OtherSuffix(env, crt, ".key.enc", 't');
    OtherSuffix(env, crt, ".key", 't');
    OtherSuffix(env, key, ".key.enc", 'n');
    OtherSuffix(env, key, ".crt", 'n');
    OtherSuffix(env, key, ".key", 'n');
    assert crt[..|crt| - 4] == n && key[..|key| - 10] == n;
  }

  lemma OtherSuffix(env: Env, name: string, suffix: string, last: char)
    requires name != "" && suffix != "" && name[|name| - 1] == last != suffix[|suffix| - 1]
    ensures TrimmedBase(env, name, suffix).None?
  {
    if |name| > |suffix| {
      assert name[|name| - |suffix|..][|suffix| - 1] == last;
    }
  }

  lemma AuthHostOf(env: Env, host: string)
    ensures SafeName(env, host) != "" ==> AuthHost(AuthName(env, host)) == SafeName(env, host)
    ensures SafeName(env, host) == "" ==> !IsAuthName(AuthName(env, host), env.id)
  {
  }

  /** The second compilation prunes nothing exactly when all that was kept is grounded. */
  lemma PrunesNothingIff(env: Env, before: Fs, after: Fs, intent: Intent, c: Compilation)
    requires Landed(env, before, after, intent, c)
    ensures Base(env, after, intent).Some?
    ensures PruneSet(env, after, intent, Base(env, after, intent).value.files) == {} <==> PruneGrounded(env, before, intent, c)
  {
    SameConfig(env, before, after, intent, c);
    var left, config := PruneSet(env, after, intent, Base(env, after, intent).value.files), Surviving(env, before, c.files);
    if intent.prune && left == {} {
      forall p | CandidateKept(env, before, intent, c, p) ensures Mentioned(env, config, p) {
        SameCandidates(env, before, after, intent, c, p);
        assert p !in left;
      }
    } else if intent.prune {
      var p :| p in left;
      SameCandidates(env, before, after, intent, c, p);
      assert CandidateKept(env, before, intent, c, p) && !Mentioned(env, config, p);
    }
  }

  predicate CandidateLeft(env: Env, fs: Fs, intent: Intent, p: Path)
    requires Base(env, fs, intent).Some?
  {
    p in fs.nodes && IsCandidate(env, intent, Base(env, fs, intent).value.files, p)
  }

  predicate CandidateKept(env: Env, fs: Fs, intent: Intent, c: Compilation, p: Path) {
    p in fs.nodes && IsCandidate(env, intent, c.files, p) && p !in TargetPaths(c.files)
  }

  lemma SameCandidates(env: Env, before: Fs, after: Fs, intent: Intent, c: Compilation, p: Path)
    requires Landed(env, before, after, intent, c) && Base(env, after, intent).Some?
    ensures CandidateLeft(env, after, intent, p) <==> CandidateKept(env, before, intent, c, p)
  {
    LandedBase(env, before, after, intent, c);
    SecondBase(env, before, after, intent, c);
    var base, again := Base(env, before, intent).value, Base(env, after, intent).value;
    if p in TargetPaths(c.files) {
      var f :| f in c.files && f.path == p;
      LandedFile(env, before, after, intent, c, f);
      if !f.delete { WrittenIsNoCandidate(env, before, intent, base, f, again.files); }
    } else if IsCandidate(env, intent, [], p) {
      LandedElsewhere(env, before, after, intent, c, p);
      assert forall f | f in c.files :: f.path in TargetPaths(c.files);
    }
  }

  // ----- the second apply -----

  lemma ElementsAgain(env: Env, before: Fs, after: Fs, intent: Intent, c: Compilation, d: Compilation)
    requires Landed(env, before, after, intent, c) && PruneGrounded(env, before, intent, c)
    requires IsCompiled(env, after, intent, Some(d))
    ensures (forall f | f in d.files :: f in c.files) && (forall f | f in c.files && !f.delete :: f in d.files)
    ensures forall l :: l in d.links <==> l in c.links
  {
    PrunesNothingIff(env, before, after, intent, c);
    SecondBase(env, before, after, intent, c);
    LandedBase(env, before, after, intent, c);
    CompiledElements(env, before, intent, c);
    CompiledElements(env, after, intent, d);
  }

  lemma SettledAgain(env: Env, before: Fs, after: Fs, intent: Intent, c: Compilation, d: Compilation)
    requires Landed(env, before, after, intent, c) && PruneGrounded(env, before, intent, c)
    requires IsCompiled(env, after, intent, Some(d))
    ensures Settled(after, d, env.id) && Attested(after, d, env.id, env.hasEnabled)
  {
    ElementsAgain(env, before, after, intent, c, d);
    forall s | s in AllSteps(d, env.id) ensures Decide(after, s, env.id).Keep? {
      StepsOf(d, env.id, s);
      StepsOf(c, env.id, s);
    }
    forall f | f in d.files && !f.delete && f.kind.Vhost? ensures VhostAttested(after, d, f, env.id, env.hasEnabled) {
      assert VhostAttested(after, c, f, env.id, env.hasEnabled);
    }
  }

  /** A pruned file is on disk, so its deletion is still to be done. */
  lemma PrunedIsPending(env: Env, fs: Fs, intent: Intent, d: Compilation)
    requires IsCompiled(env, fs, intent, Some(d)) && PruneSet(env, fs, intent, Base(env, fs, intent).value.files) != {}
    ensures !Settled(fs, d, env.id)
  {
    CompiledElements(env, fs, intent, d);
    var p :| p in PruneSet(env, fs, intent, Base(env, fs, intent).value.files);
    StepsOf(d, env.id, RemoveFile(PruneTarget(p)));
  }

  /** Applied once with success, and nobody else writing: compiling the intent again succeeds and finds
      every target in place exactly when what pruning kept is grounded. */
  lemma FixpointIff(env: Env, fs: Fs, intent: Intent, c: Compilation, host: Host, again: Option<Compilation>)
    requires ValidIntent(intent) && IsCompiled(env, fs, intent, Some(c))
    requires !Executed(fs, c, env.id, host, env.hasEnabled).failed
    requires IsCompiled(env, Executed(fs, c, env.id, host, env.hasEnabled).fs, intent, again)
    ensures PruneGrounded(env, fs, intent, c) <==>
              again.Some? && Settled(Executed(fs, c, env.id, host, env.hasEnabled).fs, again.value, env.id)
  {
    var after := Executed(fs, c, env.id, host, env.hasEnabled).fs;
    HasLanded(env, fs, intent, c, host);
    PrunesNothingIff(env, fs, after, intent, c);
    if PruneGrounded(env, fs, intent, c) {
      SecondBase(env, fs, after, intent, c);
      SettledAgain(env, fs, after, intent, c, again.value);
    } else if again.Some? {
      PrunedIsPending(env, after, intent, again.value);
    }
  }

  lemma HasLanded(env: Env, fs: Fs, intent: Intent, c: Compilation, host: Host)
    requires ValidIntent(intent) && IsCompiled(env, fs, intent, Some(c))
    requires !Executed(fs, c, env.id, host, env.hasEnabled).failed
    ensures Landed(env, fs, Executed(fs, c, env.id, host, env.hasEnabled).fs, intent, c)
  {
    CompiledIsWell(env, fs, intent, c);
    ExecutedApplies(fs, c, env.id, host, env.hasEnabled, env.workerGroup);
  }

  /** At such a fixpoint the check answers yes and executing writes nothing, unless the proxy rejects
      the configuration and no deletion is left to be confirmed. */
  lemma SecondApplyChangesNothing(env: Env, fs: Fs, intent: Intent, c: Compilation, host: Host, again: Option<Compilation>)
    requires ValidIntent(intent) && IsCompiled(env, fs, intent, Some(c)) && PruneGrounded(env, fs, intent, c)
    requires !Executed(fs, c, env.id, host, env.hasEnabled).failed
    requires IsCompiled(env, Executed(fs, c, env.id, host, env.hasEnabled).fs, intent, again)
    ensures again.Some?
    ensures var after := Executed(fs, c, env.id, host, env.hasEnabled).fs;
            var second := Executed(after, again.value, env.id, host, env.hasEnabled);
            && second.fs == after && !second.mutated
            && (IsConverged(after, again.value, env.id, host, env.hasEnabled) <==> !second.failed)
            && (second.failed <==> !HasDeletions(again.value) && !host.validate(after))
  {
    FixpointIff(env, fs, intent, c, host, again);
    var after := Executed(fs, c, env.id, host, env.hasEnabled).fs;
    HasLanded(env, fs, intent, c, host);
    SettledAgain(env, fs, after, intent, c, again.value);
    var main, auth := MainSteps(again.value, env.id), AuthSteps(again.value, env.id);
    assert forall s :: s in AllSteps(again.value, env.id) <==> s in main || s in auth;
    SettledRun(after, main, env.id);
    SettledRun(after, auth, env.id);
    ConvergedIffExecuteKeeps(after, again.value, env.id, host, env.hasEnabled);
  }

  // ----- what pruning never removes -----

  lemma PrunedIsUnmentioned(env: Env, fs: Fs, intent: Intent, files: seq<FileTarget>, p: Path, content: string)
    requires p in PruneSet(env, fs, intent, files) && content in Surviving(env, fs, files).contents
    ensures p.Managed? && !Contains(content, "/" + p.name)
    ensures !IsAuthName(p.name, env.id) ==>
              forall suffix | suffix in SUFFIXES :: !Contains(content, "/" + CertificateBase(env, p.name).value + suffix)
  {
    var config := Surviving(env, fs, files);
    if IsAuthName(p.name, env.id) {
      assert !References(config, p.name);
    } else {
      var base := CertificateBase(env, p.name).value;
      forall suffix | suffix in SUFFIXES ensures !Contains(content, "/" + base + suffix) {
        assert !References(config, base + suffix);
        assert "/" + base + suffix == "/" + (base + suffix);
      }
      OwnSuffix(env, p.name);
      var own :| own in SUFFIXES && p.name == base + own;
      assert !References(config, base + own);
    }
  }

  lemma OwnSuffix(env: Env, name: string)
    requires CertificateBase(env, name).Some?
    ensures exists suffix | suffix in SUFFIXES :: name == CertificateBase(env, name).value + suffix
  {
    var base := CertificateBase(env, name).value;
    forall suffix | suffix in SUFFIXES && TrimmedBase(env, name, suffix) == Some(base) ensures name == base + suffix {}
    assert ".key.plain" == SUFFIXES[2] && ".key.enc" == SUFFIXES[3] && ".crt" == SUFFIXES[0] && ".key" == SUFFIXES[1];
  }

  /** With a surviving file too large to read, nothing is pruned. */
  lemma UnscannedPrunesNothing(env: Env, fs: Fs, intent: Intent, files: seq<FileTarget>)
    requires Surviving(env, fs, files).unscanned != {}
    ensures PruneSet(env, fs, intent, files) == {}
  {
    var config := Surviving(env, fs, files);
    forall p | IsCandidate(env, intent, files, p) ensures Mentioned(env, config, p) {
      if !IsAuthName(p.name, env.id) {
        assert SUFFIXES[0] in SUFFIXES && References(config, CertificateBase(env, p.name).value + SUFFIXES[0]);
      }
    }
  }

  /** A vhost on disk afterwards has the compiled bytes, or if it was kept possibly their stamped form. */
  lemma LiveText(env: Env, before: Fs, after: Fs, intent: Intent, c: Compilation, f: FileTarget)
    requires Landed(env, before, after, intent, c) && f in c.files && f.kind.Vhost? && !f.delete
    ensures IsRegularWith(after, f.path, f.content) || (f.preserve && IsRegularWith(after, f.path, Stamped(f.content)))
  {
    LandedFile(env, before, after, intent, c, f);
    assert VhostAttested(after, c, f, env.id, env.hasEnabled);
  }

  /** A vhost is kept as it is on disk in its stamped form, and that form mentions the file. */
  predicate StampedMention(fs: Fs, c: Compilation, p: Path, q: Path) {
    p.Managed? && exists f | f in c.files ::
      && f.path == q && f.preserve && IsRegularWith(fs, q, Stamped(f.content)) && Contains(Stamped(f.content), "/" + p.name)
  }

  /** A vhost of the compilation, as it is on disk afterwards, mentions a pruned file only in that case. */
  lemma VhostMention(env: Env, before: Fs, after: Fs, intent: Intent, c: Compilation, base: Compilation, p: Path, f: FileTarget)
    requires Landed(env, before, after, intent, c) && Base(env, before, intent) == Some(base)
    requires p in PruneSet(env, before, intent, base.files)
    requires f in c.files && f.kind.Vhost? && !f.delete
    ensures p.Managed? && IsRegular(after, f.path) && !Contains(f.content, "/" + p.name)
    ensures Contains(after.nodes[f.path].content, "/" + p.name) ==> StampedMention(before, c, p, f.path)
  {
    LiveText(env, before, after, intent, c, f);
    LandedFile(env, before, after, intent, c, f);
    LandedBase(env, before, after, intent, c);
    assert f.content in Surviving(env, before, base.files).contents;
    PrunedIsUnmentioned(env, before, intent, base.files, p, f.content);
  }

  /** A name that is one line is never mentioned by the stamped form alone. */
  lemma OneLineIsNotStamped(env: Env, before: Fs, after: Fs, intent: Intent, c: Compilation, base: Compilation, p: Path, q: Path)
    requires Landed(env, before, after, intent, c) && Base(env, before, intent) == Some(base)
    requires p in PruneSet(env, before, intent, base.files) && p.Managed? && OneLine(p.name)
    ensures !StampedMention(before, c, p, q)
  {
    forall f | f in c.files && f.preserve ensures !Contains(Stamped(f.content), "/" + p.name) {
      KeptVhostUnmentioned(env, before, after, intent, c, base, p, f);
    }
  }

  lemma KeptVhostUnmentioned(env: Env, before: Fs, after: Fs, intent: Intent, c: Compilation, base: Compilation, p: Path, f: FileTarget)
    requires Landed(env, before, after, intent, c) && Base(env, before, intent) == Some(base)
    requires p in PruneSet(env, before, intent, base.files) && p.Managed? && OneLine(p.name)
    requires f in c.files && f.preserve
    ensures !Contains(Stamped(f.content), "/" + p.name)
  {
    LandedFile(env, before, after, intent, c, f);
    VhostMention(env, before, after, intent, c, base, p, f);
    if Contains(Stamped(f.content), "/" + p.name) {
      StampedAddsNoPath(f.content, "/" + p.name);
    }
  }

  lemma SourceAmongFewer(env: Env, fs: Fs, few: set<Path>, all: set<Path>, q: Path)
    requires few <= all && IsSource(env, fs, all, q)
    ensures IsSource(env, fs, few, q)
  {
    if !InConfigDir(env, q) {
      var link :| link in fs.nodes && LeadsTo(env, fs, all, link, q);
      assert LeadsTo(env, fs, few, link, q);
    }
  }

  lemma SourceLeavesNoMention(env: Env, before: Fs, after: Fs, intent: Intent, c: Compilation, base: Compilation, p: Path, q: Path)
    requires Landed(env, before, after, intent, c) && Base(env, before, intent) == Some(base)
    requires p in PruneSet(env, before, intent, base.files)
    requires IsSource(env, after, TargetPaths(c.files), q)
    ensures p.Managed? && !Contains(after.nodes[q].content, "/" + p.name)
  {
    LandedBase(env, before, after, intent, c);
    SameSource(env, before, after, intent, c, q);
    forall t | t in TargetPaths(base.files) ensures t in TargetPaths(c.files) { var f :| f in base.files && f.path == t; }
    SourceAmongFewer(env, before, TargetPaths(base.files), TargetPaths(c.files), q);
    var config := Surviving(env, before, base.files);
    if |before.nodes[q].content| > MAX_CONFIG_FILE_BYTES {
      assert q in config.unscanned;
      UnscannedPrunesNothing(env, before, intent, base.files);
    } else {
      assert before.nodes[q].content in config.contents;
      PrunedIsUnmentioned(env, before, intent, base.files, p, before.nodes[q].content);
    }
  }

  /** A file of the configuration after an apply: a vhost it wrote or kept, or any other file it scans. */
  predicate IsConfigFile(env: Env, fs: Fs, c: Compilation, q: Path) {
    IsSource(env, fs, TargetPaths(c.files), q) || exists f | f in c.files :: f.path == q && f.kind.Vhost? && !f.delete
  }

  /** After the apply a pruned file is gone. A file of the configuration mentions it exactly if it is a vhost
      that was kept in its stamped form and that form mentions it; a name that is one line never is. */
  lemma PruneLeavesNoMention(env: Env, fs: Fs, intent: Intent, c: Compilation, host: Host, p: Path, q: Path)
    requires ValidIntent(intent) && IsCompiled(env, fs, intent, Some(c)) && Base(env, fs, intent).Some?
    requires !Executed(fs, c, env.id, host, env.hasEnabled).failed
    requires p in PruneSet(env, fs, intent, Base(env, fs, intent).value.files)
    requires IsConfigFile(env, Executed(fs, c, env.id, host, env.hasEnabled).fs, c, q)
    ensures var after := Executed(fs, c, env.id, host, env.hasEnabled).fs;
            && p !in after.nodes && p.Managed? && IsRegular(after, q)
            && (Contains(after.nodes[q].content, "/" + p.name) <==> StampedMention(fs, c, p, q))
            && (OneLine(p.name) ==> !Contains(after.nodes[q].content, "/" + p.name))
  {
    var after, base := Executed(fs, c, env.id, host, env.hasEnabled).fs, Base(env, fs, intent).value;
    HasLanded(env, fs, intent, c, host);
    CompiledElements(env, fs, intent, c);
    LandedFile(env, fs, after, intent, c, PruneTarget(p));
    if IsSource(env, after, TargetPaths(c.files), q) {
      SourceLeavesNoMention(env, fs, after, intent, c, base, p, q);
      assert forall f | f in c.files :: f.path in TargetPaths(c.files);
    } else {
      var f :| f in c.files && f.path == q && f.kind.Vhost? && !f.delete;
      VhostMention(env, fs, after, intent, c, base, p, f);
      forall g | g in c.files && g.path == q && g.preserve ensures Lookup(after, q) == Lookup(fs, q) {
        LandedFile(env, fs, after, intent, c, g);
      }
      if OneLine(p.name) {
        OneLineIsNotStamped(env, fs, after, intent, c, base, p, q);
      }
    }
  }

  // ----- undoing an apply -----

  /** Whatever part of a compilation was executed, restoring what was captured before it brings every
      path back, and succeeds if the targets that existed lie in safe directories. */
  lemma CompiledCanBeUndone(env: Env, fs: Fs, intent: Intent, c: Compilation, n: nat)
    requires ValidIntent(intent) && IsCompiled(env, fs, intent, Some(c)) && n <= |AllSteps(c, env.id)|
    ensures var snapshot, reached := CaptureAll(fs, Targets(c)), RunSteps(fs, AllSteps(c, env.id)[..n], env.id).fs;
            && (RestoreAll(reached, snapshot).ok ==> RestoreAll(reached, snapshot).fs.nodes == Rewound(fs.nodes, Targets(c)))
            && ((forall t | t in Targets(c) && t in fs.nodes :: DirSafe(fs, t)) ==> RestoreAll(reached, snapshot).ok)
  {
    CompiledIsWell(env, fs, intent, c);
    assert Sane(c);
    RollbackUndoesPrefix(fs, c, env.id, n);
  }
}
