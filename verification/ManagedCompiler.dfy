/** The compiler itself, proved to answer what a compilation is specified to be. */
module ManagedCompiler {
  import opened ManagedCompile
  import opened ManagedConfig
  import opened ManagedFs
  import opened Sorting
  import opened Strings

  // ----- sorting -----

  lemma LessWeak(a: string, b: string, c: string)
    ensures Less(a, b) ==> !Less(b, a)
    ensures Less(a, c) ==> Less(a, b) || Less(b, c)
  {
    LessTotal(a, b);
    if Less(a, c) && !Less(a, b) && a != b {
      LessTransitive(b, a, c);
    }
  }

  lemma FileOrder(env: Env)
    ensures WeakOrder((a: FileTarget, b: FileTarget) => FileBefore(env, a, b))
  {
    forall a: FileTarget, b: FileTarget, c: FileTarget
      ensures FileBefore(env, a, b) ==> !FileBefore(env, b, a)
      ensures FileBefore(env, a, c) ==> FileBefore(env, a, b) || FileBefore(env, b, c)
    {
      LessWeak(Text(env, a.path), Text(env, b.path), Text(env, c.path));
    }
  }

  lemma LinkOrder(env: Env)
    ensures WeakOrder((a: LinkTarget, b: LinkTarget) => LinkBefore(env, a, b))
  {
    forall a: LinkTarget, b: LinkTarget, c: LinkTarget
      ensures LinkBefore(env, a, b) ==> !LinkBefore(env, b, a)
      ensures LinkBefore(env, a, c) ==> LinkBefore(env, a, b) || LinkBefore(env, b, c)
    {
      LessWeak(Text(env, a.path), Text(env, b.path), Text(env, c.path));
    }
  }

  // ----- the parts -----

  method StageCertificates(env: Env, staged: seq<Staged>) returns (files: seq<FileTarget>)
    ensures files == StagedFiles(env, staged)
  {
    files := [];
    for i := 0 to |staged|
      invariant files == StagedFiles(env, staged[..i])
    {
      assert staged[..i + 1][..i] == staged[..i];
      files := files + [CertTarget(env, staged[i]), KeyTarget(env, staged[i])];
    }
    assert staged[..|staged|] == staged;
  }

  method CompileStale(env: Env, fs: Fs, c: Compilation, text: string, stale: seq<(Path, Kind)>) returns (more: Compilation)
    requires 1 <= |stale| <= 2
    ensures more == var c1 := AddStale(env, fs, c, text, stale[0].0, stale[0].1);
                    if |stale| == 1 then c1 else AddStale(env, fs, c1, text, stale[1].0, stale[1].1)
  {
    more := c;
    for i := 0 to |stale|
      invariant i == 0 ==> more == c
      invariant i == 1 ==> more == AddStale(env, fs, c, text, stale[0].0, stale[0].1)
      invariant i == 2 ==> more == AddStale(env, fs, AddStale(env, fs, c, text, stale[0].0, stale[0].1), text, stale[1].0, stale[1].1)
    {
      var (path, kind) := stale[i];
      if !Contains(text, Text(env, path)) && !HasTarget(more.files, path) && path in fs.nodes {
        more := more.(files := more.files + [Removal(path, kind)]);
      }
    }
  }

  method CompileOneRoute(env: Env, fs: Fs, staged: seq<Staged>, route: Route, c: Compilation) returns (r: Option<Compilation>)
    ensures r == CompileRoute(env, fs, staged, route, c)
  {
    if route.backend != env.kind {
      return None;
    }
    var content := Adopted(env, fs, staged, route);
    if content.None? {
      return None;
    }
    var text, needs := Written(content.value), NeedsAuth(env, route, content.value);
    var more := c.(files := c.files + [VhostTarget(env, route, content.value)]);
    if needs {
      if env.workerGroup.None? {
        return None;
      }
      more := more.(files := more.files + [AuthTarget(env, route, env.workerGroup.value)]);
    }
    var stale := [(LegacyAuthPath(env, route.host), Secret)];
    if !needs {
      stale := stale + [(AuthPath(env, route.host), AuthFile)];
    }
    more := CompileStale(env, fs, more, text, stale);
    if env.hasEnabled {
      more := more.(links := more.links + [LinkTarget(LinkPath(env, route.host), VhostPath(env, route.host), false, content.value.preserve)]);
    }
    return Some(more);
  }

  method CompileAllRoutes(env: Env, fs: Fs, intent: Intent) returns (r: Option<Compilation>)
    ensures r == CompileRoutes(env, fs, intent.staged, intent.routes)
  {
    var files := StageCertificates(env, intent.staged);
    var routes := intent.routes;
    r := Some(Compilation(files, []));
    for i := 0 to |routes|
      invariant r.Some? && r == CompileRoutes(env, fs, intent.staged, routes[..i])
    {
      assert routes[..i + 1][..i] == routes[..i];
      r := CompileOneRoute(env, fs, intent.staged, routes[i], r.value);
      if r.None? {
        RoutesStop(env, fs, intent.staged, routes, i + 1);
        return None;
      }
    }
    assert routes[..|routes|] == routes;
  }

  method CompileOneDeletion(env: Env, fs: Fs, d: Deletion, c: Compilation) returns (r: Option<Compilation>)
    ensures r == CompileDeletion(env, fs, d, c)
  {
    if d.backend != env.kind {
      return None;
    }
    if UnmarkedRegular(fs, VhostPath(env, d.host)) {
      return Some(c);
    }
    var files, links := c.files, c.links;
    files := files + [Removal(VhostPath(env, d.host), Vhost)];
    files := files + [Removal(AuthPath(env, d.host), AuthFile)];
    files := files + [Removal(LegacyAuthPath(env, d.host), Secret)];
    if env.hasEnabled {
      links := links + [LinkTarget(LinkPath(env, d.host), VhostPath(env, d.host), true, false)];
    }
    return Some(Compilation(files, links));
  }

  method CompileTargets(env: Env, fs: Fs, intent: Intent) returns (r: Option<Compilation>)
    ensures r == Base(env, fs, intent)
  {
    r := CompileAllRoutes(env, fs, intent);
    if r.Some? {
      r := CompileAllDeletions(env, fs, intent.deletions, r.value);
    }
  }

  method CompileAllDeletions(env: Env, fs: Fs, deletions: seq<Deletion>, start: Compilation) returns (r: Option<Compilation>)
    ensures r == CompileDeletions(env, fs, deletions, start)
  {
    r := Some(start);
    for i := 0 to |deletions|
      invariant r.Some? && r == CompileDeletions(env, fs, deletions[..i], start)
    {
      assert deletions[..i + 1][..i] == deletions[..i];
      r := CompileOneDeletion(env, fs, deletions[i], r.value);
      if r.None? {
        DeletionsStop(env, fs, deletions, start, i + 1);
        return None;
      }
    }
    assert deletions[..|deletions|] == deletions;
  }

  /** One refused route refuses the intent. */
  lemma {:induction false} RoutesStop(env: Env, fs: Fs, staged: seq<Staged>, routes: seq<Route>, n: nat)
    requires n <= |routes| && CompileRoutes(env, fs, staged, routes[..n]).None?
    ensures CompileRoutes(env, fs, staged, routes).None?
    decreases |routes|
  {
    if n == |routes| {
      assert routes[..n] == routes;
    } else {
      assert routes[..|routes| - 1][..n] == routes[..n];
      RoutesStop(env, fs, staged, routes[..|routes| - 1], n);
    }
  }

  lemma {:induction false} DeletionsStop(env: Env, fs: Fs, deletions: seq<Deletion>, start: Compilation, n: nat)
    requires n <= |deletions| && CompileDeletions(env, fs, deletions[..n], start).None?
    ensures CompileDeletions(env, fs, deletions, start).None?
    decreases |deletions|
  {
    if n == |deletions| {
      assert deletions[..n] == deletions;
    } else {
      assert deletions[..|deletions| - 1][..n] == deletions[..n];
      DeletionsStop(env, fs, deletions[..|deletions| - 1], start, n);
    }
  }

  // ----- pruning -----

  ghost predicate NoRepeats(paths: seq<Path>) {
    forall i, j | 0 <= i < j < |paths| :: paths[i] != paths[j]
  }

  /** The candidates of one directory, certificates apart from auth files. */
  method Candidates(env: Env, fs: Fs, intent: Intent, files: seq<FileTarget>, dir: Dir) returns (certs: seq<Path>, auths: seq<Path>)
    requires dir.Certificates? || dir.Auth?
    ensures forall p :: p in certs <==> dir.Certificates? && p in fs.nodes && IsCertCandidate(env, intent, p)
    ensures forall p :: p in auths <==> p in fs.nodes && p.Managed? && p.dir == dir && IsAuthCandidate(env, intent, files, p)
    ensures NoRepeats(certs) && NoRepeats(auths)
  {
    var entries := ReadDir(fs, dir);
    certs, auths := [], [];
    for i := 0 to |entries|
      invariant forall p :: p in certs <==> dir.Certificates? && p in entries[..i] && IsCertCandidate(env, intent, p)
      invariant forall p :: p in auths <==> p in entries[..i] && IsAuthCandidate(env, intent, files, p)
      invariant NoRepeats(certs) && NoRepeats(auths)
    {
      var p := entries[i];
      assert p in entries && entries[..i + 1] == entries[..i] + [p];
      assert p !in entries[..i];
      if IsAuthName(p.name, env.id) {
        if !(exists r | r in intent.routes :: SafeName(env, r.host) == AuthHost(p.name)) && !HasTarget(files, p) {
          auths := auths + [p];
        }
      } else if dir.Certificates? {
        var base := CertificateBase(env, p.name);
        if base.Some? && !(exists host | host in intent.keep :: SafeName(env, host) == base.value) {
          certs := certs + [p];
        }
      }
    }
    assert entries[..|entries|] == entries;
  }

  /** Appends the candidates that nothing mentions. */
  method AppendUnmentioned(env: Env, files: seq<FileTarget>, candidates: seq<Path>, config: Config)
    returns (more: seq<FileTarget>, ghost pruned: set<Path>)
    requires NoRepeats(candidates) && forall p | p in candidates :: p.Managed?
    ensures pruned == (set p | p in candidates && !Mentioned(env, config, p))
    ensures multiset(more) == multiset(files) + multiset(PruneTargets(pruned))
  {
    more, pruned := files, {};
    for i := 0 to |candidates|
      invariant pruned == set p | p in candidates[..i] && !Mentioned(env, config, p)
      invariant multiset(more) == multiset(files) + multiset(PruneTargets(pruned))
    {
      var p := candidates[i];
      assert p in candidates && candidates[..i + 1] == candidates[..i] + [p];
      assert p !in candidates[..i];
      if !Mentioned(env, config, p) {
        assert PruneTargets(pruned + {p}) == PruneTargets(pruned) + {PruneTarget(p)} && PruneTarget(p) !in PruneTargets(pruned);
        more, pruned := more + [PruneTarget(p)], pruned + {p};
      }
    }
    assert candidates[..|candidates|] == candidates;
  }

  method PruneCertificates(env: Env, fs: Fs, intent: Intent, files: seq<FileTarget>) returns (more: seq<FileTarget>)
    requires intent.prune
    ensures multiset(more) == multiset(files) + multiset(PruneTargets(PruneSet(env, fs, intent, files)))
  {
    var certs, auths := Candidates(env, fs, intent, files, Certificates);
    var none, own := Candidates(env, fs, intent, files, Auth);
    var config := Config({}, {});
    if certs != [] || auths != [] || own != [] {
      config := LoadSurvivingConfig(env, fs, files);
    }
    ghost var a, b, c;
    more, a := AppendUnmentioned(env, files, certs, config);
    more, b := AppendUnmentioned(env, more, auths, config);
    more, c := AppendUnmentioned(env, more, own, config);
    assert a !! b && a + b !! c;
    ThreeParts(a, b, c);
    PruneParts(env, fs, intent, files, config, certs, auths, own, a, b, c);
  }

  lemma ThreeParts(a: set<Path>, b: set<Path>, c: set<Path>)
    requires a !! b && a + b !! c
    ensures multiset(PruneTargets(a)) + multiset(PruneTargets(b)) + multiset(PruneTargets(c)) == multiset(PruneTargets(a + b + c))
  {
    assert PruneTargets(a + b + c) == PruneTargets(a) + PruneTargets(b) + PruneTargets(c);
    assert PruneTargets(a) !! PruneTargets(b) && PruneTargets(a) + PruneTargets(b) !! PruneTargets(c);
  }

  lemma PruneParts(
    env: Env, fs: Fs, intent: Intent, files: seq<FileTarget>, config: Config, certs: seq<Path>, auths: seq<Path>, own: seq<Path>,
    a: set<Path>, b: set<Path>, c: set<Path>)
    requires intent.prune && (certs != [] || auths != [] || own != [] ==> config == Surviving(env, fs, files))
    requires forall p :: p in certs || p in auths || p in own <==> p in fs.nodes && IsCandidate(env, intent, files, p)
    requires forall p | p in certs || p in auths || p in own :: p.Managed?
    requires a == (set p | p in certs && !Mentioned(env, config, p)) && b == (set p | p in auths && !Mentioned(env, config, p))
    requires c == (set p | p in own && !Mentioned(env, config, p))
    ensures a + b + c == PruneSet(env, fs, intent, files)
  {
  }

  // ----- all of it -----

  method HasDuplicates(files: seq<FileTarget>) returns (found: bool)
    ensures found <==> !DistinctFiles(files)
  {
    var targets: set<Path> := {};
    for i := 0 to |files|
      invariant targets == TargetPaths(files[..i])
      invariant DistinctFiles(files[..i])
    {
      assert files[..i + 1] == files[..i] + [files[i]];
      if files[i].path in targets {
        var k :| 0 <= k < i && files[k].path == files[i].path;
        return true;
      }
      targets := targets + {files[i].path};
    }
    assert files[..|files|] == files;
    return false;
  }

  /** Compiles the intent against the filesystem. */
  method Compile(env: Env, fs: Fs, intent: Intent) returns (r: Option<Compilation>)
    ensures IsCompiled(env, fs, intent, r)
  {
    var base := CompileTargets(env, fs, intent);
    if base.None? {
      return None;
    }
    var files := base.value.files;
    if intent.prune {
      files := PruneCertificates(env, fs, intent, files);
    }
    FileOrder(env);
    LinkOrder(env);
    ghost var unsorted := files;
    files := Sort((a, b) => FileBefore(env, a, b), files);
    var links := Sort((a, b) => LinkBefore(env, a, b), base.value.links);
    var repeated := HasDuplicates(files);
    DistinctIff(base.value.files, PruneSet(env, fs, intent, base.value.files), files);
    return if repeated then None else Some(Compilation(files, links));
  }
}
