/** What a compilation can contain, and where each of its targets comes from. */
module ManagedShape {
  import opened ManagedApplied
  import opened ManagedCompile
  import opened ManagedConfig
  import opened ManagedFs
  import opened Marker
  import opened Strings

  // ----- names -----

  lemma SameMiddle(a: string, x: string, y: string, b: string)
    requires a + x + b == a + y + b
    ensures x == y
  {
    assert |x| == |y|;
    assert (a + x + b)[|a|..|a| + |x|] == x && (a + y + b)[|a|..|a| + |y|] == y;
  }

  /** Two hosts that share an auth file share their vhost, and the other way round. */
  lemma SameFiles(env: Env, h: string, k: string)
    ensures AuthName(env, h) == AuthName(env, k) <==> SafeName(env, h) == SafeName(env, k)
    ensures VhostName(env, h) == VhostName(env, k) <==> SafeName(env, h) == SafeName(env, k)
  {
    if AuthName(env, h) == AuthName(env, k) {
      SameMiddle("auth-", SafeName(env, h), SafeName(env, k), ".htpasswd");
    }
    if VhostName(env, h) == VhostName(env, k) {
      SameMiddle(env.prefix, SafeName(env, h), SafeName(env, k), ".conf");
    }
  }

  predicate EndsLikeAuth(name: string) {
    name != "" && name[|name| - 1] == 'd'
  }

  lemma AuthNamesEnd(env: Env, name: string)
    ensures IsAuthName(name, env.id) ==> EndsLikeAuth(name)
    ensures CertificateBase(env, name).Some? ==> !EndsLikeAuth(name)
  {
    if IsAuthName(name, env.id) {
      assert name[|name| - 9..][8] == ".htpasswd"[8];
    }
    forall suffix | suffix in SUFFIXES && TrimmedBase(env, name, suffix).Some? ensures !EndsLikeAuth(name) {
      assert name[|name| - |suffix|..][|suffix| - 1] == suffix[|suffix| - 1];
    }
  }

  lemma NameEnds(env: Env, host: string)
    ensures EndsLikeAuth(AuthName(env, host))
    ensures !EndsLikeAuth(SafeName(env, host) + ".crt") && !EndsLikeAuth(SafeName(env, host) + ".key.plain")
  {
    assert (SafeName(env, host) + ".crt")[|SafeName(env, host)| + 3] == ".crt"[3];
    assert (SafeName(env, host) + ".key.plain")[|SafeName(env, host)| + 9] == ".key.plain"[9];
    assert AuthName(env, host)[|AuthName(env, host)| - 1] == ".htpasswd"[8];
  }

  // ----- staged certificates -----

  lemma {:induction false} StagedShape(env: Env, staged: seq<Staged>, f: FileTarget)
    requires f in StagedFiles(env, staged)
    ensures exists s | s in staged :: f == CertTarget(env, s) || f == KeyTarget(env, s)
  {
    var front, s := staged[..|staged| - 1], staged[|staged| - 1];
    assert staged == front + [s];
    if f in StagedFiles(env, front) {
      StagedShape(env, front, f);
    } else {
      assert s in staged;
    }
  }

  // ----- routes -----

  /** A target a route writes or keeps. */
  predicate IsRouteTarget(env: Env, fs: Fs, staged: seq<Staged>, r: Route, f: FileTarget) {
    && Adopted(env, fs, staged, r).Some?
    && var content := Adopted(env, fs, staged, r).value;
       || f == VhostTarget(env, r, content)
       || (NeedsAuth(env, r, content) && env.workerGroup.Some? && f == AuthTarget(env, r, env.workerGroup.value))
  }

  predicate IsAuthRemoval(env: Env, f: FileTarget) {
    && f == Removal(f.path, f.kind) && f.path.Managed? && EndsLikeAuth(f.path.name)
    && ((f.kind.Secret? && f.path.dir.Certificates?) || (f.kind.AuthFile? && f.path.dir.Auth?))
  }

  /** The paths a route has no more use for. */
  predicate IsStalePath(env: Env, r: Route, content: Content, p: Path) {
    && (p == LegacyAuthPath(env, r.host) || (p == AuthPath(env, r.host) && !NeedsAuth(env, r, content)))
    && !Contains(Written(content), Text(env, p))
  }

  lemma TargetsAdd(env: Env, fs: Fs, staged: seq<Staged>, r: Route, c: Compilation)
    requires Adopted(env, fs, staged, r).Some? && AddTargets(env, r, Adopted(env, fs, staged, r).value, c).Some?
    ensures var content := Adopted(env, fs, staged, r).value;
            var c1 := AddTargets(env, r, content, c).value;
            && c.files <= c1.files && c1.links == c.links
            && |c1.files| > |c.files| && c1.files[|c.files|] == VhostTarget(env, r, content)
            && (forall f :: f in c1.files <==> f in c.files || IsRouteTarget(env, fs, staged, r, f))
  {
  }

  lemma StaleAdds(env: Env, fs: Fs, r: Route, content: Content, c: Compilation)
    ensures var c1 := AddAllStale(env, fs, r, content, c);
            && c.files <= c1.files && c1.links == c.links
            && (forall f | f in c1.files :: f in c.files || IsAuthRemoval(env, f))
            && (forall p | IsStalePath(env, r, content, p) && p in fs.nodes :: HasTarget(c1.files, p))
  {
    var text, legacy, own := Written(content), LegacyAuthPath(env, r.host), AuthPath(env, r.host);
    var c1 := AddStale(env, fs, c, text, legacy, Secret);
    var c2 := AddAllStale(env, fs, r, content, c);
    if legacy in fs.nodes && !Contains(text, Text(env, legacy)) {
      StaleIsTarget(env, fs, c, text, legacy, Secret);
      HasTargetGrows(c1.files, c2.files, legacy);
    }
    if !NeedsAuth(env, r, content) && own in fs.nodes && !Contains(text, Text(env, own)) {
      StaleIsTarget(env, fs, c1, text, own, AuthFile);
    }
  }

  lemma RouteAdds(env: Env, fs: Fs, staged: seq<Staged>, r: Route, c: Compilation)
    requires CompileRoute(env, fs, staged, r, c).Some?
    ensures Adopted(env, fs, staged, r).Some?
    ensures var c1, content := CompileRoute(env, fs, staged, r, c).value, Adopted(env, fs, staged, r).value;
            && c.files <= c1.files && |c1.files| > |c.files| && c1.files[|c.files|] == VhostTarget(env, r, content)
            && (forall f | f in c1.files :: f in c.files || IsRouteTarget(env, fs, staged, r, f) || IsAuthRemoval(env, f))
            && RouteDone(env, fs, staged, r, c1.files)
            && c1.links == AddLink(env, c, r.host, false, content.preserve).links
  {
    var content := Adopted(env, fs, staged, r).value;
    TargetsAdd(env, fs, staged, r, c);
    StaleAdds(env, fs, r, content, AddTargets(env, r, content, c).value);
  }

  lemma StaleIsTarget(env: Env, fs: Fs, c: Compilation, text: string, p: Path, kind: Kind)
    requires p in fs.nodes && !Contains(text, Text(env, p))
    ensures HasTarget(AddStale(env, fs, c, text, p, kind).files, p)
  {
    var more := AddStale(env, fs, c, text, p, kind).files;
    if IsStale(env, fs, c, text, p) {
      assert more[|more| - 1] == Removal(p, kind);
    }
  }

  lemma HasTargetGrows(a: seq<FileTarget>, b: seq<FileTarget>, p: Path)
    requires a <= b && HasTarget(a, p)
    ensures HasTarget(b, p)
  {
    var f :| f in a && f.path == p;
    assert f in b;
  }

  /** Everything the routes contribute, and that no two routes share a vhost. */
  ghost predicate RoutesShape(env: Env, fs: Fs, staged: seq<Staged>, routes: seq<Route>, c: Compilation) {
    && (forall f | f in c.files :: f in StagedFiles(env, staged) || IsAuthRemoval(env, f) || exists r | r in routes :: IsRouteTarget(env, fs, staged, r, f))
    && (forall f | f in StagedFiles(env, staged) :: f in c.files)
    && (forall r | r in routes :: RouteDone(env, fs, staged, r, c.files))
    && (forall l | l in c.links :: exists r | r in routes :: IsRouteLink(env, fs, staged, r, l))
    && (DistinctFiles(c.files) ==> forall r, s | r in routes && s in routes && SafeName(env, r.host) == SafeName(env, s.host) :: r == s)
  }

  ghost predicate RouteDone(env: Env, fs: Fs, staged: seq<Staged>, r: Route, files: seq<FileTarget>) {
    && r.backend == env.kind && Adopted(env, fs, staged, r).Some?
    && (forall f | IsRouteTarget(env, fs, staged, r, f) :: f in files)
    && (forall p | IsStalePath(env, r, Adopted(env, fs, staged, r).value, p) && p in fs.nodes :: HasTarget(files, p))
  }

  predicate IsRouteLink(env: Env, fs: Fs, staged: seq<Staged>, r: Route, l: LinkTarget) {
    && env.hasEnabled && Adopted(env, fs, staged, r).Some?
    && l == LinkTarget(LinkPath(env, r.host), VhostPath(env, r.host), false, Adopted(env, fs, staged, r).value.preserve)
  }

  lemma DoneGrows(env: Env, fs: Fs, staged: seq<Staged>, r: Route, a: seq<FileTarget>, b: seq<FileTarget>)
    requires a <= b && RouteDone(env, fs, staged, r, a)
    ensures RouteDone(env, fs, staged, r, b)
  {
    var content := Adopted(env, fs, staged, r).value;
    forall p | IsStalePath(env, r, content, p) && p in fs.nodes ensures HasTarget(b, p) { HasTargetGrows(a, b, p); }
  }

  lemma DistinctFront(a: seq<FileTarget>, b: seq<FileTarget>)
    requires a <= b && DistinctFiles(b)
    ensures DistinctFiles(a)
  {
  }

  /** With one path per target, a route's vhost was no target before the route. */
  lemma VhostIsNew(env: Env, fs: Fs, staged: seq<Staged>, r: Route, c: Compilation)
    requires CompileRoute(env, fs, staged, r, c).Some? && DistinctFiles(CompileRoute(env, fs, staged, r, c).value.files)
    ensures !HasTarget(c.files, VhostPath(env, r.host))
  {
    RouteAdds(env, fs, staged, r, c);
    var files := CompileRoute(env, fs, staged, r, c).value.files;
    assert files[|c.files|].path == VhostPath(env, r.host);
    forall f | f in c.files ensures f.path != VhostPath(env, r.host) {
      var i :| 0 <= i < |c.files| && c.files[i] == f;
      assert files[i] == f && files[i].path != files[|c.files|].path;
    }
  }

  lemma {:induction false} RoutesHaveShape(env: Env, fs: Fs, staged: seq<Staged>, routes: seq<Route>)
    requires CompileRoutes(env, fs, staged, routes).Some?
    ensures RoutesShape(env, fs, staged, routes, CompileRoutes(env, fs, staged, routes).value)
  {
    if routes == [] {
      NoRoutesShape(env, fs, staged);
    } else {
      var front := routes[..|routes| - 1];
      RoutesHaveShape(env, fs, staged, front);
      NextShape(env, fs, staged, routes, CompileRoutes(env, fs, staged, front).value, CompileRoutes(env, fs, staged, routes).value);
    }
  }

  lemma NoRoutesShape(env: Env, fs: Fs, staged: seq<Staged>)
    ensures RoutesShape(env, fs, staged, [], Compilation(StagedFiles(env, staged), []))
  {
  }

  lemma NextShape(env: Env, fs: Fs, staged: seq<Staged>, routes: seq<Route>, c0: Compilation, c1: Compilation)
    requires routes != [] && RoutesShape(env, fs, staged, routes[..|routes| - 1], c0)
    requires CompileRoute(env, fs, staged, routes[|routes| - 1], c0) == Some(c1)
    ensures RoutesShape(env, fs, staged, routes, c1)
  {
    var front, last := routes[..|routes| - 1], routes[|routes| - 1];
    RouteAdds(env, fs, staged, last, c0);
    assert forall r :: r in routes <==> r in front || r == last;
    forall r | r in routes ensures RouteDone(env, fs, staged, r, c1.files) {
      if r in front { DoneGrows(env, fs, staged, r, c0.files, c1.files); }
    }
    if DistinctFiles(c1.files) {
      DistinctFront(c0.files, c1.files);
      VhostIsNew(env, fs, staged, last, c0);
      forall r | r in front ensures SafeName(env, r.host) != SafeName(env, last.host) {
        SameFiles(env, r.host, last.host);
        var v := VhostTarget(env, r, Adopted(env, fs, staged, r).value);
        assert IsRouteTarget(env, fs, staged, r, v) && v in c0.files;
      }
    }
    forall f | f in c1.files
      ensures f in StagedFiles(env, staged) || IsAuthRemoval(env, f) || exists r | r in routes :: IsRouteTarget(env, fs, staged, r, f)
    {
      if f in c0.files && f !in StagedFiles(env, staged) && !IsAuthRemoval(env, f) {
        var r :| r in front && IsRouteTarget(env, fs, staged, r, f);
        assert r in routes;
      }
    }
    forall l | l in c1.links ensures exists r | r in routes :: IsRouteLink(env, fs, staged, r, l) {
      if l in c0.links {
        var r :| r in front && IsRouteLink(env, fs, staged, r, l);
        assert r in routes;
      } else {
        assert IsRouteLink(env, fs, staged, last, l);
      }
    }
  }

  // ----- deletions -----

  predicate IsDeletionLink(env: Env, files: seq<FileTarget>, d: Deletion, l: LinkTarget) {
    && env.hasEnabled && l == LinkTarget(LinkPath(env, d.host), VhostPath(env, d.host), true, false)
    && Removal(VhostPath(env, d.host), Vhost) in files
  }

  predicate IsVhostRemoval(env: Env, d: Deletion, f: FileTarget) {
    f == Removal(VhostPath(env, d.host), Vhost)
  }

  ghost predicate DeletionDone(env: Env, fs: Fs, d: Deletion, files: seq<FileTarget>) {
    && d.backend == env.kind
    && (!UnmarkedRegular(fs, VhostPath(env, d.host)) ==>
          && Removal(VhostPath(env, d.host), Vhost) in files
          && Removal(AuthPath(env, d.host), AuthFile) in files
          && Removal(LegacyAuthPath(env, d.host), Secret) in files)
  }

  lemma DeletionAdds(env: Env, fs: Fs, d: Deletion, c: Compilation)
    requires CompileDeletion(env, fs, d, c).Some?
    ensures var c1 := CompileDeletion(env, fs, d, c).value;
            && c.files <= c1.files && DeletionDone(env, fs, d, c1.files)
            && (forall f | f in c1.files :: f in c.files || IsAuthRemoval(env, f) || IsVhostRemoval(env, d, f))
            && (forall l | l in c1.links :: l in c.links || IsDeletionLink(env, c1.files, d, l))
            && c.links <= c1.links
  {
    if !UnmarkedRegular(fs, VhostPath(env, d.host)) {
      var files, c1 := c.files, CompileDeletion(env, fs, d, c).value;
      var v, a, b := Removal(VhostPath(env, d.host), Vhost), Removal(AuthPath(env, d.host), AuthFile), Removal(LegacyAuthPath(env, d.host), Secret);
      assert c1.files == files + [v, a, b];
      assert v in [v, a, b] && a in [v, a, b] && b in [v, a, b];
    }
  }

  /** What deletions contribute on top of `start`. */
  ghost predicate DeletionsShape(env: Env, fs: Fs, deletions: seq<Deletion>, start: Compilation, c: Compilation) {
    && start.files <= c.files && start.links <= c.links
    && (forall d | d in deletions :: DeletionDone(env, fs, d, c.files))
    && (forall f | f in c.files :: f in start.files || IsAuthRemoval(env, f) || exists d | d in deletions :: IsVhostRemoval(env, d, f))
    && (forall l | l in c.links :: l in start.links || exists d | d in deletions :: IsDeletionLink(env, c.files, d, l))
  }

  lemma {:induction false} DeletionsHaveShape(env: Env, fs: Fs, deletions: seq<Deletion>, start: Compilation)
    requires CompileDeletions(env, fs, deletions, start).Some?
    ensures DeletionsShape(env, fs, deletions, start, CompileDeletions(env, fs, deletions, start).value)
  {
    if deletions != [] {
      var front := deletions[..|deletions| - 1];
      DeletionsHaveShape(env, fs, front, start);
      var c0, c1 := CompileDeletions(env, fs, front, start).value, CompileDeletions(env, fs, deletions, start).value;
      NextDeletionShape(env, fs, deletions, start, c0, c1);
    }
  }

  lemma NextDeletionShape(env: Env, fs: Fs, deletions: seq<Deletion>, start: Compilation, c0: Compilation, c1: Compilation)
    requires deletions != [] && DeletionsShape(env, fs, deletions[..|deletions| - 1], start, c0)
    requires CompileDeletion(env, fs, deletions[|deletions| - 1], c0) == Some(c1)
    ensures DeletionsShape(env, fs, deletions, start, c1)
  {
    var front, last := deletions[..|deletions| - 1], deletions[|deletions| - 1];
    DeletionAdds(env, fs, last, c0);
    assert forall d :: d in deletions <==> d in front || d == last;
    forall f | f in c1.files
      ensures f in start.files || IsAuthRemoval(env, f) || exists d | d in deletions :: IsVhostRemoval(env, d, f)
    {
      if f in c0.files && f !in start.files && !IsAuthRemoval(env, f) {
        var d :| d in front && IsVhostRemoval(env, d, f);
        assert d in deletions;
      }
    }
    forall l | l in c1.links ensures l in start.links || exists d | d in deletions :: IsDeletionLink(env, c1.files, d, l) {
      if l in c0.links && l !in start.links {
        var d :| d in front && IsDeletionLink(env, c0.files, d, l);
        assert d in deletions;
      }
    }
  }

  // ----- the whole compilation -----

  /** What the protocol checks of every intent: staged certificates are retained, and nothing is larger
      than a configuration file may be. */
  predicate ValidIntent(intent: Intent) {
    && (forall s | s in intent.staged :: s.host in intent.keep && |s.cert| <= MAX_CONFIG_FILE_BYTES && |s.key| <= MAX_CONFIG_FILE_BYTES)
    && (forall r | r in intent.routes && r.auth.Some? :: |r.auth.value.user| + |r.auth.value.hash| + 2 <= MAX_CONFIG_FILE_BYTES)
  }

  predicate IsTargetOf(env: Env, fs: Fs, intent: Intent, f: FileTarget) {
    || f in StagedFiles(env, intent.staged)
    || IsAuthRemoval(env, f)
    || (exists r | r in intent.routes :: IsRouteTarget(env, fs, intent.staged, r, f))
    || exists d | d in intent.deletions :: IsVhostRemoval(env, d, f)
  }

  predicate IsLinkOf(env: Env, fs: Fs, intent: Intent, files: seq<FileTarget>, l: LinkTarget) {
    || (exists r | r in intent.routes :: IsRouteLink(env, fs, intent.staged, r, l))
    || exists d | d in intent.deletions :: IsDeletionLink(env, files, d, l)
  }

  ghost predicate BaseShape(env: Env, fs: Fs, intent: Intent, base: Compilation) {
    && (forall f | f in base.files :: IsTargetOf(env, fs, intent, f))
    && (forall f | f in StagedFiles(env, intent.staged) :: f in base.files)
    && (forall r | r in intent.routes :: RouteDone(env, fs, intent.staged, r, base.files))
    && (forall d | d in intent.deletions :: DeletionDone(env, fs, d, base.files))
    && (forall l | l in base.links :: IsLinkOf(env, fs, intent, base.files, l))
    && (DistinctFiles(base.files) ==>
          forall r, s | r in intent.routes && s in intent.routes && SafeName(env, r.host) == SafeName(env, s.host) :: r == s)
  }

  lemma BaseHasShape(env: Env, fs: Fs, intent: Intent)
    requires Base(env, fs, intent).Some?
    ensures BaseShape(env, fs, intent, Base(env, fs, intent).value)
  {
    var start, base := CompileRoutes(env, fs, intent.staged, intent.routes).value, Base(env, fs, intent).value;
    RoutesHaveShape(env, fs, intent.staged, intent.routes);
    DeletionsHaveShape(env, fs, intent.deletions, start);
    ShapesJoin(env, fs, intent, start, base);
  }

  lemma ShapesJoin(env: Env, fs: Fs, intent: Intent, start: Compilation, base: Compilation)
    requires RoutesShape(env, fs, intent.staged, intent.routes, start)
    requires DeletionsShape(env, fs, intent.deletions, start, base)
    ensures BaseShape(env, fs, intent, base)
  {
    forall r | r in intent.routes ensures RouteDone(env, fs, intent.staged, r, base.files) {
      DoneGrows(env, fs, intent.staged, r, start.files, base.files);
    }
    forall f | f in base.files ensures IsTargetOf(env, fs, intent, f) {}
    forall l | l in base.links ensures IsLinkOf(env, fs, intent, base.files, l) {}
    if DistinctFiles(base.files) { DistinctFront(start.files, base.files); }
  }

  lemma TargetIsWell(env: Env, fs: Fs, intent: Intent, f: FileTarget)
    requires ValidIntent(intent) && IsTargetOf(env, fs, intent, f)
    ensures IsTargetFile(f, env.workerGroup)
  {
    if f in StagedFiles(env, intent.staged) {
      StagedShape(env, intent.staged, f);
    } else if !IsAuthRemoval(env, f) {
      if r :| r in intent.routes && IsRouteTarget(env, fs, intent.staged, r, f) {
        RouteTargetIsWell(env, fs, intent, r, f);
      }
    }
  }

  lemma RouteTargetIsWell(env: Env, fs: Fs, intent: Intent, r: Route, f: FileTarget)
    requires ValidIntent(intent) && r in intent.routes && IsRouteTarget(env, fs, intent.staged, r, f)
    ensures IsTargetFile(f, env.workerGroup)
  {
    StampedIsMarked(Adopted(env, fs, intent.staged, r).value.text);
  }

  lemma PrunedIsWell(env: Env, fs: Fs, intent: Intent, base: Compilation, f: FileTarget)
    requires f in PruneTargets(PruneSet(env, fs, intent, base.files))
    ensures IsTargetFile(f, env.workerGroup) && f.delete && !f.kind.Vhost?
  {
  }

  lemma SamePathSameTarget(files: seq<FileTarget>, f: FileTarget, g: FileTarget)
    requires DistinctFiles(files) && f in files && g in files
    ensures f.path == g.path ==> f == g
  {
  }

  lemma RoutedIsNotDeleted(env: Env, fs: Fs, intent: Intent, base: Compilation, r: Route, d: Deletion)
    requires BaseShape(env, fs, intent, base) && DistinctFiles(base.files)
    requires r in intent.routes && Removal(VhostPath(env, d.host), Vhost) in base.files
    ensures VhostName(env, r.host) != VhostName(env, d.host)
  {
    assert RouteDone(env, fs, intent.staged, r, base.files);
    var v := VhostTarget(env, r, Adopted(env, fs, intent.staged, r).value);
    assert IsRouteTarget(env, fs, intent.staged, r, v);
    SamePathSameTarget(base.files, v, Removal(VhostPath(env, d.host), Vhost));
  }

  /** Two links at one path are one link: each belongs to a vhost, and no vhost is targeted twice. */
  lemma LinksAreApart(env: Env, fs: Fs, intent: Intent, base: Compilation, l: LinkTarget, m: LinkTarget)
    requires BaseShape(env, fs, intent, base) && DistinctFiles(base.files)
    requires l in base.links && m in base.links && l.path == m.path
    ensures l == m
  {
    assert IsLinkOf(env, fs, intent, base.files, l) && IsLinkOf(env, fs, intent, base.files, m);
    forall r, d | r in intent.routes && d in intent.deletions && Removal(VhostPath(env, d.host), Vhost) in base.files
      ensures LinkPath(env, r.host) != LinkPath(env, d.host)
    {
      RoutedIsNotDeleted(env, fs, intent, base, r, d);
    }
    forall r, s | r in intent.routes && s in intent.routes && LinkPath(env, r.host) == LinkPath(env, s.host) ensures r == s {
      SameFiles(env, r.host, s.host);
    }
  }

  lemma CompiledElements(env: Env, fs: Fs, intent: Intent, c: Compilation)
    requires IsCompiled(env, fs, intent, Some(c))
    ensures Base(env, fs, intent).Some?
    ensures var base := Base(env, fs, intent).value;
            var pruned := PruneTargets(PruneSet(env, fs, intent, base.files));
            && (forall f :: f in c.files <==> f in base.files || f in pruned)
            && (forall l :: l in c.links <==> l in base.links)
            && DistinctFiles(base.files) && DistinctFiles(c.files)
  {
    var base := Base(env, fs, intent).value;
    var pruned := PruneSet(env, fs, intent, base.files);
    DistinctIff(base.files, pruned, c.files);
    assert forall f :: f in c.files <==> f in multiset(c.files);
    assert forall f :: f in base.files <==> f in multiset(base.files);
    assert forall l :: l in c.links <==> l in multiset(c.links);
    assert forall l :: l in base.links <==> l in multiset(base.links);
  }

  /** Every compilation is well targeted; distinct links need no check of their own. */
  lemma CompiledIsWell(env: Env, fs: Fs, intent: Intent, c: Compilation)
    requires ValidIntent(intent) && IsCompiled(env, fs, intent, Some(c))
    ensures WellTargeted(c, env.workerGroup)
  {
    CompiledElements(env, fs, intent, c);
    BaseHasShape(env, fs, intent);
    var base := Base(env, fs, intent).value;
    forall f | f in c.files ensures IsTargetFile(f, env.workerGroup) {
      if f in base.files { TargetIsWell(env, fs, intent, f); } else { PrunedIsWell(env, fs, intent, base, f); }
    }
    forall l | l in c.links ensures IsTargetLink(l) { assert IsLinkOf(env, fs, intent, base.files, l); }
    forall l, m | l in c.links && m in c.links && l.path == m.path ensures l == m { LinksAreApart(env, fs, intent, base, l, m); }
  }
}
