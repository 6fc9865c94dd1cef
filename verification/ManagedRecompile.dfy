/** Compiling the same intent again where it was just applied. */
module ManagedRecompile {
  import opened ManagedApplied
  import opened ManagedCompile
  import opened ManagedConfig
  import opened ManagedExecute
  import opened ManagedFs
  import opened ManagedRollback
  import opened ManagedShape
  import opened Marker
  import opened Strings

  /** `c` compiled from the intent on `before`, and applying it led to `after`. */
  ghost predicate Landed(env: Env, before: Fs, after: Fs, intent: Intent, c: Compilation) {
    && ValidIntent(intent) && IsCompiled(env, before, intent, Some(c))
    && Applied(before, after, c, env.id) && Attested(after, c, env.id, env.hasEnabled)
  }

  lemma LandedFile(env: Env, before: Fs, after: Fs, intent: Intent, c: Compilation, f: FileTarget)
    requires Landed(env, before, after, intent, c) && f in c.files
    ensures IsTargetFile(f, env.workerGroup)
    ensures f.delete ==> f.path !in after.nodes
    ensures !f.delete && !f.preserve ==> IsRegularWith(after, f.path, f.content)
    ensures f.preserve ==> Lookup(after, f.path) == Lookup(before, f.path)
    ensures !f.preserve ==> InspectFile(before, f.path, f.kind, env.id).Seen?
  {
    CompiledIsWell(env, before, intent, c);
    AppliedFile(before, after, c, env.id, env.workerGroup, f);
  }

  /** Outside the enabled directory only the file targets may have changed. */
  lemma LandedElsewhere(env: Env, before: Fs, after: Fs, intent: Intent, c: Compilation, p: Path)
    requires Landed(env, before, after, intent, c) && p !in TargetPaths(c.files)
    requires !p.Managed? || !p.dir.Enabled?
    ensures Lookup(after, p) == Lookup(before, p)
  {
    CompiledIsWell(env, before, intent, c);
    forall f | f in c.files ensures f.path != p { assert f.path in TargetPaths(c.files); }
    forall l | l in c.links ensures l.path != p { assert IsTargetLink(l); }
    AppliedElsewhere(before, after, c, env.id, p);
  }

  /** The targets of the intent proper, apart from what pruning adds. */
  lemma LandedBase(env: Env, before: Fs, after: Fs, intent: Intent, c: Compilation)
    requires Landed(env, before, after, intent, c)
    ensures Base(env, before, intent).Some?
    ensures var base := Base(env, before, intent).value;
            && BaseShape(env, before, intent, base) && DistinctFiles(base.files)
            && (forall f | f in base.files :: f in c.files)
            && (forall f | f in c.files && f !in base.files :: f.delete && !f.kind.Vhost? && f.path in PruneSet(env, before, intent, base.files))
  {
    CompiledElements(env, before, intent, c);
    BaseHasShape(env, before, intent);
  }

  // ----- routes -----

  lemma AdoptedAgain(env: Env, before: Fs, after: Fs, intent: Intent, c: Compilation, r: Route)
    requires Landed(env, before, after, intent, c)
    requires Adopted(env, before, intent.staged, r).Some?
    requires VhostTarget(env, r, Adopted(env, before, intent.staged, r).value) in c.files
    ensures Adopted(env, after, intent.staged, r) == Adopted(env, before, intent.staged, r)
  {
    var content, path := Adopted(env, before, intent.staged, r).value, VhostPath(env, r.host);
    LandedFile(env, before, after, intent, c, VhostTarget(env, r, content));
    if content.preserve {
      forall text ensures ExactUnmarked(after, path, text, env.id) == ExactUnmarked(before, path, text, env.id) {
        assert Lookup(after, path) == Lookup(before, path);
      }
    } else {
      StampedIsMarked(content.text);
      forall text ensures !ExactUnmarked(after, path, text, env.id) {}
    }
  }

  /** Where a route wants a file gone, no other part of the intent writes one. */
  lemma NothingWrittenAt(env: Env, fs: Fs, intent: Intent, base: Compilation, r: Route, p: Path, f: FileTarget)
    requires BaseShape(env, fs, intent, base) && DistinctFiles(base.files)
    requires r in intent.routes && Adopted(env, fs, intent.staged, r).Some? && IsStalePath(env, r, Adopted(env, fs, intent.staged, r).value, p)
    requires f in base.files && !f.delete
    ensures f.path != p
  {
    assert IsTargetOf(env, fs, intent, f);
    if f in StagedFiles(env, intent.staged) {
      StagedShape(env, intent.staged, f);
      var s :| s in intent.staged && (f == CertTarget(env, s) || f == KeyTarget(env, s));
      NameEnds(env, s.host);
      NameEnds(env, r.host);
    } else {
      var s :| s in intent.routes && IsRouteTarget(env, fs, intent.staged, s, f);
      SameFiles(env, r.host, s.host);
    }
  }

  lemma StaleGone(env: Env, before: Fs, after: Fs, intent: Intent, c: Compilation, r: Route, p: Path)
    requires Landed(env, before, after, intent, c) && r in intent.routes
    requires Adopted(env, before, intent.staged, r).Some? && IsStalePath(env, r, Adopted(env, before, intent.staged, r).value, p)
    ensures p !in after.nodes
  {
    LandedBase(env, before, after, intent, c);
    var base := Base(env, before, intent).value;
    assert RouteDone(env, before, intent.staged, r, base.files);
    if p in TargetPaths(c.files) {
      var f :| f in c.files && f.path == p;
      LandedFile(env, before, after, intent, c, f);
      if !f.delete {
        NothingWrittenAt(env, before, intent, base, r, p, f);
      }
    } else {
      forall f | f in base.files ensures f.path != p { assert f in c.files; }
      LandedElsewhere(env, before, after, intent, c, p);
    }
  }

  /** What a second compilation keeps of the first: all that is written, nothing new. */
  ghost predicate Kept(d: Compilation, c: Compilation) {
    && DistinctFiles(d.files) && d.links == c.links
    && (forall f | f in d.files :: f in c.files)
    && (forall f | f in c.files && !f.delete :: f in d.files)
  }

  lemma KeptMore(d: Compilation, c: Compilation, f: FileTarget)
    requires Kept(d, c) && DistinctFiles(AddFile(c, f).files)
    ensures Kept(AddFile(d, f), AddFile(c, f))
  {
    var files := AddFile(c, f).files;
    forall g | g in d.files ensures g.path != f.path {
      var i :| 0 <= i < |c.files| && c.files[i] == g;
      assert files[i].path != files[|c.files|].path;
    }
  }

  lemma KeptTargets(env: Env, r: Route, content: Content, d: Compilation, c: Compilation)
    requires Kept(d, c) && AddTargets(env, r, content, c).Some? && DistinctFiles(AddTargets(env, r, content, c).value.files)
    ensures AddTargets(env, r, content, d).Some?
    ensures Kept(AddTargets(env, r, content, d).value, AddTargets(env, r, content, c).value)
  {
    var v := VhostTarget(env, r, content);
    DistinctFront(AddFile(c, v).files, AddTargets(env, r, content, c).value.files);
    KeptMore(d, c, v);
    if NeedsAuth(env, r, content) {
      KeptMore(AddFile(d, v), AddFile(c, v), AuthTarget(env, r, env.workerGroup.value));
    }
  }

  lemma NoStale(env: Env, fs: Fs, r: Route, content: Content, d: Compilation)
    requires forall p | IsStalePath(env, r, content, p) :: p !in fs.nodes
    ensures AddAllStale(env, fs, r, content, d) == d
  {
    var legacy, own := LegacyAuthPath(env, r.host), AuthPath(env, r.host);
    assert Contains(Written(content), Text(env, legacy)) || IsStalePath(env, r, content, legacy);
    assert Contains(Written(content), Text(env, own)) || NeedsAuth(env, r, content) || IsStalePath(env, r, content, own);
  }

  lemma SecondRoute(env: Env, before: Fs, after: Fs, staged: seq<Staged>, r: Route, d: Compilation, c: Compilation)
    requires CompileRoute(env, before, staged, r, c).Some? && DistinctFiles(CompileRoute(env, before, staged, r, c).value.files)
    requires Adopted(env, after, staged, r) == Adopted(env, before, staged, r)
    requires forall p | IsStalePath(env, r, Adopted(env, before, staged, r).value, p) :: p !in after.nodes
    requires Kept(d, c)
    ensures CompileRoute(env, after, staged, r, d).Some?
    ensures Kept(CompileRoute(env, after, staged, r, d).value, CompileRoute(env, before, staged, r, c).value)
  {
    var content := Adopted(env, before, staged, r).value;
    var c1 := AddTargets(env, r, content, c).value;
    StaleAdds(env, before, r, content, c1);
    DistinctFront(c1.files, AddAllStale(env, before, r, content, c1).files);
    KeptTargets(env, r, content, d, c);
    NoStale(env, after, r, content, AddTargets(env, r, content, d).value);
  }

  lemma {:induction false} SecondRoutes(
    env: Env, before: Fs, after: Fs, intent: Intent, c: Compilation, routes: seq<Route>)
    requires Landed(env, before, after, intent, c) && routes <= intent.routes
    requires CompileRoutes(env, before, intent.staged, routes).Some?
    requires DistinctFiles(CompileRoutes(env, before, intent.staged, routes).value.files)
    ensures CompileRoutes(env, after, intent.staged, routes).Some?
    ensures Kept(CompileRoutes(env, after, intent.staged, routes).value, CompileRoutes(env, before, intent.staged, routes).value)
    decreases |routes|
  {
    if routes == [] {
      StagedAreKept(env, intent.staged);
    } else {
      var front, r := routes[..|routes| - 1], routes[|routes| - 1];
      assert r in intent.routes;
      var c0, c1 := CompileRoutes(env, before, intent.staged, front).value, CompileRoutes(env, before, intent.staged, routes).value;
      RouteAdds(env, before, intent.staged, r, c0);
      DistinctFront(c0.files, c1.files);
      SecondRoutes(env, before, after, intent, c, front);
      RouteAgain(env, before, after, intent, c, r);
      SecondRoute(env, before, after, intent.staged, r, CompileRoutes(env, after, intent.staged, front).value, c0);
    }
  }

  lemma RouteAgain(env: Env, before: Fs, after: Fs, intent: Intent, c: Compilation, r: Route)
    requires Landed(env, before, after, intent, c) && r in intent.routes
    ensures Adopted(env, before, intent.staged, r).Some?
    ensures Adopted(env, after, intent.staged, r) == Adopted(env, before, intent.staged, r)
    ensures forall p | IsStalePath(env, r, Adopted(env, before, intent.staged, r).value, p) :: p !in after.nodes
  {
    LandedBase(env, before, after, intent, c);
    var base := Base(env, before, intent).value;
    assert RouteDone(env, before, intent.staged, r, base.files);
    var content := Adopted(env, before, intent.staged, r).value;
    assert IsRouteTarget(env, before, intent.staged, r, VhostTarget(env, r, content));
    AdoptedAgain(env, before, after, intent, c, r);
    forall p | IsStalePath(env, r, content, p) ensures p !in after.nodes { StaleGone(env, before, after, intent, c, r, p); }
  }

  lemma {:induction false} StagedAreKept(env: Env, staged: seq<Staged>)
    ensures DistinctFiles(StagedFiles(env, staged)) ==> Kept(Compilation(StagedFiles(env, staged), []), Compilation(StagedFiles(env, staged), []))
  {
  }

  // ----- deletions -----

  lemma UnmarkedAgain(env: Env, before: Fs, after: Fs, intent: Intent, c: Compilation, d: Deletion)
    requires Landed(env, before, after, intent, c) && d in intent.deletions
    ensures UnmarkedRegular(after, VhostPath(env, d.host)) == UnmarkedRegular(before, VhostPath(env, d.host))
  {
    var p := VhostPath(env, d.host);
    LandedBase(env, before, after, intent, c);
    var base := Base(env, before, intent).value;
    assert DeletionDone(env, before, d, base.files);
    if !UnmarkedRegular(before, p) {
      LandedFile(env, before, after, intent, c, Removal(p, Vhost));
    } else if p in TargetPaths(c.files) {
      var f :| f in c.files && f.path == p;
      LandedFile(env, before, after, intent, c, f);
      assert Lookup(after, p) == Lookup(before, p);
    } else {
      LandedElsewhere(env, before, after, intent, c, p);
    }
  }

  lemma SecondDeletion(env: Env, before: Fs, after: Fs, del: Deletion, d: Compilation, c: Compilation)
    requires CompileDeletion(env, before, del, c).Some? && DistinctFiles(CompileDeletion(env, before, del, c).value.files)
    requires UnmarkedRegular(after, VhostPath(env, del.host)) == UnmarkedRegular(before, VhostPath(env, del.host))
    requires Kept(d, c)
    ensures CompileDeletion(env, after, del, d).Some?
    ensures Kept(CompileDeletion(env, after, del, d).value, CompileDeletion(env, before, del, c).value)
  {
    if !UnmarkedRegular(before, VhostPath(env, del.host)) {
      var v, a, l := Removal(VhostPath(env, del.host), Vhost), Removal(AuthPath(env, del.host), AuthFile), Removal(LegacyAuthPath(env, del.host), Secret);
      var c1, d1 := AddFile(c, v), AddFile(d, v);
      var c2, d2 := AddFile(c1, a), AddFile(d1, a);
      var all := CompileDeletion(env, before, del, c).value.files;
      assert all == AddFile(c2, l).files;
      DistinctFront(c2.files, all);
      DistinctFront(c1.files, c2.files);
      KeptMore(d, c, v);
      KeptMore(d1, c1, a);
      KeptMore(d2, c2, l);
    }
  }

  lemma {:induction false} SecondDeletions(
    env: Env, before: Fs, after: Fs, intent: Intent, c: Compilation, deletions: seq<Deletion>, d0: Compilation, c0: Compilation)
    requires Landed(env, before, after, intent, c) && deletions <= intent.deletions && Kept(d0, c0)
    requires CompileDeletions(env, before, deletions, c0).Some?
    requires DistinctFiles(CompileDeletions(env, before, deletions, c0).value.files)
    ensures CompileDeletions(env, after, deletions, d0).Some?
    ensures Kept(CompileDeletions(env, after, deletions, d0).value, CompileDeletions(env, before, deletions, c0).value)
    decreases |deletions|
  {
    if deletions != [] {
      var front, del := deletions[..|deletions| - 1], deletions[|deletions| - 1];
      assert del in intent.deletions;
      var c1, c2 := CompileDeletions(env, before, front, c0).value, CompileDeletions(env, before, deletions, c0).value;
      DeletionAdds(env, before, del, c1);
      DistinctFront(c1.files, c2.files);
      SecondDeletions(env, before, after, intent, c, front, d0, c0);
      UnmarkedAgain(env, before, after, intent, c, del);
      SecondDeletion(env, before, after, del, CompileDeletions(env, after, front, d0).value, c1);
    }
  }

  /** Compiled again, the intent proper asks for what was written and for nothing new. */
  lemma SecondBase(env: Env, before: Fs, after: Fs, intent: Intent, c: Compilation)
    requires Landed(env, before, after, intent, c)
    ensures Base(env, before, intent).Some? && Base(env, after, intent).Some?
    ensures Kept(Base(env, after, intent).value, Base(env, before, intent).value)
  {
    LandedBase(env, before, after, intent, c);
    var c0, base := CompileRoutes(env, before, intent.staged, intent.routes).value, Base(env, before, intent).value;
    DeletionsHaveShape(env, before, intent.deletions, c0);
    DistinctFront(c0.files, base.files);
    SecondRoutes(env, before, after, intent, c, intent.routes);
    SecondDeletions(env, before, after, intent, c, intent.deletions, CompileRoutes(env, after, intent.staged, intent.routes).value, c0);
  }
}
