/** Two applies of the kind one would not expect: a second one that still prunes, and one that leaves a mention
    of what it pruned. */
module ManagedExamples {
  import opened ManagedCompile
  import opened ManagedConfig
  import opened ManagedExecute
  import opened ManagedFixpoint
  import opened ManagedFs
  import opened ManagedShape
  import opened Marker
  import opened Strings

  // ----- when the second apply is not idle -----

  function PlainEnv(): Env {
    Env(Identity(0, 0, (host: string) => host), 1000, "nginx", true, "nurproxy-", (dir: Dir) => "/d",
        (r: Route, cert: string, key: string, auth: string) => None,
        (text: string, host: string, cert: string, key: string, auth: string) => false, None)
  }

  const OLD := Managed(Certificates, "old.crt")
  const KEPT := Managed(Certificates, "b.crt")
  const STRAY := Managed(Enabled, "x")

  /** A stray link makes an unneeded certificate file count as configuration that mentions another one. */
  function StrayFs(): Fs {
    Fs(map[OLD := Regular("/b.crt", PERM_0600, 0, 0, 0), KEPT := Regular("", PERM_0600, 0, 0, 0), STRAY := Symlink(OLD, 0, 0)],
       {Certificates}, Missing, true)
  }

  function StrayedFs(): Fs {
    WithoutNode(StrayFs(), OLD)
  }

  const PRUNE_ALL := Intent([], [], [], true, {})

  lemma StrayMentions()
    ensures CertificateBase(PlainEnv(), "old.crt") == Some("old") && CertificateBase(PlainEnv(), "b.crt") == Some("b")
    ensures Mentioned(PlainEnv(), Config({"/b.crt"}, {}), KEPT) && !Mentioned(PlainEnv(), Config({"/b.crt"}, {}), OLD)
    ensures !Mentioned(PlainEnv(), Config({}, {}), KEPT)
  {
    var env, config := PlainEnv(), Config({"/b.crt"}, {});
    assert "old.crt"[..3] == "old" && "old.crt"[3..] == ".crt" && "b.crt"[..1] == "b" && "b.crt"[1..] == ".crt";
    assert "old.crt"[6] == 't' && "b.crt"[4] == 't';
    forall suffix | suffix in [".key.plain", ".key.enc"]
      ensures TrimmedBase(env, "old.crt", suffix).None? && TrimmedBase(env, "b.crt", suffix).None? {}
    assert SUFFIXES[0] in SUFFIXES && "b" + ".crt" == "b.crt" && "/" + "b.crt" == "/b.crt";
    assert At("/b.crt", "/b.crt", 0);
    assert References(config, "b" + SUFFIXES[0]);
    forall suffix | suffix in SUFFIXES ensures !References(config, "old" + suffix) {
      assert |"/" + ("old" + suffix)| > |"/b.crt"|;
    }
  }

  lemma StraySources()
    ensures Surviving(PlainEnv(), StrayFs(), []) == Config({"/b.crt"}, {})
    ensures Surviving(PlainEnv(), StrayFs(), [PruneTarget(OLD)]) == Config({}, {})
  {
    var env, fs := PlainEnv(), StrayFs();
    assert Resolve(fs, OLD, MAX_LINKS - 1) == Some(OLD) && Resolve(fs, STRAY, MAX_LINKS) == Some(OLD);
    assert LeadsTo(env, fs, {}, STRAY, OLD);
    forall p ensures IsSource(env, fs, {}, p) <==> p == OLD {
      if p == KEPT { forall link | link in fs.nodes ensures !LeadsTo(env, fs, {}, link, p) {} }
    }
    assert TargetPaths([]) == {} && TargetPaths([PruneTarget(OLD)]) == {OLD};
    assert (set p | p in fs.nodes && IsSource(env, fs, {}, p)) == {OLD};
    forall p ensures !IsSource(env, fs, {OLD}, p) {
      forall link | link in fs.nodes ensures !LeadsTo(env, fs, {OLD}, link, p) {}
    }
    assert (set p | p in fs.nodes && IsSource(env, fs, {OLD}, p)) == {};
  }

  const STRAY_APPLY := Compilation([PruneTarget(OLD)], [])

  lemma StrayPrunes()
    ensures Base(PlainEnv(), StrayFs(), PRUNE_ALL) == Some(Compilation([], []))
    ensures PruneSet(PlainEnv(), StrayFs(), PRUNE_ALL, []) == {OLD}
  {
    var env := PlainEnv();
    StrayMentions();
    StraySources();
    assert !IsAuthName("old.crt", env.id) && !IsAuthName("b.crt", env.id);
    assert IsCertCandidate(env, PRUNE_ALL, OLD) && OLD in StrayFs().nodes;
  }

  lemma StrayCompiles()
    ensures IsCompiled(PlainEnv(), StrayFs(), PRUNE_ALL, Some(STRAY_APPLY))
  {
    StrayPrunes();
    assert PruneTargets({OLD}) == {PruneTarget(OLD)};
  }

  lemma StrayUngrounded()
    ensures !PruneGrounded(PlainEnv(), StrayFs(), PRUNE_ALL, STRAY_APPLY)
  {
    StrayMentions();
    StraySources();
    assert !IsAuthName("b.crt", PlainEnv().id);
    assert KEPT in StrayFs().nodes && IsCertCandidate(PlainEnv(), PRUNE_ALL, KEPT) && KEPT !in TargetPaths(STRAY_APPLY.files);
  }

  lemma PassOfOne<T>(x: T, pick: T -> Option<Step>)
    ensures Pass([x], pick) == match pick(x) case Some(step) => [step] case None => []
  {
    assert [x][..0] == [];
  }

  lemma StraySteps(id: Identity)
    requires !IsAuthName("old.crt", id)
    ensures MainSteps(STRAY_APPLY, id) == [RemoveFile(PruneTarget(OLD))] && AuthSteps(STRAY_APPLY, id) == []
  {
    var f := PruneTarget(OLD);
    PassOfOne(f, FileRemoval(false, id));
    PassOfOne(f, FileRemoval(true, id));
    PassOfOne(f, FileInstall());
  }

  lemma StrayRun(id: Identity)
    requires id.owner == 0
    ensures RunSteps(StrayFs(), [RemoveFile(PruneTarget(OLD))], id) == Run(StrayedFs(), true, true)
  {
    var step := RemoveFile(PruneTarget(OLD));
    assert [step][..0] == [];
    assert InspectFile(StrayFs(), OLD, Secret, id).Seen?;
    assert Perform(StrayFs(), step, id).Done?;
  }

  lemma StrayExecutes(id: Identity, host: Host)
    requires id.owner == 0 && !IsAuthName("old.crt", id)
    requires forall fs :: host.validate(fs) && host.reload(fs) && host.active(fs)
    ensures !Executed(StrayFs(), STRAY_APPLY, id, host, true).failed
    ensures Executed(StrayFs(), STRAY_APPLY, id, host, true).fs == StrayedFs()
  {
    StraySteps(id);
    StrayRun(id);
    assert STRAY_APPLY.files[0] in STRAY_APPLY.files && HasDeletions(STRAY_APPLY);
  }

  /** Once it is gone nothing counts as configuration any more. */
  lemma StrayedPrunes()
    ensures Base(PlainEnv(), StrayedFs(), PRUNE_ALL) == Some(Compilation([], []))
    ensures PruneSet(PlainEnv(), StrayedFs(), PRUNE_ALL, []) == {KEPT}
  {
    var env, fs := PlainEnv(), StrayedFs();
    assert Resolve(fs, OLD, MAX_LINKS - 1) == None && Resolve(fs, STRAY, MAX_LINKS) == None;
    forall p ensures !IsSource(env, fs, {}, p) {
      forall link | link in fs.nodes ensures !LeadsTo(env, fs, {}, link, p) {}
    }
    assert TargetPaths([]) == {} && (set p | p in fs.nodes && IsSource(env, fs, {}, p)) == {};
    assert Surviving(env, fs, []) == Config({}, {});
    StrayMentions();
    assert !IsAuthName("b.crt", env.id) && IsCertCandidate(env, PRUNE_ALL, KEPT) && KEPT in fs.nodes;
  }

  /** The first apply succeeds and removes the one file, and then the second removes the other. */
  lemma RetentionMayRestOnPrunedFile(host: Host)
    requires forall fs :: host.validate(fs) && host.reload(fs) && host.active(fs)
    ensures ValidIntent(PRUNE_ALL) && IsCompiled(PlainEnv(), StrayFs(), PRUNE_ALL, Some(STRAY_APPLY))
    ensures !Executed(StrayFs(), STRAY_APPLY, PlainEnv().id, host, true).failed
    ensures !PruneGrounded(PlainEnv(), StrayFs(), PRUNE_ALL, STRAY_APPLY)
    ensures var after := Executed(StrayFs(), STRAY_APPLY, PlainEnv().id, host, true).fs;
            && KEPT in after.nodes && Base(PlainEnv(), after, PRUNE_ALL).Some?
            && PruneSet(PlainEnv(), after, PRUNE_ALL, Base(PlainEnv(), after, PRUNE_ALL).value.files) == {KEPT}
  {
    StrayCompiles();
    StrayUngrounded();
    assert "old.crt"[0] != "auth-"[0];
    StrayExecutes(PlainEnv().id, host);
    StrayedPrunes();
  }

  // ----- when a pruned file is still mentioned -----

  function ApacheEnv(): Env {
    PlainEnv().(kind := "apache", hasEnabled := false)
  }

  const SPLIT_CERT := Managed(Certificates, "a\nb.crt")
  const VHOST := Managed(Available, "nurproxy-h.conf")

  /** The vhost is on disk in its stamped form, where a path is whole that the raw text has in two parts. */
  function SplitFs(): Fs {
    Fs(map[SPLIT_CERT := Regular("", PERM_0600, 0, 0, 0), VHOST := Regular(Stamped(Join(APART)), PERM_0644, 0, 0, 0)],
       {Certificates, Available}, Missing, true)
  }

  const SPLIT_ROUTE := Route("", "apache", "h", Some(Join(APART)), None, "")
  const SPLIT_INTENT := Intent([], [SPLIT_ROUTE], [], true, {})
  const SPLIT_VHOST := FileTarget(VHOST, Vhost, false, true, Join(APART), PERM_0644, 0, "")
  const SPLIT_APPLY := Compilation([PruneTarget(SPLIT_CERT), SPLIT_VHOST], [])

  lemma SplitBase()
    ensures Base(ApacheEnv(), SplitFs(), SPLIT_INTENT) == Some(Compilation([SPLIT_VHOST], []))
  {
    var env, fs := ApacheEnv(), SplitFs();
    assert VhostPath(env, "h") == VHOST;
    assert LegacyAuthPath(env, "h") !in fs.nodes && AuthPath(env, "h") !in fs.nodes;
    assert Adopted(env, fs, [], SPLIT_ROUTE) == Some(Content(Join(APART), true));
    assert VhostTarget(env, SPLIT_ROUTE, Content(Join(APART), true)) == SPLIT_VHOST;
    assert [SPLIT_ROUTE][..0] == [];
    assert CompileRoutes(env, fs, [], []) == Some(Compilation([], []));
    var c, content := Compilation([SPLIT_VHOST], []), Content(Join(APART), true);
    assert AddFile(Compilation([], []), SPLIT_VHOST) == c;
    assert AddTargets(env, SPLIT_ROUTE, content, Compilation([], [])) == Some(c);
    assert AddAllStale(env, fs, SPLIT_ROUTE, content, c) == c;
    assert CompileRoute(env, fs, [], SPLIT_ROUTE, Compilation([], [])) == Some(c);
  }

  lemma SplitSurvives()
    ensures Surviving(ApacheEnv(), SplitFs(), [SPLIT_VHOST]) == Config({Join(APART)}, {})
  {
    var env, fs := ApacheEnv(), SplitFs();
    assert TargetPaths([SPLIT_VHOST]) == {VHOST};
    forall p ensures !IsSource(env, fs, {VHOST}, p) {
      forall link | link in fs.nodes ensures !LeadsTo(env, fs, {VHOST}, link, p) {}
    }
    assert (set p | p in fs.nodes && IsSource(env, fs, {VHOST}, p)) == {};
  }

  lemma SplitIsCandidate()
    ensures !IsAuthName("a\nb.crt", ApacheEnv().id) && CertificateBase(ApacheEnv(), "a\nb.crt") == Some("a\nb")
    ensures IsCertCandidate(ApacheEnv(), SPLIT_INTENT, SPLIT_CERT)
  {
    var env := ApacheEnv();
    assert "a\nb.crt"[..3] == "a\nb" && "a\nb.crt"[3..] == ".crt" && "a\nb.crt"[6] == 't';
    forall suffix | suffix in [".key.plain", ".key.enc"] ensures TrimmedBase(env, "a\nb.crt", suffix).None? {}
  }

  lemma SplitUnmentioned()
    ensures !Mentioned(ApacheEnv(), Config({Join(APART)}, {}), SPLIT_CERT)
  {
    var config := Config({Join(APART)}, {});
    SplitIsCandidate();
    forall suffix | suffix in SUFFIXES ensures !References(config, "a\nb" + suffix) {
      assert ("/" + ("a\nb" + suffix))[..4] == "/a\nb";
      NoneApart("/" + ("a\nb" + suffix));
    }
  }

  lemma SplitPrunes()
    ensures PruneSet(ApacheEnv(), SplitFs(), SPLIT_INTENT, [SPLIT_VHOST]) == {SPLIT_CERT}
  {
    SplitSurvives();
    SplitIsCandidate();
    SplitUnmentioned();
    assert SPLIT_CERT in SplitFs().nodes && !IsCandidate(ApacheEnv(), SPLIT_INTENT, [SPLIT_VHOST], VHOST);
  }

  lemma OnePruned(env: Env, fs: Fs, intent: Intent, v: FileTarget, p: Path)
    requires Base(env, fs, intent) == Some(Compilation([v], [])) && PruneSet(env, fs, intent, [v]) == {p}
    requires v.kind.Vhost? && v.path != p
    ensures IsCompiled(env, fs, intent, Some(Compilation([PruneTarget(p), v], [])))
  {
    assert PruneTargets({p}) == {PruneTarget(p)};
    assert multiset([PruneTarget(p), v]) == multiset([v]) + multiset({PruneTarget(p)});
    assert TargetPaths([v]) == {v.path};
  }

  lemma SplitCompiles()
    ensures IsCompiled(ApacheEnv(), SplitFs(), SPLIT_INTENT, Some(SPLIT_APPLY))
  {
    SplitBase();
    SplitPrunes();
    OnePruned(ApacheEnv(), SplitFs(), SPLIT_INTENT, SPLIT_VHOST, SPLIT_CERT);
  }

  lemma PassOfTwo<T>(x: T, y: T, pick: T -> Option<Step>)
    requires pick(y).None?
    ensures Pass([x, y], pick) == match pick(x) case Some(step) => [step] case None => []
  {
    assert [x, y][..1] == [x];
    PassOfOne(x, pick);
  }

  lemma SplitSteps(id: Identity)
    requires !IsAuthName("a\nb.crt", id)
    ensures MainSteps(SPLIT_APPLY, id) == [RemoveFile(PruneTarget(SPLIT_CERT))] && AuthSteps(SPLIT_APPLY, id) == []
  {
    PassOfTwo(PruneTarget(SPLIT_CERT), SPLIT_VHOST, FileRemoval(false, id));
    PassOfTwo(PruneTarget(SPLIT_CERT), SPLIT_VHOST, FileRemoval(true, id));
    PassOfTwo(PruneTarget(SPLIT_CERT), SPLIT_VHOST, FileInstall());
  }

  lemma SplitRun(id: Identity)
    requires id.owner == 0
    ensures RunSteps(SplitFs(), [RemoveFile(PruneTarget(SPLIT_CERT))], id) == Run(WithoutNode(SplitFs(), SPLIT_CERT), true, true)
  {
    var step := RemoveFile(PruneTarget(SPLIT_CERT));
    assert [step][..0] == [];
    assert InspectFile(SplitFs(), SPLIT_CERT, Secret, id).Seen?;
    assert Perform(SplitFs(), step, id) == Done(WithoutNode(SplitFs(), SPLIT_CERT), true);
  }

  lemma SplitExecutes(id: Identity, host: Host)
    requires id.owner == 0 && !IsAuthName("a\nb.crt", id)
    requires forall fs :: host.validate(fs) && host.reload(fs) && host.active(fs)
    ensures !Executed(SplitFs(), SPLIT_APPLY, id, host, false).failed
    ensures Executed(SplitFs(), SPLIT_APPLY, id, host, false).fs == WithoutNode(SplitFs(), SPLIT_CERT)
  {
    SplitSteps(id);
    SplitRun(id);
    StampedApart();
    assert SPLIT_APPLY.files[0] in SPLIT_APPLY.files && HasDeletions(SPLIT_APPLY);
    assert PreservedLive(WithoutNode(SplitFs(), SPLIT_CERT), SPLIT_VHOST, id);
  }

  lemma MentionStays()
    ensures var after := WithoutNode(SplitFs(), SPLIT_CERT);
            && SPLIT_CERT !in after.nodes && VHOST in after.nodes && after.nodes[VHOST].Regular?
            && Contains(after.nodes[VHOST].content, "/" + SPLIT_CERT.name)
  {
    StampedMayAddPathAcrossLines();
    assert "/" + "a\nb.crt" == "/a\nb.crt";
  }

  /** An apply that prunes a certificate whose name has a line break, and keeps a vhost that mentions it. */
  lemma PruneMayLeaveMention(host: Host)
    requires forall fs :: host.validate(fs) && host.reload(fs) && host.active(fs)
    ensures ValidIntent(SPLIT_INTENT) && IsCompiled(ApacheEnv(), SplitFs(), SPLIT_INTENT, Some(SPLIT_APPLY))
    ensures PruneSet(ApacheEnv(), SplitFs(), SPLIT_INTENT, [SPLIT_VHOST]) == {SPLIT_CERT}
    ensures !Executed(SplitFs(), SPLIT_APPLY, ApacheEnv().id, host, false).failed
    ensures var after := Executed(SplitFs(), SPLIT_APPLY, ApacheEnv().id, host, false).fs;
            && SPLIT_CERT !in after.nodes && VHOST in after.nodes && after.nodes[VHOST].Regular?
            && Contains(after.nodes[VHOST].content, "/" + SPLIT_CERT.name)
  {
    SplitCompiles();
    SplitPrunes();
    SplitIsCandidate();
    SplitExecutes(ApacheEnv().id, host);
    MentionStays();
  }
}
