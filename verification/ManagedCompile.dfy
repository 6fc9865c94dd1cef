/** Compiling a desired state into the files and links an apply writes or deletes. */
module ManagedCompile {
  import opened ManagedConfig
  import opened ManagedFs
  import opened Marker
  import opened Strings

  // ----- names -----

  function SafeName(env: Env, host: string): string {
    env.id.sanitize(host)
  }

  function VhostName(env: Env, host: string): string {
    env.prefix + SafeName(env, host) + ".conf"
  }

  function VhostPath(env: Env, host: string): Path {
    Managed(Available, VhostName(env, host))
  }

  function LinkPath(env: Env, host: string): Path {
    Managed(Enabled, VhostName(env, host))
  }

  function CertPath(env: Env, host: string): Path {
    Managed(Certificates, SafeName(env, host) + ".crt")
  }

  function KeyPath(env: Env, host: string): Path {
    Managed(Certificates, SafeName(env, host) + ".key.plain")
  }

  function AuthName(env: Env, host: string): string {
    "auth-" + SafeName(env, host) + ".htpasswd"
  }

  function AuthPath(env: Env, host: string): Path {
    Managed(Auth, AuthName(env, host))
  }

  /** Where older helpers put auth files; only ever deleted. */
  function LegacyAuthPath(env: Env, host: string): Path {
    Managed(Certificates, AuthName(env, host))
  }

  /** The sidecar next to a vhost that the first helpers wrote. */
  function SidecarPath(env: Env, host: string): Path {
    Managed(Available, env.prefix + SafeName(env, host) + ".htpasswd")
  }

  function TrimmedBase(env: Env, name: string, suffix: string): Option<string> {
    if |name| > |suffix| && name[|name| - |suffix|..] == suffix && SafeName(env, name[..|name| - |suffix|]) == name[..|name| - |suffix|]
    then Some(name[..|name| - |suffix|])
    else None
  }

  /** The certificate a file of the store belongs to; longer suffixes first. */
  function CertificateBase(env: Env, name: string): Option<string> {
    var plain, enc, crt := TrimmedBase(env, name, ".key.plain"), TrimmedBase(env, name, ".key.enc"), TrimmedBase(env, name, ".crt");
    if plain.Some? then plain else if enc.Some? then enc else if crt.Some? then crt else TrimmedBase(env, name, ".key")
  }

  // ----- one route -----

  datatype Content = Content(text: string, preserve: bool)

  predicate IsStaged(staged: seq<Staged>, host: string) {
    exists s | s in staged :: s.host == host
  }

  function CertText(env: Env, staged: seq<Staged>, host: string): string {
    if IsStaged(staged, host) then Text(env, CertPath(env, host)) else ""
  }

  function KeyText(env: Env, staged: seq<Staged>, host: string): string {
    if IsStaged(staged, host) then Text(env, KeyPath(env, host)) else ""
  }

  function Rendered(env: Env, staged: seq<Staged>, route: Route, authText: string): Option<string> {
    env.render(route, CertText(env, staged, route.host), KeyText(env, staged, route.host), authText)
  }

  /** A raw route is written if the policy admits it, kept if it is foreign to the policy, re-rendered
      if it is the generator's own text with the legacy auth path, and refused otherwise. */
  function AdmitRaw(env: Env, staged: seq<Staged>, route: Route): Option<Content>
    requires route.raw.Some?
  {
    var text, authText := route.raw.value, Text(env, AuthPath(env, route.host));
    var legacy, structured := Text(env, LegacyAuthPath(env, route.host)), route.(raw := None);
    if env.kind != "nginx" then Some(Content(text, true))
    else if env.admits(text, route.host, CertText(env, staged, route.host), KeyText(env, staged, route.host), authText)
    then Some(Content(text, false))
    else if !Contains(text, legacy) then Some(Content(text, true))
    else if route.auth.None? || Rendered(env, staged, structured, legacy).None? then None
    else if Stamped(text) != Stamped(Rendered(env, staged, structured, legacy).value) then None
    else match Rendered(env, staged, structured, authText) case None => None case Some(t) => Some(Content(t, false))
  }

  function Desired(env: Env, staged: seq<Staged>, route: Route): Option<Content> {
    if route.raw.Some? then AdmitRaw(env, staged, route)
    else
      var authText := if route.auth.Some? then Text(env, AuthPath(env, route.host)) else "";
      match Rendered(env, staged, route, authText) case None => None case Some(t) => Some(Content(t, false))
  }

  /** A protected file without the marker that has exactly these bytes. */
  predicate ExactUnmarked(fs: Fs, path: Path, desired: string, id: Identity) {
    && path in fs.nodes && fs.nodes[path].Regular?
    && var n := fs.nodes[path];
       && n.uid == id.owner && !GroupOrWorldWritable(n.perm) && |n.content| <= MAX_CONFIG_FILE_BYTES
       && !HasManagedArtifactMarker(n.content) && n.content == desired
  }

  /** What the route compiles to, given what is on disk: an exact unmarked file is kept, also one
      rendered with the sidecar's auth path. */
  function Adopted(env: Env, fs: Fs, staged: seq<Staged>, route: Route): Option<Content> {
    match Desired(env, staged, route)
    case None => None
    case Some(d) =>
      var path := VhostPath(env, route.host);
      if d.preserve || ExactUnmarked(fs, path, d.text, env.id) then Some(Content(d.text, true))
      else if route.raw.Some? || route.auth.None? then Some(d)
      else match Rendered(env, staged, route, Text(env, SidecarPath(env, route.host)))
        case None => None
        case Some(legacy) => if ExactUnmarked(fs, path, legacy, env.id) then Some(Content(legacy, true)) else Some(d)
  }

  function Written(content: Content): string {
    if content.preserve then content.text else Stamped(content.text)
  }

  function VhostTarget(env: Env, route: Route, content: Content): FileTarget {
    FileTarget(VhostPath(env, route.host), Vhost, false, content.preserve, Written(content), PERM_0644, 0, route.artifact)
  }

  /** The auth file is only written when the vhost names it. */
  predicate NeedsAuth(env: Env, route: Route, content: Content) {
    route.auth.Some? && Contains(Written(content), Text(env, AuthPath(env, route.host)))
  }

  function AuthTarget(env: Env, route: Route, gid: nat): FileTarget
    requires route.auth.Some?
  {
    FileTarget(AuthPath(env, route.host), AuthFile, false, false, route.auth.value.user + ":" + route.auth.value.hash + "\n", PERM_0640, gid, "")
  }

  /** Deletions carry nothing but path and class. */
  function Removal(path: Path, kind: Kind): FileTarget {
    FileTarget(path, kind, true, false, "", 0, 0, "")
  }

  predicate HasTarget(files: seq<FileTarget>, path: Path) {
    exists f | f in files :: f.path == path
  }

  function AddFile(c: Compilation, f: FileTarget): Compilation {
    c.(files := c.files + [f])
  }

  function AddLink(env: Env, c: Compilation, host: string, delete: bool, preserve: bool): Compilation {
    if env.hasEnabled then c.(links := c.links + [LinkTarget(LinkPath(env, host), VhostPath(env, host), delete, preserve)]) else c
  }

  /** A file the vhost does not mention, that is on disk and no target yet, goes. */
  predicate IsStale(env: Env, fs: Fs, c: Compilation, text: string, path: Path) {
    !Contains(text, Text(env, path)) && !HasTarget(c.files, path) && path in fs.nodes
  }

  function AddStale(env: Env, fs: Fs, c: Compilation, text: string, path: Path, kind: Kind): Compilation {
    if IsStale(env, fs, c, text, path) then AddFile(c, Removal(path, kind)) else c
  }

  /** Vhost and auth file of a route. */
  function AddTargets(env: Env, route: Route, content: Content, c: Compilation): Option<Compilation> {
    var c1 := AddFile(c, VhostTarget(env, route, content));
    if !NeedsAuth(env, route, content) then Some(c1)
    else match env.workerGroup case None => None case Some(gid) => Some(AddFile(c1, AuthTarget(env, route, gid)))
  }

  function AddAllStale(env: Env, fs: Fs, route: Route, content: Content, c: Compilation): Compilation {
    var c1 := AddStale(env, fs, c, Written(content), LegacyAuthPath(env, route.host), Secret);
    if NeedsAuth(env, route, content) then c1 else AddStale(env, fs, c1, Written(content), AuthPath(env, route.host), AuthFile)
  }

  function CompileRoute(env: Env, fs: Fs, staged: seq<Staged>, route: Route, c: Compilation): Option<Compilation> {
    if route.backend != env.kind then None
    else match Adopted(env, fs, staged, route)
      case None => None
      case Some(content) =>
        match AddTargets(env, route, content, c)
        case None => None
        case Some(c1) => Some(AddLink(env, AddAllStale(env, fs, route, content, c1), route.host, false, content.preserve))
  }

  function CompileRoutes(env: Env, fs: Fs, staged: seq<Staged>, routes: seq<Route>): Option<Compilation> {
    if routes == [] then Some(Compilation(StagedFiles(env, staged), []))
    else match CompileRoutes(env, fs, staged, routes[..|routes| - 1])
      case None => None
      case Some(c) => CompileRoute(env, fs, staged, routes[|routes| - 1], c)
  }

  function CertTarget(env: Env, s: Staged): FileTarget {
    FileTarget(CertPath(env, s.host), Secret, false, false, s.cert, PERM_0644, 0, "")
  }

  function KeyTarget(env: Env, s: Staged): FileTarget {
    FileTarget(KeyPath(env, s.host), Secret, false, false, s.key, PERM_0600, 0, "")
  }

  function StagedFiles(env: Env, staged: seq<Staged>): seq<FileTarget> {
    if staged == [] then []
    else
      var s := staged[|staged| - 1];
      StagedFiles(env, staged[..|staged| - 1]) + [CertTarget(env, s), KeyTarget(env, s)]
  }

  // ----- deletions -----

  /** Without the marker, or too large to look for it. */
  predicate UnmarkedRegular(fs: Fs, path: Path) {
    && IsRegular(fs, path)
    && (|fs.nodes[path].content| > MAX_CONFIG_FILE_BYTES || !HasManagedArtifactMarker(fs.nodes[path].content))
  }

  /** A vhost without the marker is never deleted, and neither is what belongs to it. */
  function CompileDeletion(env: Env, fs: Fs, d: Deletion, c: Compilation): Option<Compilation> {
    if d.backend != env.kind then None
    else if UnmarkedRegular(fs, VhostPath(env, d.host)) then Some(c)
    else
      var c1 := AddFile(c, Removal(VhostPath(env, d.host), Vhost));
      var c2 := AddFile(AddFile(c1, Removal(AuthPath(env, d.host), AuthFile)), Removal(LegacyAuthPath(env, d.host), Secret));
      Some(AddLink(env, c2, d.host, true, false))
  }

  function CompileDeletions(env: Env, fs: Fs, deletions: seq<Deletion>, start: Compilation): Option<Compilation> {
    if deletions == [] then Some(start)
    else match CompileDeletions(env, fs, deletions[..|deletions| - 1], start)
      case None => None
      case Some(c) => CompileDeletion(env, fs, deletions[|deletions| - 1], c)
  }

  /** Everything but the pruned files. */
  function Base(env: Env, fs: Fs, intent: Intent): Option<Compilation> {
    match CompileRoutes(env, fs, intent.staged, intent.routes)
    case None => None
    case Some(c) => CompileDeletions(env, fs, intent.deletions, c)
  }

  // ----- pruning -----

  predicate IsCertCandidate(env: Env, intent: Intent, p: Path) {
    && p.Managed? && p.dir.Certificates? && !IsAuthName(p.name, env.id)
    && CertificateBase(env, p.name).Some?
    && forall host | host in intent.keep :: SafeName(env, host) != CertificateBase(env, p.name).value
  }

  predicate IsAuthCandidate(env: Env, intent: Intent, files: seq<FileTarget>, p: Path) {
    && p.Managed? && (p.dir.Certificates? || p.dir.Auth?) && IsAuthName(p.name, env.id)
    && (forall r | r in intent.routes :: SafeName(env, r.host) != AuthHost(p.name))
    && !HasTarget(files, p)
  }

  /** Whether the configuration mentions the file; of a certificate, any file. */
  predicate Mentioned(env: Env, config: Config, p: Path)
    requires p.Managed?
  {
    if IsAuthName(p.name, env.id) then References(config, p.name)
    else CertificateBase(env, p.name).Some? && ReferencesCertificate(config, CertificateBase(env, p.name).value)
  }

  predicate IsCandidate(env: Env, intent: Intent, files: seq<FileTarget>, p: Path) {
    IsCertCandidate(env, intent, p) || IsAuthCandidate(env, intent, files, p)
  }

  function PruneSet(env: Env, fs: Fs, intent: Intent, files: seq<FileTarget>): set<Path> {
    if !intent.prune then {}
    else
      var config := Surviving(env, fs, files);
      set p | p in fs.nodes && IsCandidate(env, intent, files, p) && !Mentioned(env, config, p)
  }

  function PruneTarget(p: Path): FileTarget {
    Removal(p, if p.Managed? && p.dir.Auth? then AuthFile else Secret)
  }

  function PruneTargets(paths: set<Path>): set<FileTarget> {
    set p | p in paths :: PruneTarget(p)
  }

  // ----- the whole compilation -----

  function ClassOrder(kind: Kind): nat {
    match kind case Secret => 0 case AuthFile => 1 case Vhost => 2
  }

  predicate FileBefore(env: Env, a: FileTarget, b: FileTarget) {
    if a.kind != b.kind then ClassOrder(a.kind) < ClassOrder(b.kind) else Less(Text(env, a.path), Text(env, b.path))
  }

  predicate LinkBefore(env: Env, a: LinkTarget, b: LinkTarget) {
    Less(Text(env, a.path), Text(env, b.path))
  }

  predicate DistinctFiles(files: seq<FileTarget>) {
    forall i, j | 0 <= i < j < |files| :: files[i].path != files[j].path
  }

  predicate SortedFiles(env: Env, files: seq<FileTarget>) {
    forall i, j | 0 <= i < j < |files| :: !FileBefore(env, files[j], files[i])
  }

  predicate SortedLinks(env: Env, links: seq<LinkTarget>) {
    forall i, j | 0 <= i < j < |links| :: !LinkBefore(env, links[j], links[i])
  }

  /** What compiling answers: nothing if a part of the intent is refused or a file would be targeted
      twice, otherwise exactly these targets in this order. */
  ghost predicate IsCompiled(env: Env, fs: Fs, intent: Intent, r: Option<Compilation>) {
    match Base(env, fs, intent)
    case None => r.None?
    case Some(base) =>
      var pruned := PruneSet(env, fs, intent, base.files);
      if !DistinctFiles(base.files) || !(TargetPaths(base.files) !! pruned) then r.None?
      else
        && r.Some?
        && multiset(r.value.files) == multiset(base.files) + multiset(PruneTargets(pruned))
        && multiset(r.value.links) == multiset(base.links)
        && SortedFiles(env, r.value.files) && SortedLinks(env, r.value.links)
  }

  // ----- one path, one target -----

  lemma OccursTwice(files: seq<FileTarget>, i: nat, j: nat)
    requires i < j < |files| && files[i] == files[j]
    ensures multiset(files)[files[i]] >= 2
  {
    assert files == files[..i] + [files[i]] + files[i + 1..j] + [files[j]] + files[j + 1..];
  }

  lemma TwiceIsTwoPlaces(files: seq<FileTarget>, f: FileTarget)
    requires multiset(files)[f] >= 2
    ensures !DistinctFiles(files)
  {
    assert f in multiset(files);
    var k :| 0 <= k < |files| && files[k] == f;
    assert files == files[..k] + [f] + files[k + 1..];
    if f in files[..k] {
      var i :| 0 <= i < k && files[i] == f;
    } else {
      assert f in multiset(files[k + 1..]);
      var i :| 0 <= i < |files| - k - 1 && files[k + 1..][i] == f;
      assert files[k].path == files[k + 1 + i].path;
    }
  }

  /** Whether two targets share a path depends on the targets, not on their order. */
  ghost predicate OnePathEach(targets: multiset<FileTarget>) {
    && (forall f | f in targets :: targets[f] == 1)
    && (forall f, g | f in targets && g in targets && f.path == g.path :: f == g)
  }

  lemma DistinctMeansOneEach(files: seq<FileTarget>)
    ensures DistinctFiles(files) <==> OnePathEach(multiset(files))
  {
    if DistinctFiles(files) {
      forall f | f in multiset(files) ensures multiset(files)[f] == 1 {
        if multiset(files)[f] >= 2 { TwiceIsTwoPlaces(files, f); }
      }
      forall f, g | f in multiset(files) && g in multiset(files) && f.path == g.path ensures f == g {
        var i :| 0 <= i < |files| && files[i] == f;
        var j :| 0 <= j < |files| && files[j] == g;
      }
    } else {
      var i, j :| 0 <= i < j < |files| && files[i].path == files[j].path;
      assert files[i] in multiset(files) && files[j] in multiset(files);
      if files[i] == files[j] { OccursTwice(files, i, j); }
    }
  }

  lemma CountedOnce(a: multiset<FileTarget>, b: set<FileTarget>, f: FileTarget)
    ensures (a + multiset(b))[f] == a[f] + if f in b then 1 else 0
  {
  }

  lemma SumIsOneEach(a: multiset<FileTarget>, pruned: set<Path>)
    requires OnePathEach(a) && forall f | f in a :: f.path !in pruned
    ensures OnePathEach(a + multiset(PruneTargets(pruned)))
  {
    var b := PruneTargets(pruned);
    assert forall f | f in b :: f.path in pruned && f == PruneTarget(f.path);
    forall f | f in a + multiset(b) ensures (a + multiset(b))[f] == 1 { CountedOnce(a, b, f); }
  }

  lemma PartIsOneEach(a: multiset<FileTarget>, pruned: set<Path>)
    requires OnePathEach(a + multiset(PruneTargets(pruned)))
    ensures OnePathEach(a) && forall f | f in a :: f.path !in pruned
  {
    var b := PruneTargets(pruned);
    var all := a + multiset(b);
    forall f | f in a ensures a[f] == 1 && f.path !in pruned {
      var g := PruneTarget(f.path);
      CountedOnce(a, b, f);
      CountedOnce(a, b, g);
      assert f in all && (f.path in pruned ==> g in b && g in all);
    }
    forall f, g | f in a && g in a && f.path == g.path ensures f == g { assert f in all && g in all; }
  }

  lemma DistinctIff(base: seq<FileTarget>, pruned: set<Path>, files: seq<FileTarget>)
    requires multiset(files) == multiset(base) + multiset(PruneTargets(pruned))
    ensures DistinctFiles(files) <==> DistinctFiles(base) && TargetPaths(base) !! pruned
  {
    DistinctMeansOneEach(base);
    DistinctMeansOneEach(files);
    assert forall f :: f in base <==> f in multiset(base);
    if DistinctFiles(files) {
      PartIsOneEach(multiset(base), pruned);
    } else if DistinctFiles(base) && TargetPaths(base) !! pruned {
      assert forall f | f in base :: f.path in TargetPaths(base);
      SumIsOneEach(multiset(base), pruned);
    }
  }
}
