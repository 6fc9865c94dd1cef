/** The host filesystem as the managed apply sees it, and the one decision every target goes through:
    leave it, change it, or refuse it. */
module ManagedFs {
  import opened Marker

  datatype Option<+T> = None | Some(value: T)

  /** The four directories a layout fixes; they are pairwise distinct. */
  datatype Dir = Available | Enabled | Certificates | Auth

  datatype Path = Managed(dir: Dir, name: string) | Elsewhere(text: string)

  /** `special` holds the setuid, setgid and sticky bits. */
  datatype Node =
    | Regular(content: string, perm: nat, special: nat, uid: nat, gid: nat)
    | Symlink(target: Path, uid: nat, gid: nat)
    | Other

  /** The auth directory is the only one an apply creates or repairs. */
  datatype AuthDir = Missing | Foreign | Owned(gid: nat, perm: nat, special: nat)

  datatype Fs = Fs(nodes: map<Path, Node>, safeDirs: set<Dir>, auth: AuthDir, authParentSafe: bool)

  /** `owner` is the privileged identity, `processGid` the group new files get, `sanitize` turns a host
      into a file name part. */
  datatype Identity = Identity(owner: nat, processGid: nat, sanitize: string -> string)

  datatype Kind = Vhost | Secret | AuthFile

  datatype FileTarget = FileTarget(
    path: Path, kind: Kind, delete: bool, preserve: bool, content: string, perm: nat, gid: nat, resourceId: string)

  datatype LinkTarget = LinkTarget(path: Path, target: Path, delete: bool, preserve: bool)

  datatype Compilation = Compilation(files: seq<FileTarget>, links: seq<LinkTarget>)

  const MAX_CONFIG_FILE_BYTES := 8_388_608
  const PERM_0750 := 488
  const PERM_0644 := 420
  const PERM_0640 := 416
  const PERM_0600 := 384

  predicate GroupOrWorldWritable(perm: nat) {
    (perm / 16) % 2 == 1 || (perm / 2) % 2 == 1
  }

  predicate DirSafe(fs: Fs, path: Path) {
    match path
    case Managed(Auth, _) => fs.auth.Owned? && !GroupOrWorldWritable(fs.auth.perm)
    case Managed(dir, _) => dir in fs.safeDirs
    case Elsewhere(_) => false
  }

  // ----- inspection -----

  datatype Inspection = Refused | Seen(item: Option<Node>)

  function InspectFile(fs: Fs, path: Path, kind: Kind, id: Identity): Inspection {
    if path !in fs.nodes then Seen(None)
    else match fs.nodes[path]
      case Regular(content, _, _, uid, _) =>
        if |content| <= MAX_CONFIG_FILE_BYTES && uid == id.owner && (kind.Vhost? ==> HasManagedArtifactMarker(content))
        then Seen(Some(fs.nodes[path])) else Refused
      case _ => Refused
  }

  function InspectLink(fs: Fs, path: Path, target: Path, id: Identity): Inspection {
    if path !in fs.nodes then Seen(None)
    else match fs.nodes[path]
      case Symlink(t, uid, _) => if t == target && uid == id.owner then Seen(Some(fs.nodes[path])) else Refused
      case _ => Refused
  }

  /** A preserved file is on disk already, protected, with the desired bytes or their stamped form. */
  predicate PreservedLive(fs: Fs, file: FileTarget, id: Identity) {
    && file.path in fs.nodes && fs.nodes[file.path].Regular?
    && var n := fs.nodes[file.path];
       && n.uid == id.owner && !GroupOrWorldWritable(n.perm) && |n.content| <= MAX_CONFIG_FILE_BYTES
       && (n.content == file.content || n.content == Stamped(file.content))
  }

  // ----- the decision -----

  datatype Decision = Refuse | Keep | Change

  function AuthDirPending(fs: Fs, gid: nat): Decision {
    match fs.auth
    case Missing => if fs.authParentSafe then Change else Refuse
    case Foreign => Refuse
    case Owned(g, perm, special) => if g != gid || perm != PERM_0750 || special != 0 then Change else Keep
  }

  predicate FileConverged(node: Node, file: FileTarget) {
    && node.Regular? && node.perm == file.perm && node.special == 0 && node.content == file.content
    && (file.kind.AuthFile? ==> node.gid == file.gid)
  }

  function FilePending(fs: Fs, file: FileTarget, id: Identity): Decision {
    match InspectFile(fs, file.path, file.kind, id)
    case Refused => Refuse
    case Seen(item) =>
      if file.delete && item.None? then Keep
      else
        var dir := if file.kind.AuthFile? && !file.delete then AuthDirPending(fs, file.gid) else Keep;
        if !dir.Keep? then dir
        else if !DirSafe(fs, file.path) then Refuse
        else if file.delete || item.None? || !FileConverged(item.value, file) then Change
        else Keep
  }

  function LinkPending(fs: Fs, link: LinkTarget, id: Identity): Decision {
    match InspectLink(fs, link.path, link.target, id)
    case Refused => Refuse
    case Seen(item) =>
      if link.delete && item.None? then Keep
      else if !DirSafe(fs, link.path) then Refuse
      else if link.delete || item.None? then Change
      else Keep
  }

  // ----- the steps of an apply -----

  datatype Step = RemoveLink(link: LinkTarget) | RemoveFile(file: FileTarget) | InstallFile(file: FileTarget) | InstallLink(link: LinkTarget)

  function StepPath(step: Step): Path {
    match step
    case RemoveLink(l) => l.path
    case RemoveFile(f) => f.path
    case InstallFile(f) => f.path
    case InstallLink(l) => l.path
  }

  function Decide(fs: Fs, step: Step, id: Identity): Decision {
    match step
    case RemoveLink(l) => LinkPending(fs, l, id)
    case RemoveFile(f) => FilePending(fs, f, id)
    case InstallFile(f) => FilePending(fs, f, id)
    case InstallLink(l) => LinkPending(fs, l, id)
  }

  datatype StepResult = Failed | Done(fs: Fs, changed: bool)

  function WithoutNode(fs: Fs, path: Path): Fs {
    fs.(nodes := fs.nodes - {path})
  }

  function WithNode(fs: Fs, path: Path, node: Node): Fs {
    fs.(nodes := fs.nodes[path := node])
  }

  /** Creates or repairs the auth directory for the worker group; only its parent must be privileged. */
  function EnsureAuthDir(fs: Fs, gid: nat): StepResult {
    if !fs.authParentSafe || fs.auth.Foreign? then Failed
    else Done(fs.(auth := Owned(gid, PERM_0750, 0)), fs.auth != Owned(gid, PERM_0750, 0))
  }

  function Installed(file: FileTarget, id: Identity): Node {
    Regular(file.content, file.perm, 0, id.owner, if file.kind.AuthFile? then file.gid else id.processGid)
  }

  function Install(fs: Fs, file: FileTarget, id: Identity): StepResult {
    if !file.kind.AuthFile? then Done(WithNode(fs, file.path, Installed(file, id)), true)
    else match EnsureAuthDir(fs, file.gid)
      case Failed => Failed
      case Done(fs1, _) =>
        if file.path in fs1.nodes && FileConverged(fs1.nodes[file.path], file) then Done(fs1, true)
        else Done(WithNode(fs1, file.path, Installed(file, id)), true)
  }

  function Perform(fs: Fs, step: Step, id: Identity): StepResult {
    match Decide(fs, step, id)
    case Refuse => Failed
    case Keep => Done(fs, false)
    case Change =>
      match step
      case RemoveLink(l) => Done(WithoutNode(fs, l.path), true)
      case RemoveFile(f) => Done(WithoutNode(fs, f.path), true)
      case InstallFile(f) => Install(fs, f, id)
      case InstallLink(l) => Done(WithNode(fs, l.path, Symlink(l.target, id.owner, id.processGid)), true)
  }

  /** Steps run in order until one fails: the filesystem reached, whether anything changed, and whether
      all went through. */
  datatype Run = Run(fs: Fs, mutated: bool, ok: bool)

  function RunSteps(fs: Fs, steps: seq<Step>, id: Identity): Run {
    if steps == [] then Run(fs, false, true)
    else
      var before := RunSteps(fs, steps[..|steps| - 1], id);
      if !before.ok then before
      else match Perform(before.fs, steps[|steps| - 1], id)
        case Failed => before.(ok := false)
        case Done(fs1, changed) => Run(fs1, before.mutated || changed, true)
  }

  lemma {:induction false} RunConcat(fs: Fs, a: seq<Step>, b: seq<Step>, id: Identity)
    ensures var r := RunSteps(fs, a, id);
            RunSteps(fs, a + b, id) == if !r.ok then r else
              var q := RunSteps(r.fs, b, id); Run(q.fs, r.mutated || q.mutated, q.ok)
  {
    if b == [] {
      assert a + b == a;
    } else {
      RunConcat(fs, a, b[..|b| - 1], id);
      assert (a + b)[..|a + b| - 1] == a + b[..|b| - 1];
    }
  }

  // ----- the five passes -----

  /** `auth-<host>.htpasswd` with a sanitized host. */
  predicate IsAuthName(name: string, id: Identity) {
    && |name| > |"auth-"| + |".htpasswd"|
    && name[..|"auth-"|] == "auth-" && name[|name| - |".htpasswd"|..] == ".htpasswd"
    && id.sanitize(AuthHost(name)) == AuthHost(name)
  }

  function AuthHost(name: string): string
    requires |name| > |"auth-"| + |".htpasswd"|
  {
    name[|"auth-"|..|name| - |".htpasswd"|]
  }

  predicate IsAuthDeletion(file: FileTarget, id: Identity) {
    && file.delete
    && (file.kind.AuthFile? || (file.kind.Secret? && file.path.Managed? && IsAuthName(file.path.name, id)))
  }

  /** The steps that `pick` takes from a list of targets, in order. */
  function Pass<T>(items: seq<T>, pick: T -> Option<Step>): seq<Step> {
    if items == [] then []
    else
      var before := Pass(items[..|items| - 1], pick);
      match pick(items[|items| - 1]) case Some(step) => before + [step] case None => before
  }

  lemma {:induction false} PassSplit<T>(items: seq<T>, pick: T -> Option<Step>, i: nat) returns (rest: seq<Step>)
    requires i <= |items|
    ensures Pass(items, pick) == Pass(items[..i], pick) + rest
  {
    if i == |items| {
      assert items[..i] == items;
      rest := [];
    } else {
      assert items[..|items| - 1][..i] == items[..i];
      rest := PassSplit(items[..|items| - 1], pick, i);
      rest := rest + match pick(items[|items| - 1]) case Some(step) => [step] case None => [];
    }
  }

  lemma PassNext<T>(items: seq<T>, pick: T -> Option<Step>, i: nat)
    requires i < |items|
    ensures Pass(items[..i + 1], pick) ==
              match pick(items[i]) case Some(step) => Pass(items[..i], pick) + [step] case None => Pass(items[..i], pick)
  {
    assert items[..i + 1][..i] == items[..i];
  }

  lemma {:induction false} InPass<T>(items: seq<T>, pick: T -> Option<Step>, step: Step)
    ensures step in Pass(items, pick) <==> exists x :: x in items && pick(x) == Some(step)
  {
    if items != [] {
      InPass(items[..|items| - 1], pick, step);
      assert items == items[..|items| - 1] + [items[|items| - 1]];
    }
  }

  function LinkRemoval(): LinkTarget -> Option<Step> {
    (l: LinkTarget) => if l.delete then Some(RemoveLink(l)) else None
  }

  function FileRemoval(auth: bool, id: Identity): FileTarget -> Option<Step> {
    (f: FileTarget) => if f.delete && IsAuthDeletion(f, id) == auth then Some(RemoveFile(f)) else None
  }

  function FileInstall(): FileTarget -> Option<Step> {
    (f: FileTarget) => if !f.delete && !f.preserve then Some(InstallFile(f)) else None
  }

  function LinkInstall(): LinkTarget -> Option<Step> {
    (l: LinkTarget) => if !l.delete && !l.preserve then Some(InstallLink(l)) else None
  }

  /** What runs before the proxy is validated and reloaded. */
  function MainSteps(c: Compilation, id: Identity): seq<Step> {
    Pass(c.links, LinkRemoval()) + Pass(c.files, FileRemoval(false, id)) + Pass(c.files, FileInstall()) + Pass(c.links, LinkInstall())
  }

  /** Auth files go only after the reload. */
  function AuthSteps(c: Compilation, id: Identity): seq<Step> {
    Pass(c.files, FileRemoval(true, id))
  }

  function AllSteps(c: Compilation, id: Identity): seq<Step> {
    MainSteps(c, id) + AuthSteps(c, id)
  }
}
