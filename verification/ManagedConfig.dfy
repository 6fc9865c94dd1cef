/** What proxy configuration is left on disk once a compilation has been applied, and what it mentions. */
module ManagedConfig {
  import opened ManagedFs
  import opened Strings

  datatype BasicAuth = BasicAuth(user: string, hash: string)

  /** `raw` is the text of a raw route; `settings` is everything else a renderer reads. */
  datatype Route = Route(
    artifact: string, backend: string, host: string, raw: Option<string>, auth: Option<BasicAuth>, settings: string)

  datatype Staged = Staged(host: string, cert: string, key: string)

  datatype Deletion = Deletion(host: string, backend: string)

  datatype Intent = Intent(staged: seq<Staged>, routes: seq<Route>, deletions: seq<Deletion>, prune: bool, keep: set<string>)

  /** The host's fixed mapping. `render` takes the route and the certificate, key and auth file paths;
      `admits` also takes the raw text first and the host. */
  datatype Env = Env(
    id: Identity, agentUid: nat, kind: string, hasEnabled: bool, prefix: string, dirText: Dir -> string,
    render: (Route, string, string, string) -> Option<string>,
    admits: (string, string, string, string, string) -> bool,
    workerGroup: Option<nat>)

  function Text(env: Env, path: Path): string {
    match path
    case Managed(dir, name) => env.dirText(dir) + "/" + name
    case Elsewhere(text) => text
  }

  function TargetPaths(files: seq<FileTarget>): set<Path> {
    set f | f in files :: f.path
  }

  predicate InConfigDir(env: Env, p: Path) {
    p.Managed? && (p.dir.Available? || (p.dir.Enabled? && env.hasEnabled))
  }

  const MAX_LINKS := 255

  /** Follows symlinks, at most `n` of them. */
  function Resolve(fs: Fs, p: Path, n: nat): Option<Path>
    decreases n
  {
    if p !in fs.nodes then None
    else if !fs.nodes[p].Symlink? then Some(p)
    else if n == 0 then None
    else Resolve(fs, fs.nodes[p].target, n - 1)
  }

  predicate IsRegular(fs: Fs, p: Path) {
    p in fs.nodes && fs.nodes[p].Regular?
  }

  /** A link of the configuration directories leads to a file nobody touches and the agent does not own. */
  predicate LeadsTo(env: Env, fs: Fs, touched: set<Path>, link: Path, p: Path) {
    && link in fs.nodes && fs.nodes[link].Symlink? && InConfigDir(env, link) && link !in touched
    && Resolve(fs, link, MAX_LINKS) == Some(p)
    && IsRegular(fs, p) && p !in touched && fs.nodes[p].uid != env.agentUid
  }

  predicate IsSource(env: Env, fs: Fs, touched: set<Path>, p: Path) {
    && IsRegular(fs, p) && p !in touched
    && (InConfigDir(env, p) || exists link | link in fs.nodes :: LeadsTo(env, fs, touched, link, p))
  }

  datatype Config = Config(contents: set<string>, unscanned: set<Path>)

  /** The texts a compilation writes or preserves, plus those of the given files. */
  function Collect(fs: Fs, files: seq<FileTarget>, paths: set<Path>): Config {
    Config(
      (set f | f in files && f.kind.Vhost? && !f.delete :: f.content) +
      (set p | p in paths && IsRegular(fs, p) && |fs.nodes[p].content| <= MAX_CONFIG_FILE_BYTES :: fs.nodes[p].content),
      set p | p in paths && IsRegular(fs, p) && |fs.nodes[p].content| > MAX_CONFIG_FILE_BYTES)
  }

  function Surviving(env: Env, fs: Fs, files: seq<FileTarget>): Config {
    var touched := TargetPaths(files);
    Collect(fs, files, set p | p in fs.nodes && IsSource(env, fs, touched, p))
  }

  /** With anything unscanned, every name counts as mentioned. */
  predicate References(config: Config, name: string) {
    config.unscanned != {} || exists content | content in config.contents :: Contains(content, "/" + name)
  }

  const SUFFIXES := [".crt", ".key", ".key.plain", ".key.enc"]

  predicate ReferencesCertificate(config: Config, base: string) {
    exists suffix | suffix in SUFFIXES :: References(config, base + suffix)
  }

  // ----- scanning -----

  method ReadDir(fs: Fs, dir: Dir) returns (entries: seq<Path>)
    ensures forall p :: p in entries <==> p in fs.nodes && p.Managed? && p.dir == dir
    ensures forall i, j | 0 <= i < j < |entries| :: entries[i] != entries[j]
  {
    var rest := set p | p in fs.nodes && p.Managed? && p.dir == dir;
    entries := [];
    while rest != {}
      invariant forall p :: (p in entries || p in rest) <==> p in fs.nodes && p.Managed? && p.dir == dir
      invariant forall p | p in rest :: p !in entries
      invariant forall i, j | 0 <= i < j < |entries| :: entries[i] != entries[j]
    {
      var p :| p in rest;
      entries, rest := entries + [p], rest - {p};
    }
  }

  method Scan(fs: Fs, ghost files: seq<FileTarget>, config: Config, scanned: set<Path>, p: Path) returns (more: Config)
    requires p in fs.nodes && config == Collect(fs, files, scanned)
    ensures more == Collect(fs, files, scanned + {p})
  {
    more := config;
    if p !in scanned && fs.nodes[p].Regular? {
      if |fs.nodes[p].content| > MAX_CONFIG_FILE_BYTES {
        more := config.(unscanned := config.unscanned + {p});
      } else {
        more := config.(contents := config.contents + {fs.nodes[p].content});
      }
    }
  }

  method ScanDir(env: Env, fs: Fs, files: seq<FileTarget>, dir: Dir, before: Config, seen: set<Path>)
    returns (config: Config, scanned: set<Path>, links: set<Path>)
    requires before == Collect(fs, files, seen)
    ensures config == Collect(fs, files, scanned)
    ensures forall p :: p in scanned <==> p in seen || InDir(fs, dir, TargetPaths(files), false, p)
    ensures forall p :: p in links <==> InDir(fs, dir, TargetPaths(files), true, p)
  {
    config, scanned, links := before, seen, {};
    var entries := ReadDir(fs, dir);
    for i := 0 to |entries|
      invariant config == Collect(fs, files, scanned)
      invariant forall p :: p in scanned <==> p in seen || (p in entries[..i] && InDir(fs, dir, TargetPaths(files), false, p))
      invariant forall p :: p in links <==> p in entries[..i] && InDir(fs, dir, TargetPaths(files), true, p)
    {
      var p := entries[i];
      assert p in entries && entries[..i + 1] == entries[..i] + [p];
      if p !in TargetPaths(files) {
        if fs.nodes[p].Symlink? {
          links := links + {p};
        } else {
          config := Scan(fs, files, config, scanned, p);
          scanned := scanned + {p};
        }
      }
    }
    assert entries[..|entries|] == entries;
  }

  predicate InDir(fs: Fs, dir: Dir, touched: set<Path>, link: bool, p: Path) {
    p in fs.nodes && p.Managed? && p.dir == dir && p !in touched && fs.nodes[p].Symlink? == link
  }

  /** Scans what the links lead to. */
  method FollowLinks(
    env: Env, fs: Fs, files: seq<FileTarget>, all: set<Path>, before: Config, direct: set<Path>)
    returns (config: Config, ghost scanned: set<Path>)
    requires before == Collect(fs, files, direct)
    requires forall l | l in all :: InConfigDir(env, l) && l !in TargetPaths(files) && l in fs.nodes && fs.nodes[l].Symlink?
    ensures config == Collect(fs, files, scanned)
    ensures forall p :: p in scanned <==> p in direct || exists l | l in all :: LeadsTo(env, fs, TargetPaths(files), l, p)
  {
    var touched := TargetPaths(files);
    var links, done := all, direct;
    config := before;
    while links != {}
      invariant links <= all && config == Collect(fs, files, done)
      invariant forall p :: p in done <==> p in direct || exists l | l in all - links :: LeadsTo(env, fs, touched, l, p)
    {
      var link :| link in links;
      ghost var was := done;
      links := links - {link};
      var target := Resolve(fs, link, MAX_LINKS);
      if target.Some? && target.value !in touched && IsRegular(fs, target.value) && fs.nodes[target.value].uid != env.agentUid {
        config := Scan(fs, files, config, done, target.value);
        done := done + {target.value};
      }
      FollowedNext(env, fs, touched, all, links, link, was, done, direct);
    }
    assert all - links == all;
    scanned := done;
  }

  /** Reads what survives `files`: the vhosts they write, the untouched files of both configuration
      directories, and the files their links lead to. */
  method LoadSurvivingConfig(env: Env, fs: Fs, files: seq<FileTarget>) returns (config: Config)
    ensures config == Surviving(env, fs, files)
  {
    ghost var touched := TargetPaths(files);
    config := Config(set f | f in files && f.kind.Vhost? && !f.delete :: f.content, {});
    assert config == Collect(fs, files, {});
    var direct, links, more := {}, {}, {};
    config, direct, links := ScanDir(env, fs, files, Available, config, {});
    if env.hasEnabled {
      config, direct, more := ScanDir(env, fs, files, Enabled, config, direct);
      links := links + more;
    }
    ghost var scanned;
    config, scanned := FollowLinks(env, fs, files, links, config, direct);
    SourcesScanned(env, fs, touched, links, direct, scanned);
    assert Collect(fs, files, scanned) == Collect(fs, files, set p | p in fs.nodes && IsSource(env, fs, touched, p));
  }

  lemma FollowedNext(
    env: Env, fs: Fs, touched: set<Path>, all: set<Path>, links: set<Path>, link: Path, was: set<Path>, now: set<Path>, direct: set<Path>)
    requires link in all && link !in links
    requires forall p :: p in was <==> p in direct || exists l | l in all - (links + {link}) :: LeadsTo(env, fs, touched, l, p)
    requires forall p :: p in now <==> p in was || LeadsTo(env, fs, touched, link, p)
    ensures forall p :: p in now <==> p in direct || exists l | l in all - links :: LeadsTo(env, fs, touched, l, p)
  {
    assert all - links == all - (links + {link}) + {link};
  }

  lemma SourcesScanned(env: Env, fs: Fs, touched: set<Path>, all: set<Path>, direct: set<Path>, scanned: set<Path>)
    requires forall p :: p in direct <==> p in fs.nodes && InConfigDir(env, p) && p !in touched && !fs.nodes[p].Symlink?
    requires forall l :: l in all <==> l in fs.nodes && InConfigDir(env, l) && l !in touched && fs.nodes[l].Symlink?
    requires forall p :: p in scanned <==> p in direct || exists l | l in all :: LeadsTo(env, fs, touched, l, p)
    ensures forall p | IsRegular(fs, p) :: p in scanned <==> IsSource(env, fs, touched, p)
  {
    forall p | IsRegular(fs, p) ensures p in scanned <==> IsSource(env, fs, touched, p) {
      if IsSource(env, fs, touched, p) && !InConfigDir(env, p) {
        var l :| l in fs.nodes && LeadsTo(env, fs, touched, l, p);
        assert l in all;
      }
    }
  }
}
