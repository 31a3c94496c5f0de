/** internal/provider/registry.go and the `Provider` interface of
    internal/provider/provider.go: which kind of provider a configured name
    becomes, loading one or all of them, and dispatching the interface's
    methods to the kind. */
module Registry {
  import opened Common
  import opened Text
  import opened Scanner
  import opened Host
  import opened Config
  import opened Sorting
  import opened ProviderBase
  import opened Trimmer
  import FileProvider
  import JetBrains
  import opened Defaults
  import CommandProvider
  import Docker

  /** A loaded provider: one case per implementation of the interface. */
  datatype Provider =
    | DockerP(docker: Docker.DockerProvider)
    | JetBrainsP(jetbrains: BaseProvider)
    | FileP(file: BaseProvider)
    | CommandP(command: CommandProvider.CommandProvider)

  /** The names that clean by deleting files. */
  const FileBased: set<string> := {"uv", "xcode-deriveddata", "xcode-archives", "cargo", "gradle"}

  /** A name with no implementation of its own, which then needs a command. */
  predicate Unknown(name: string)
  {
    name != "docker" && name != "jetbrains" && name !in FileBased
  }

  /** The shared record behind every kind. */
  function BaseOf(p: Provider): BaseProvider
  {
    match p
    case DockerP(d) => d.base
    case JetBrainsP(b) => b
    case FileP(b) => b
    case CommandP(c) => c.base
  }

  /** `Available`: only docker asks the machine; every other kind is always available. */
  predicate Available(p: Provider, host: Host)
  {
    p.DockerP? ==> host.dockerAvailable
  }

  /** `NewProvider`: docker, jetbrains and the file-based names have their
      own kinds; any other name needs a `clean_cmd` (and is refused before
      its settings are even looked at) and becomes a command provider. */
  function NewProvider(name: string, cfg: ProviderConfig, host: Host): (r: Result<Provider, Error>)
    ensures Unknown(name) && cfg.cleanCmd == "" ==>
      r == Err(Message("unknown provider " + Quote(name) + " requires clean_cmd"))
    ensures !(Unknown(name) && cfg.cleanCmd == "") ==>
      && (r.Ok? <==> NewBaseProvider(name, cfg, host).Ok?)
      && (r.Err? ==> r.error == NewBaseProvider(name, cfg, host).error)
    ensures r.Ok? ==> BaseOf(r.value) == NewBaseProvider(name, cfg, host).value && BaseOf(r.value).name == name
    ensures r.Ok? ==>
      && (r.value.DockerP? <==> name == "docker")
      && (r.value.JetBrainsP? <==> name == "jetbrains")
      && (r.value.FileP? <==> name in FileBased)
      && (r.value.CommandP? <==> Unknown(name))
    ensures r.Ok? && r.value.DockerP? ==> r.value.docker.cleanCmd == cfg.cleanCmd
    ensures r.Ok? && r.value.CommandP? ==> r.value.command.cleanCmd == cfg.cleanCmd != ""
  {
    if name == "docker" then
      match Docker.NewDockerProvider(name, cfg, host)
      case Err(e) => Err(e)
      case Ok(d) => Ok(DockerP(d))
    else if name == "jetbrains" then
      match NewBaseProvider(name, cfg, host)
      case Err(e) => Err(e)
      case Ok(b) => Ok(JetBrainsP(b))
    else if name in FileBased then
      match NewBaseProvider(name, cfg, host)
      case Err(e) => Err(e)
      case Ok(b) => Ok(FileP(b))
    else if cfg.cleanCmd == "" then
      Err(Message("unknown provider " + Quote(name) + " requires clean_cmd"))
    else
      match CommandProvider.NewCommandProvider(name, cfg, host)
      case Err(e) => Err(e)
      case Ok(c) => Ok(CommandP(c))
  }

  /** `LoadProvider`: a name the configuration lacks is "not found";
      otherwise the provider its settings make. */
  function LoadProvider(name: string, c: Config, host: Host): (r: Result<Provider, Error>)
    ensures name !in c.providers ==> r == Err(Message("provider " + Quote(name) + " not found"))
    ensures name in c.providers ==> r == NewProvider(name, c.providers[name], host)
    ensures r.Ok? ==> BaseOf(r.value).name == name
  {
    var (provCfg, ok) := GetProvider(c, name);
    if !ok then Err(Message("provider " + Quote(name) + " not found"))
    else NewProvider(name, provCfg, host)
  }

  /** The outcome of the loop of `LoadProviders` over `names`: the providers
      in the order of the names, or the first failure, wrapped with its name.
      A name the configuration lacks is skipped. */
  function LoadAll(names: seq<string>, c: Config, host: Host): Result<seq<Provider>, Error>
  {
    if names == [] then Ok([])
    else
      var name := names[|names| - 1];
      match LoadAll(names[..|names| - 1], c, host)
      case Err(e) => Err(e)
      case Ok(prev) =>
        if name !in c.providers then Ok(prev)
        else
          match NewProvider(name, c.providers[name], host)
          case Err(e) => Err(Wrapped("provider " + Quote(name), e))
          case Ok(p) => Ok(prev + [p])
  }

  /** `LoadProviders`: every enabled provider whose paths exist, in name
      order. */
  method LoadProviders(c: Config, host: Host) returns (r: Result<seq<Provider>, Error>, ghost names: seq<string>)
    ensures StrictlySorted(names) && forall name :: name in names <==> name in UsableNames(c, host)
    ensures r == LoadAll(names, c, host)
  {
    var enabled := EnabledProviders(c, host);
    names := enabled;
    var providers: seq<Provider> := [];
    for i := 0 to |enabled|
      invariant LoadAll(enabled[..i], c, host) == Ok(providers)
    {
      assert enabled[..i + 1][..i] == enabled[..i];
      var name := enabled[i];
      var (provCfg, ok) := GetProvider(c, name);
      if !ok {
        continue;
      }
      var p := NewProvider(name, provCfg, host);
      if p.Err? {
        LoadAllFailedPrefix(enabled, i + 1, c, host);
        return Err(Wrapped("provider " + Quote(name), p.error)), names;
      }
      providers := providers + [p.value];
    }
    assert enabled[..|enabled|] == enabled;
    return Ok(providers), names;
  }

  /** Once a prefix of the names fails to load, loading all of them fails the same way. */
  lemma {:induction false} LoadAllFailedPrefix(names: seq<string>, k: nat, c: Config, host: Host)
    requires k <= |names| && LoadAll(names[..k], c, host).Err?
    ensures LoadAll(names, c, host) == LoadAll(names[..k], c, host)
    decreases |names| - k
  {
    if k < |names| {
      var n := |names| - 1;
      assert names[..n][..k] == names[..k];
      LoadAllFailedPrefix(names[..n], k, c, host);
    } else {
      assert names[..k] == names;
    }
  }

  /** Loaded providers come in the order of their names, one per configured
      name, each named after it. */
  lemma {:induction false} LoadAllNamed(names: seq<string>, c: Config, host: Host)
    requires forall i :: 0 <= i < |names| ==> names[i] in c.providers
    requires LoadAll(names, c, host).Ok?
    ensures |LoadAll(names, c, host).value| == |names|
    ensures forall i :: 0 <= i < |names| ==> BaseOf(LoadAll(names, c, host).value[i]).name == names[i]
  {
    if names != [] {
      var n := |names| - 1;
      LoadAllNamed(names[..n], c, host);
    }
  }

  /** Loading fails exactly when some configured name's provider fails, and
      then with the first such failure, named. */
  lemma {:induction false} LoadAllFails(names: seq<string>, c: Config, host: Host)
    ensures LoadAll(names, c, host).Err? <==>
      exists i :: 0 <= i < |names| && names[i] in c.providers && NewProvider(names[i], c.providers[names[i]], host).Err?
    ensures LoadAll(names, c, host).Err? ==>
      exists i :: 0 <= i < |names| && names[i] in c.providers && NewProvider(names[i], c.providers[names[i]], host).Err?
        && LoadAll(names, c, host).error == Wrapped("provider " + Quote(names[i]), NewProvider(names[i], c.providers[names[i]], host).error)
  {
    if names != [] {
      var n := |names| - 1;
      var front := names[..n];
      LoadAllFails(front, c, host);
      assert forall j :: 0 <= j < n ==> front[j] == names[j];
      if LoadAll(front, c, host).Err? {
        var i :| 0 <= i < n && front[i] in c.providers && NewProvider(front[i], c.providers[front[i]], host).Err?
          && LoadAll(front, c, host).error == Wrapped("provider " + Quote(front[i]), NewProvider(front[i], c.providers[front[i]], host).error);
        assert names[i] == front[i];
      } else if names[n] in c.providers && NewProvider(names[n], c.providers[names[n]], host).Err? {
      } else {
        forall i | 0 <= i < |names| && names[i] in c.providers
          ensures NewProvider(names[i], c.providers[names[i]], host).Ok?
        {
          if i < n {
            assert names[i] == front[i];
          }
        }
      }
    }
  }

  /** Every built-in default loads as soon as its paths expand and its size
      parses: uv and jetbrains have no command, but neither needs one, and
      every other default has one. */
  lemma DefaultsLoad(name: string, host: Host)
    requires name in DefaultNames && NewBaseProvider(name, DefaultProviders()[name], host).Ok?
    ensures NewProvider(name, DefaultProviders()[name], host).Ok?
    ensures name == "uv" ==> NewProvider(name, DefaultProviders()[name], host).value.FileP?
    ensures name == "jetbrains" ==> NewProvider(name, DefaultProviders()[name], host).value.JetBrainsP?
  {
    DefaultsWithoutCleanCmd();
  }

  // ---------------------------------------------------------------------
  // Dispatching `Clean`.

  /** What the command provider's `Clean` may return: the listing is sorted
      oldest first, and files with equal times may come in either order. */
  ghost predicate CommandCleanAllows(cp: CommandProvider.CommandProvider, host: Host, opts: CleanOptions, ctx: Context,
                                     out: (CleanResult, Option<Error>))
  {
    if opts.mode == Full then out == CommandProvider.FullCleanOutcome(cp.base, cp.cleanCmd, host, opts.dryRun)
    else
      var files := FilesOf(ScanEvents(host.fs, cp.base.paths));
      if files == [] then out == (CleanResult("no files found", 0, 0), None)
      else exists sorted :: (SortedByModTime(sorted) && multiset(sorted) == multiset(files)
                             && out == CommandProvider.FromTrim(TrimOutcome(
                                         WarningsOf(ScanEvents(host.fs, cp.base.paths)),
                                         CommandProvider.SmartTrimOptions(cp.base, opts),
                                         host.now, ctx, host.remove, host.fmt, sorted)))
  }

  /** What the file provider's `Clean` may return, for the same reason. */
  ghost predicate FileCleanAllows(b: BaseProvider, host: Host, opts: CleanOptions, ctx: Context,
                                  out: (CleanResult, Option<Error>))
  {
    var current := SizeOf(ScanEvents(host.fs, b.paths));
    if current <= b.maxSize then out == (CleanResult("already under limit", 0, 0), None)
    else exists sorted :: (SortedByModTime(sorted) && multiset(sorted) == multiset(FilesOf(ScanEvents(host.fs, b.paths)))
                           && out == FileProvider.Sweep(sorted, current - b.maxSize, opts.dryRun, ctx, host.remove, host.fmt))
  }

  /** What the JetBrains provider's `Clean` may return: the products' map
      is walked in no fixed order. */
  ghost predicate JetBrainsCleanAllows(b: BaseProvider, host: Host, opts: CleanOptions, ctx: Context,
                                       out: (CleanResult, Option<Error>))
  {
    match JetBrains.Collected(b.paths, host)
    case Err(e) => out == (NoResult, Some(e))
    case Ok(all) =>
      exists removed, kept :: (JetBrains.KeepsLatest(all, removed, kept)
                               && out == JetBrains.CleanDirsOutcome(host, JetBrains.Selected(b, host, opts, JetBrains.PathsOf(removed)),
                                                                    opts.dryRun, ctx))
  }

  /** What each kind's `Clean` may return. */
  ghost predicate CleanAllows(p: Provider, host: Host, opts: CleanOptions, ctx: Context, out: (CleanResult, Option<Error>))
  {
    match p
    case DockerP(d) => out == Docker.CleanOutcome(d, host, opts)
    case CommandP(cp) => CommandCleanAllows(cp, host, opts, ctx, out)
    case FileP(b) => FileCleanAllows(b, host, opts, ctx, out)
    case JetBrainsP(b) => JetBrainsCleanAllows(b, host, opts, ctx, out)
  }

  /** `p.Clean(ctx, opts)`. */
  method Clean(p: Provider, host: Host, opts: CleanOptions, ctx: Context) returns (result: CleanResult, err: Option<Error>)
    ensures CleanAllows(p, host, opts, ctx, (result, err))
  {
    match p
    case DockerP(d) =>
      result, err := Docker.Clean(d, host, opts);
    case CommandP(cp) =>
      result, err := CommandClean(cp, host, opts, ctx);
    case FileP(b) =>
      result, err := FileClean(b, host, opts, ctx);
    case JetBrainsP(b) =>
      result, err := JetBrainsClean(b, host, opts, ctx);
  }

  method CommandClean(cp: CommandProvider.CommandProvider, host: Host, opts: CleanOptions, ctx: Context)
    returns (result: CleanResult, err: Option<Error>)
    ensures CommandCleanAllows(cp, host, opts, ctx, (result, err))
  {
    ghost var sorted;
    result, err, sorted := CommandProvider.Clean(cp, host, opts, ctx);
  }

  method FileClean(b: BaseProvider, host: Host, opts: CleanOptions, ctx: Context)
    returns (result: CleanResult, err: Option<Error>)
    ensures FileCleanAllows(b, host, opts, ctx, (result, err))
  {
    ghost var sorted;
    result, err, sorted := FileProvider.Clean(b, host, opts, ctx);
  }

  method JetBrainsClean(b: BaseProvider, host: Host, opts: CleanOptions, ctx: Context)
    returns (result: CleanResult, err: Option<Error>)
    ensures JetBrainsCleanAllows(b, host, opts, ctx, (result, err))
  {
    ghost var removed, kept;
    result, err, removed, kept := JetBrains.Clean(b, host, opts, ctx);
  }
}
