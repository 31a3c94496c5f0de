/** internal/provider/docker.go: a provider that only acts when the Docker
    daemon answers. Its smart clean prunes the buildx cache down to the
    provider's size limit; its full clean runs the configured command exactly
    as the command provider does. Whether `docker` is on the PATH and
    `docker ps` succeeds is the `Host`'s `dockerAvailable`. */
module Docker {
  import opened Common
  import opened Text
  import opened Scanner
  import opened Host
  import opened Config
  import opened ProviderBase
  import opened CommandProvider

  datatype DockerProvider = DockerProvider(base: BaseProvider, cleanCmd: string)

  /** `NewDockerProvider`: the base record, and the command kept verbatim. */
  function NewDockerProvider(name: string, cfg: ProviderConfig, host: Host): (r: Result<DockerProvider, Error>)
    ensures r.Ok? <==> NewBaseProvider(name, cfg, host).Ok?
    ensures r.Err? ==> r.error == NewBaseProvider(name, cfg, host).error
    ensures r.Ok? ==> r.value.base == NewBaseProvider(name, cfg, host).value && r.value.cleanCmd == cfg.cleanCmd
  {
    match NewBaseProvider(name, cfg, host)
    case Err(e) => Err(e)
    case Ok(base) => Ok(DockerProvider(base, cfg.cleanCmd))
  }

  /** The words of the prune command, keeping `keep` of build cache. */
  function PruneArgv(keep: string): seq<string>
  {
    ["docker", "buildx", "prune", "-af", "--keep-storage=" + keep]
  }

  /** The prune command as a dry run shows it. */
  function PruneText(keep: string): string
  {
    "docker buildx prune -af --keep-storage=" + keep
  }

  /** What `smartClean` returns: a dry run shows the prune command; a real
      run executes it and measures the paths around it. The storage kept is
      `maxSize` as `size.FormatSize` renders it. */
  function SmartCleanOutcome(b: BaseProvider, host: Host, dryRun: bool): (CleanResult, Option<Error>)
  {
    var keep := FormatSize(host.fmt, b.maxSize);
    if dryRun then (CleanResult("would run: " + PruneText(keep), 0, 0), None)
    else MeasuredRun(b, host, PruneArgv(keep))
  }

  /** `smartClean`. */
  method SmartClean(b: BaseProvider, host: Host, dryRun: bool) returns (result: CleanResult, err: Option<Error>)
    ensures (result, err) == SmartCleanOutcome(b, host, dryRun)
  {
    var keepStorage := FormatSize(host.fmt, b.maxSize);
    var smartCmd := PruneText(keepStorage);
    if dryRun {
      return CleanResult("would run: " + smartCmd, 0, 0), None;
    }
    result, err := RunMeasured(b, host, PruneArgv(keepStorage));
  }

  /** What `Clean` returns: nothing is done without a daemon; otherwise
      smart mode prunes and full mode runs the configured command. */
  function CleanOutcome(p: DockerProvider, host: Host, opts: CleanOptions): (CleanResult, Option<Error>)
  {
    if !host.dockerAvailable then (CleanResult("docker not available", 0, 0), None)
    else if opts.mode == Smart then SmartCleanOutcome(p.base, host, opts.dryRun)
    else FullCleanOutcome(p.base, p.cleanCmd, host, opts.dryRun)
  }

  /** `Clean`. */
  method Clean(p: DockerProvider, host: Host, opts: CleanOptions) returns (result: CleanResult, err: Option<Error>)
    ensures (result, err) == CleanOutcome(p, host, opts)
  {
    if !host.dockerAvailable {
      return CleanResult("docker not available", 0, 0), None;
    }
    if opts.mode == Smart {
      result, err := SmartClean(p.base, host, opts.dryRun);
      return;
    }
    result, err := FullClean(p.base, p.cleanCmd, host, opts.dryRun);
  }

  // ---------------------------------------------------------------------
  // What the docker provider guarantees.

  /** The command a dry run shows is exactly the words a real run executes,
      joined by spaces. */
  lemma PruneTextIsArgv(keep: string)
    ensures Join(PruneArgv(keep), " ") == PruneText(keep)
  {
    var argv := PruneArgv(keep);
    var last := "--keep-storage=" + keep;
    assert argv[1..][1..][1..][1..] == [last];
    var j3 := Join(argv[1..][1..][1..], " ");
    assert j3 == "-af " + last;
    var j2 := Join(argv[1..][1..], " ");
    assert j2 == "prune" + " " + j3 == "prune -af " + last;
    var j1 := Join(argv[1..], " ");
    assert j1 == "buildx" + " " + j2 == "buildx prune -af " + last;
    assert Join(argv, " ") == "docker" + " " + j1 == "docker buildx prune -af " + last;
    assert "docker buildx prune -af " + "--keep-storage=" == "docker buildx prune -af --keep-storage=";
  }

  /** Without a daemon, `Clean` reports that and nothing else, whatever the
      mode, the command or the rest of the machine. */
  lemma UnavailableIsInert(p: DockerProvider, q: DockerProvider, h1: Host, h2: Host, o1: CleanOptions, o2: CleanOptions)
    requires !h1.dockerAvailable && !h2.dockerAvailable
    ensures CleanOutcome(p, h1, o1) == CleanOutcome(q, h2, o2)
    ensures CleanOutcome(p, h1, o1).1.None? && CleanOutcome(p, h1, o1).0.output == "docker not available"
  {
  }

  /** A smart dry run runs nothing: its answer depends only on the size
      limit and how sizes are rendered, and a negative limit shows "0 B". */
  lemma SmartDryRunRunsNothing(b: BaseProvider, h1: Host, h2: Host)
    requires h1.fmt == h2.fmt
    ensures SmartCleanOutcome(b, h1, true) == SmartCleanOutcome(b, h2, true)
    ensures SmartCleanOutcome(b, h1, true).1.None?
    ensures b.maxSize < 0 ==>
      SmartCleanOutcome(b, h1, true).0.output == "would run: " + PruneText("0 B")
  {
  }

  /** A real prune that succeeds reports between zero and the paths' size
      before it, and never counts files. */
  lemma PruneReclaimedWithinBefore(b: BaseProvider, host: Host)
    ensures var (r, err) := SmartCleanOutcome(b, host, false);
      err.None? ==> 0 <= r.bytesCleaned <= SizeOf(ScanEvents(host.fs, b.paths)) && r.filesDeleted == 0
  {
    assert SmartCleanOutcome(b, host, false) == MeasuredRun(b, host, PruneArgv(FormatSize(host.fmt, b.maxSize)));
  }

  /** A failed prune reports its output with no bytes and passes the run's
      error through. */
  lemma PruneFailurePassesError(b: BaseProvider, host: Host)
    requires host.run(PruneArgv(FormatSize(host.fmt, b.maxSize))).err.Some?
    ensures var (r, err) := SmartCleanOutcome(b, host, false);
      var outcome := host.run(PruneArgv(FormatSize(host.fmt, b.maxSize)));
      err == outcome.err && r == CleanResult(TrimSpace(outcome.stdout + outcome.stderr), 0, 0)
  {
  }
}
