/** internal/provider/command.go: a provider whose full clean runs the
    configured shell command and whose smart clean trims files like
    `cache.Trim`. The subprocess is the `Host`'s `run`: what it prints, how it
    ends, and the file tree it leaves behind. */
module CommandProvider {
  import opened Common
  import opened Text
  import opened Scanner
  import opened Host
  import opened Config
  import opened ProviderBase
  import opened Sorting
  import opened Trimmer

  datatype CommandProvider = CommandProvider(base: BaseProvider, cleanCmd: string)

  /** `NewCommandProvider`: the base record, and the command kept verbatim. */
  function NewCommandProvider(name: string, cfg: ProviderConfig, host: Host): (r: Result<CommandProvider, Error>)
    ensures r.Ok? <==> NewBaseProvider(name, cfg, host).Ok?
    ensures r.Err? ==> r.error == NewBaseProvider(name, cfg, host).error
    ensures r.Ok? ==> r.value.base == NewBaseProvider(name, cfg, host).value && r.value.cleanCmd == cfg.cleanCmd
  {
    match NewBaseProvider(name, cfg, host)
    case Err(e) => Err(e)
    case Ok(base) => Ok(CommandProvider(base, cfg.cleanCmd))
  }

  /** The bytes a clean reports: how much the paths shrank, never negative. */
  function Reclaimed(before: int, after: int): (r: int)
    ensures r >= 0
    ensures after <= before ==> r == before - after
    ensures after >= before ==> r == 0
  {
    if before - after < 0 then 0 else before - after
  }

  /** Running `argv` and measuring the paths before and after: the combined
      output, trimmed, always; the run's error as is; the shrinkage only
      when the run succeeded. */
  function MeasuredRun(b: BaseProvider, host: Host, argv: seq<string>): (CleanResult, Option<Error>)
  {
    var outcome := host.run(argv);
    var output := TrimSpace(outcome.stdout + outcome.stderr);
    if outcome.err.Some? then (CleanResult(output, 0, 0), outcome.err)
    else
      var before := SizeOf(ScanEvents(host.fs, b.paths));
      var after := SizeOf(ScanEvents(outcome.after, b.paths));
      (CleanResult(output, Reclaimed(before, after), 0), None)
  }

  /** The run-and-measure tail shared by the command and docker providers. */
  method RunMeasured(b: BaseProvider, host: Host, argv: seq<string>) returns (result: CleanResult, err: Option<Error>)
    ensures (result, err) == MeasuredRun(b, host, argv)
  {
    var sizeBefore := CurrentSize(b, host);
    var outcome := host.run(argv);
    var output := TrimSpace(outcome.stdout + outcome.stderr);
    if outcome.err.Some? {
      return CleanResult(output, 0, 0), outcome.err;
    }
    var sizeAfter := CurrentSize(b, host.(fs := outcome.after));
    var bytesCleaned := sizeBefore.value - sizeAfter.value;
    if bytesCleaned < 0 {
      bytesCleaned := 0;
    }
    return CleanResult(output, bytesCleaned, 0), None;
  }

  /** What `fullClean` returns: a dry run only says what it would run; an
      unsplittable command is an "invalid command" error; an empty one does
      nothing; otherwise the split words are run. */
  function FullCleanOutcome(b: BaseProvider, cleanCmd: string, host: Host, dryRun: bool): (CleanResult, Option<Error>)
  {
    if dryRun then (CleanResult("would run: " + cleanCmd, 0, 0), None)
    else
      match host.split(cleanCmd)
      case Err(e) => (NoResult, Some(Wrapped("invalid command", e)))
      case Ok(parts) => if |parts| == 0 then (NoResult, None) else MeasuredRun(b, host, parts)
  }

  /** `fullClean` (shared with the docker provider, whose copy is the same). */
  method FullClean(b: BaseProvider, cleanCmd: string, host: Host, dryRun: bool)
    returns (result: CleanResult, err: Option<Error>)
    ensures (result, err) == FullCleanOutcome(b, cleanCmd, host, dryRun)
  {
    if dryRun {
      return CleanResult("would run: " + cleanCmd, 0, 0), None;
    }
    var parts := host.split(cleanCmd);
    if parts.Err? {
      return NoResult, Some(Wrapped("invalid command", parts.error));
    }
    if |parts.value| == 0 {
      return NoResult, None;
    }
    result, err := RunMeasured(b, host, parts.value);
  }

  /** A `TrimResult` as a `CleanResult`: an error drops the partial result,
      and the trim's warnings and removal errors are not carried over. */
  function FromTrim(t: (TrimResult, Option<Error>)): (r: (CleanResult, Option<Error>))
    ensures r.1 == t.1
    ensures t.1.Some? ==> r.0 == NoResult
    ensures t.1.None? ==> r.0 == CleanResult(t.0.output, t.0.freedBytes, t.0.deletedCount)
  {
    if t.1.Some? then (NoResult, t.1)
    else (CleanResult(t.0.output, t.0.freedBytes, t.0.deletedCount), None)
  }

  /** The options `smartClean` hands to `cache.Trim`: the provider's limits
      and the caller's dry-run flag. */
  function SmartTrimOptions(b: BaseProvider, opts: CleanOptions): TrimOptions
  {
    TrimOptions(b.maxSize, b.maxAge, opts.dryRun)
  }

  /** `smartClean`: `cache.Trim` over the provider's paths with its size and
      age limits. */
  method SmartClean(b: BaseProvider, host: Host, opts: CleanOptions, ctx: Context)
    returns (result: CleanResult, err: Option<Error>, ghost sorted: seq<FileInfo>)
    ensures var files := FilesOf(ScanEvents(host.fs, b.paths));
      && (files == [] ==> result == CleanResult("no files found", 0, 0) && err == None)
      && (files != [] ==>
          && SortedByModTime(sorted)
          && multiset(sorted) == multiset(files)
          && (result, err) == FromTrim(TrimOutcome(WarningsOf(ScanEvents(host.fs, b.paths)), SmartTrimOptions(b, opts), host.now, ctx, host.remove, host.fmt, sorted)))
  {
    var trimResult, trimErr;
    trimResult, trimErr, sorted := Trim(host.fs, b.paths, SmartTrimOptions(b, opts), host.now, ctx, host.remove, host.fmt);
    if trimErr.Some? {
      result, err := NoResult, trimErr;
    } else {
      result, err := CleanResult(trimResult.output, trimResult.freedBytes, trimResult.deletedCount), None;
    }
  }

  /** `Clean`: smart mode trims, full mode runs the command. */
  method Clean(p: CommandProvider, host: Host, opts: CleanOptions, ctx: Context)
    returns (result: CleanResult, err: Option<Error>, ghost sorted: seq<FileInfo>)
    ensures opts.mode == Full ==> (result, err) == FullCleanOutcome(p.base, p.cleanCmd, host, opts.dryRun)
    ensures opts.mode == Smart ==>
      var files := FilesOf(ScanEvents(host.fs, p.base.paths));
      && (files == [] ==> result == CleanResult("no files found", 0, 0) && err == None)
      && (files != [] ==>
          && SortedByModTime(sorted)
          && multiset(sorted) == multiset(files)
          && (result, err) == FromTrim(TrimOutcome(WarningsOf(ScanEvents(host.fs, p.base.paths)), SmartTrimOptions(p.base, opts), host.now, ctx, host.remove, host.fmt, sorted)))
  {
    sorted := [];
    if opts.mode == Smart {
      result, err, sorted := SmartClean(p.base, host, opts, ctx);
      return;
    }
    result, err := FullClean(p.base, p.cleanCmd, host, opts.dryRun);
  }

  // ---------------------------------------------------------------------
  // What a full clean guarantees.

  /** A dry run consults neither the shell-word splitter nor the subprocess:
      its answer is the same whatever the machine does. */
  lemma DryRunRunsNothing(b: BaseProvider, cleanCmd: string, h1: Host, h2: Host)
    ensures FullCleanOutcome(b, cleanCmd, h1, true) == FullCleanOutcome(b, cleanCmd, h2, true)
    ensures FullCleanOutcome(b, cleanCmd, h1, true).1.None?
  {
  }

  /** A real full clean that succeeds reports between zero and the paths'
      size before the run: exactly the shrinkage when they shrank. */
  lemma ReclaimedWithinBefore(b: BaseProvider, cleanCmd: string, host: Host)
    ensures var (r, err) := FullCleanOutcome(b, cleanCmd, host, false);
      var before := SizeOf(ScanEvents(host.fs, b.paths));
      err.None? ==> 0 <= r.bytesCleaned <= before && r.filesDeleted == 0
  {
  }

  /** A command the splitter rejects is reported as "invalid command: " and
      the splitter's own message. */
  lemma InvalidCommandText(b: BaseProvider, cleanCmd: string, host: Host)
    requires host.split(cleanCmd).Err?
    ensures var err := FullCleanOutcome(b, cleanCmd, host, false).1;
      err.Some? && ErrorText(err.value) == "invalid command: " + ErrorText(host.split(cleanCmd).error)
  {
  }
}
