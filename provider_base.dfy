/** internal/provider/provider.go and internal/provider/base.go: the values
    every provider shares, and the record built from a provider's settings. */
module ProviderBase {
  import opened Common
  import opened Scanner
  import opened Host
  import opened Paths
  import opened Config

  /** `CleanMode`: Full is the zero value. */
  datatype CleanMode = Full | Smart

  datatype CleanOptions = CleanOptions(dryRun: bool, mode: CleanMode)

  datatype CleanResult = CleanResult(output: string, bytesCleaned: int, filesDeleted: int)

  /** The zero `CleanResult{}`. */
  const NoResult: CleanResult := CleanResult("", 0, 0)

  /** `BaseProvider`. The struct in base.go has no `maxAge` field, yet
      command.go and jetbrains.go read `p.maxAge`; the model gives the record
      that field, holding the duration the configured `max_age` stands for. */
  datatype BaseProvider = BaseProvider(name: string, paths: seq<string>, maxSize: int, maxAge: int)

  /** `NewBaseProvider`: the paths are expanded first and the size parsed
      second, so an expansion error wins; the accessors `Name`, `Paths` and
      `MaxSize` return exactly what is stored here. */
  function NewBaseProvider(name: string, cfg: ProviderConfig, host: Host): (r: Result<BaseProvider, Error>)
    ensures r.Ok? <==> ExpandAll(cfg.paths, host).Ok? && host.parseSize(cfg.maxSize).Ok?
    ensures ExpandAll(cfg.paths, host).Err? ==> r == Err(ExpandAll(cfg.paths, host).error)
    ensures ExpandAll(cfg.paths, host).Ok? && host.parseSize(cfg.maxSize).Err? ==>
      r == Err(host.parseSize(cfg.maxSize).error)
    ensures r.Ok? ==>
      && r.value.name == name
      && r.value.paths == ExpandAll(cfg.paths, host).value
      && r.value.maxSize == host.parseSize(cfg.maxSize).value
      && r.value.maxAge == host.maxAgeOf(cfg.maxAge)
  {
    match ExpandAll(cfg.paths, host)
    case Err(e) => Err(e)
    case Ok(paths) =>
      match host.parseSize(cfg.maxSize)
      case Err(e) => Err(e)
      case Ok(maxBytes) => Ok(BaseProvider(name, paths, maxBytes, host.maxAgeOf(cfg.maxAge)))
  }

  /** `CurrentSize`: the scanner's total over exactly the stored paths. The
      source returns the `ScanResult` where an `int64` is expected; the model
      returns its `Size`. The scan never fails, so the error is never set. */
  method CurrentSize(b: BaseProvider, host: Host) returns (r: Result<int, Error>)
    ensures r == Ok(SizeOf(ScanEvents(host.fs, b.paths)))
  {
    var scan := CalculateSize(host.fs, b.paths);
    return Ok(scan.size);
  }
}
