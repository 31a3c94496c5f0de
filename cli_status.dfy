/** internal/cli/status.go: the `status` command. Every enabled provider
    whose paths exist is scanned (one goroutine per provider, each writing
    its own slot), then the statuses are reported as a JSON document or as a
    table with a total. The JSON encoding and the table's borders and colours
    are not modelled: the JSON report is the record that would be encoded,
    and the table is its rows of cell texts and the total line. */
module CliStatus {
  import opened Common
  import opened Text
  import opened Scanner
  import opened Host
  import opened Paths
  import opened Config
  import opened Sorting

  /** `ProviderStatus`. `error` is empty when the scan succeeded. */
  datatype ProviderStatus = ProviderStatus(name: string, currentFmt: string, maxFmt: string, error: string,
                                           current: int, max: int, overLimit: bool)

  /** `StatusOutput`. */
  datatype StatusOutput = StatusOutput(total: string, providers: seq<ProviderStatus>, totalBytes: int)

  /** `scanProvider`: parse the size limit, expand the paths, measure them.
      A failure stops the scan and is recorded in `error`; the limit stays
      recorded when only the expansion fails. A name the configuration lacks
      is scanned with empty settings. */
  function ScanProvider(c: Config, name: string, host: Host): (r: ProviderStatus)
    ensures r.name == name
    ensures r.error == "" <==> host.parseSize(GetProvider(c, name).0.maxSize).Ok? && ExpandAll(GetProvider(c, name).0.paths, host).Ok?
    ensures r.error == "" ==>
      var max := host.parseSize(GetProvider(c, name).0.maxSize).value;
      var current := SizeOf(ScanEvents(host.fs, ExpandAll(GetProvider(c, name).0.paths, host).value));
      && r.current == current && r.max == max
      && r.currentFmt == FormatSize(host.fmt, current) && r.maxFmt == FormatSize(host.fmt, max)
      && (r.overLimit <==> current > max)
    ensures r.error != "" ==> r.current == 0 && r.currentFmt == "" && !r.overLimit
    ensures host.parseSize(GetProvider(c, name).0.maxSize).Err? ==>
      r.error == "parse max_size: " + ErrorText(host.parseSize(GetProvider(c, name).0.maxSize).error) && r.maxFmt == ""
  {
    var prov := GetProvider(c, name).0;
    var status := ProviderStatus(name, "", "", "", 0, 0, false);
    match host.parseSize(prov.maxSize)
    case Err(e) => status.(error := "parse max_size: " + ErrorText(e))
    case Ok(maxBytes) =>
      var status := status.(max := maxBytes, maxFmt := FormatSize(host.fmt, maxBytes));
      match ExpandAll(prov.paths, host)
      case Err(e) => status.(error := "expand paths: " + ErrorText(e))
      case Ok(paths) =>
        var current := SizeOf(ScanEvents(host.fs, paths));
        status.(current := current, currentFmt := FormatSize(host.fmt, current), overLimit := current > maxBytes)
  }

  /** `scanProviders`: one status per name, each in the slot of its name.
      Each goroutine writes only its own slot, so the order they run in
      does not matter and the slots are filled here one after another. */
  method ScanProviders(c: Config, names: seq<string>, host: Host) returns (statuses: seq<ProviderStatus>)
    ensures |statuses| == |names|
    ensures forall i :: 0 <= i < |names| ==> statuses[i] == ScanProvider(c, names[i], host)
  {
    var slots := new ProviderStatus[|names|](i => ProviderStatus("", "", "", "", 0, 0, false));
    for i := 0 to |names|
      invariant forall j :: 0 <= j < i ==> slots[j] == ScanProvider(c, names[j], host)
    {
      slots[i] := ScanProvider(c, names[i], host);
    }
    statuses := slots[..];
  }

  /** The sum of the scanned sizes. */
  function TotalCurrent(statuses: seq<ProviderStatus>): int
  {
    if statuses == [] then 0 else TotalCurrent(statuses[..|statuses| - 1]) + statuses[|statuses| - 1].current
  }

  /** `outputJSON`: the record that is encoded. */
  method OutputJSON(statuses: seq<ProviderStatus>, fmt: Formatters) returns (out: StatusOutput)
    ensures out.providers == statuses
    ensures out.totalBytes == TotalCurrent(statuses) && out.total == FormatSize(fmt, out.totalBytes)
  {
    var total := 0;
    for i := 0 to |statuses|
      invariant total == TotalCurrent(statuses[..i])
    {
      assert statuses[..i + 1][..i] == statuses[..i];
      total := total + statuses[i].current;
    }
    assert statuses[..|statuses|] == statuses;
    out := StatusOutput(FormatSize(fmt, total), statuses, total);
  }

  /** The status column: an error wins over being over the limit. */
  function StatusWord(s: ProviderStatus): string
  {
    if s.error != "" then "error" else if s.overLimit then "OVER" else "ok"
  }

  /** A size cell, with "-" for a size a failed scan never filled in. */
  function Cell(s: ProviderStatus, text: string): string
  {
    if s.error != "" && text == "" then "-" else text
  }

  /** One table row: provider, current size, limit, status. */
  function Row(s: ProviderStatus): seq<string>
  {
    [s.name, Cell(s, s.currentFmt), Cell(s, s.maxFmt), StatusWord(s)]
  }

  /** `outputTable`: the rows under the header "Provider", "Current",
      "Max", "Status", and the total line printed after a blank line. */
  method OutputTable(statuses: seq<ProviderStatus>, fmt: Formatters) returns (rows: seq<seq<string>>, totalLine: string)
    ensures |rows| == |statuses| && forall i :: 0 <= i < |statuses| ==> rows[i] == Row(statuses[i])
    ensures totalLine == "Total: " + FormatSize(fmt, TotalCurrent(statuses))
  {
    rows := [];
    var total := 0;
    for i := 0 to |statuses|
      invariant |rows| == i && forall j :: 0 <= j < i ==> rows[j] == Row(statuses[j])
      invariant total == TotalCurrent(statuses[..i])
    {
      assert statuses[..i + 1][..i] == statuses[..i];
      var s := statuses[i];
      total := total + s.current;
      var statusText := "ok";
      if s.error != "" {
        statusText := "error";
      } else if s.overLimit {
        statusText := "OVER";
      }
      var currentFmt := s.currentFmt;
      var maxFmt := s.maxFmt;
      if s.error != "" {
        if currentFmt == "" {
          currentFmt := "-";
        }
        if maxFmt == "" {
          maxFmt := "-";
        }
      }
      rows := rows + [[s.name, currentFmt, maxFmt, statusText]];
    }
    assert statuses[..|statuses|] == statuses;
    totalLine := "Total: " + FormatSize(fmt, total);
  }

  /** What `status` reports. */
  datatype StatusReport =
    | NoneEnabled
    | Json(doc: StatusOutput)
    | Table(rows: seq<seq<string>>, totalLine: string)

  /** `runStatusWithLoader`: `loaded` is what loading (or creating) the
      configuration gave. */
  method RunStatus(loaded: Result<Config, Error>, host: Host, jsonOutput: bool)
    returns (r: Result<StatusReport, Error>, ghost names: seq<string>)
    ensures loaded.Err? ==> r == Err(Wrapped("load config", loaded.error))
    ensures loaded.Ok? ==>
      && StrictlySorted(names) && (forall name :: name in names <==> name in UsableNames(loaded.value, host))
      && r.Ok?
      && (names == [] <==> r.value.NoneEnabled?)
      && (names != [] ==>
          var statuses := seq(|names|, i requires 0 <= i < |names| => ScanProvider(loaded.value, names[i], host));
          if jsonOutput then
            r.value.Json? && r.value.doc.providers == statuses
            && r.value.doc.totalBytes == TotalCurrent(statuses)
            && r.value.doc.total == FormatSize(host.fmt, TotalCurrent(statuses))
          else
            r.value.Table? && |r.value.rows| == |statuses|
            && (forall i :: 0 <= i < |statuses| ==> r.value.rows[i] == Row(statuses[i]))
            && r.value.totalLine == "Total: " + FormatSize(host.fmt, TotalCurrent(statuses)))
  {
    names := [];
    if loaded.Err? {
      return Err(Wrapped("load config", loaded.error)), names;
    }
    var enabled := EnabledProviders(loaded.value, host);
    names := enabled;
    if |enabled| == 0 {
      return Ok(NoneEnabled), names;
    }
    var statuses := ScanProviders(loaded.value, enabled, host);
    ghost var expected := seq(|names|, i requires 0 <= i < |names| => ScanProvider(loaded.value, names[i], host));
    assert statuses == expected;
    if jsonOutput {
      var doc := OutputJSON(statuses, host.fmt);
      return Ok(Json(doc)), names;
    }
    var rows, totalLine := OutputTable(statuses, host.fmt);
    return Ok(Table(rows, totalLine)), names;
  }

  // ---------------------------------------------------------------------
  // What the report means.

  /** A provider is shown as "OVER" exactly when its size limit parses, its
      paths expand, and what they hold exceeds the limit; as "error" exactly
      when one of the first two fails. */
  lemma StatusWordOfScan(c: Config, name: string, host: Host)
    ensures var prov := GetProvider(c, name).0;
      var ok := host.parseSize(prov.maxSize).Ok? && ExpandAll(prov.paths, host).Ok?;
      var word := StatusWord(ScanProvider(c, name, host));
      && (word == "error" <==> !ok)
      && (word == "OVER" <==> ok && SizeOf(ScanEvents(host.fs, ExpandAll(prov.paths, host).value)) > host.parseSize(prov.maxSize).value)
  {
  }

  /** The total counts only the providers that were scanned: a failed scan
      contributes nothing. */
  lemma {:induction false} TotalOfScanned(statuses: seq<ProviderStatus>)
    requires forall i :: 0 <= i < |statuses| ==> statuses[i].error != "" ==> statuses[i].current == 0
    ensures TotalCurrent(statuses) == TotalCurrent(Scanned(statuses))
  {
    if statuses != [] {
      var front := statuses[..|statuses| - 1];
      var last := statuses[|statuses| - 1];
      assert forall i :: 0 <= i < |front| ==> front[i] == statuses[i];
      TotalOfScanned(front);
      if last.error == "" {
        assert Scanned(statuses) == Scanned(front) + [last];
        TotalCurrentSnoc(Scanned(front), last);
      } else {
        assert Scanned(statuses) == Scanned(front);
      }
    }
  }

  /** The statuses whose scan succeeded, in order. */
  function Scanned(statuses: seq<ProviderStatus>): seq<ProviderStatus>
  {
    if statuses == [] then []
    else
      var last := statuses[|statuses| - 1];
      Scanned(statuses[..|statuses| - 1]) + (if last.error == "" then [last] else [])
  }

  lemma TotalCurrentSnoc(s: seq<ProviderStatus>, x: ProviderStatus)
    ensures TotalCurrent(s + [x]) == TotalCurrent(s) + x.current
  {
    assert (s + [x])[..|s|] == s;
  }

  /** With no negative sizes, the total is at least each provider's size. */
  lemma {:induction false} TotalCoversEach(statuses: seq<ProviderStatus>, k: nat)
    requires forall i :: 0 <= i < |statuses| ==> statuses[i].current >= 0
    requires k < |statuses|
    ensures TotalCurrent(statuses) >= statuses[k].current
  {
    var front := statuses[..|statuses| - 1];
    if k < |front| {
      TotalCoversEach(front, k);
    } else {
      TotalNonNegative(front);
    }
  }

  lemma {:induction false} TotalNonNegative(statuses: seq<ProviderStatus>)
    requires forall i :: 0 <= i < |statuses| ==> statuses[i].current >= 0
    ensures TotalCurrent(statuses) >= 0
  {
    if statuses != [] {
      TotalNonNegative(statuses[..|statuses| - 1]);
    }
  }
}
