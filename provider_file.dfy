/** internal/provider/file.go: a provider over a plain cache directory that
    deletes the oldest files until the bytes over `maxSize` are covered. Age
    plays no part here. */
module FileProvider {
  import opened Common
  import opened Text
  import opened Scanner
  import opened Sorting
  import opened Trimmer
  import opened Host
  import opened ProviderBase

  /** One line of a dry run's report. */
  function DeleteLine(f: FileInfo, fmt: Formatters): string
  {
    "would delete: " + f.path + " (" + FormatSize(fmt, f.size) + ")\n"
  }

  function DeleteLines(files: seq<FileInfo>, fmt: Formatters): string
  {
    if files == [] then [] else DeleteLines(files[..|files| - 1], fmt) + DeleteLine(files[|files| - 1], fmt)
  }

  /** `fmt.Sprintf("%s: %v", f.Path, err)` for a failed removal. */
  function ErrorEntry(f: FileInfo, e: OsError): string
  {
    f.path + ": " + e.text
  }

  /** The entry a removal failure adds to the error list, if it fails. */
  function Failure(f: FileInfo, remove: string -> Option<OsError>): seq<string>
  {
    var err := remove(f.path);
    if err.Some? then [ErrorEntry(f, err.value)] else []
  }

  function ErrorEntries(files: seq<FileInfo>, remove: string -> Option<OsError>): seq<string>
  {
    if files == [] then [] else ErrorEntries(files[..|files| - 1], remove) + Failure(files[|files| - 1], remove)
  }

  /** The report of a real run: the count, then the errors if there are any. */
  function Summary(count: int, errors: seq<string>): string
  {
    "deleted " + Itoa(count) + " files"
      + (if |errors| > 0 then " (" + Itoa(|errors|) + " errors: " + Join(errors, "; ") + ")" else "")
  }

  /** Whether the files before index `i` account for the excess. */
  predicate Covered(files: seq<FileInfo>, i: nat, excess: int, dryRun: bool, remove: string -> Option<OsError>)
    requires i <= |files|
  {
    TotalSize(Counted(files[..i], dryRun, remove)) >= excess
  }

  /** Where the loop stops on its own, looking from file `k` on: the first
      index at which the bytes counted so far cover the excess, or the end. */
  function StopAt(files: seq<FileInfo>, excess: int, dryRun: bool, remove: string -> Option<OsError>, k: nat): (s: nat)
    requires k <= |files|
    ensures k <= s <= |files|
    decreases |files| - k
  {
    if k == |files| || Covered(files, k, excess, dryRun, remove) then k
    else StopAt(files, excess, dryRun, remove, k + 1)
  }

  /** The stop index is the first one, from `k` on, at which the excess is
      covered: not at any `j` before it, and at it unless it is the end. */
  lemma {:induction false} StopAtIsFirst(files: seq<FileInfo>, excess: int, dryRun: bool,
                                         remove: string -> Option<OsError>, k: nat, j: nat)
    requires k <= |files|
    ensures var s := StopAt(files, excess, dryRun, remove, k);
      && (k <= j < s ==> !Covered(files, j, excess, dryRun, remove))
      && (s < |files| ==> Covered(files, s, excess, dryRun, remove))
    decreases |files| - k
  {
    if k < |files| && !Covered(files, k, excess, dryRun, remove) {
      StopAtIsFirst(files, excess, dryRun, remove, k + 1, j);
    }
  }

  /** What the deletion loop returns over the sorted listing: it reaches
      the files before the stop index, unless a cancellation check finds the
      context done first. */
  function Sweep(files: seq<FileInfo>, excess: int, dryRun: bool, ctx: Context,
                 remove: string -> Option<OsError>, fmt: Formatters): (CleanResult, Option<Error>)
  {
    var s := StopAt(files, excess, dryRun, remove, 0);
    var n := ctx.Reached(s);
    var handled := Counted(files[..n], dryRun, remove);
    if n < s then
      (CleanResult("interrupted", TotalSize(handled), |handled|), Some(Canceled))
    else if dryRun then
      (CleanResult(DeleteLines(files[..s], fmt), TotalSize(handled), |handled|), None)
    else
      (CleanResult(Summary(|handled|, ErrorEntries(files[..s], remove)), TotalSize(handled), |handled|), None)
  }

  /** The result `FileProvider.Clean` builds from the deletion loop. */
  method DeleteOldest(files: seq<FileInfo>, excess: int, dryRun: bool, ctx: Context,
                      remove: string -> Option<OsError>, fmt: Formatters)
    returns (result: CleanResult, err: Option<Error>)
    ensures (result, err) == Sweep(files, excess, dryRun, ctx, remove, fmt)
  {
    var i, canceled, output, bytesDeleted, filesDeleted, deleteErrors := DeleteLoop(files, excess, dryRun, ctx, remove, fmt);
    if canceled {
      SweepCanceled(files, excess, i, dryRun, ctx, remove, fmt);
      return CleanResult("interrupted", bytesDeleted, filesDeleted), Some(Canceled);
    }
    StopAtFound(files, excess, dryRun, remove, 0, i);
    SweepFinished(files, excess, i, dryRun, ctx, remove, fmt);
    if dryRun {
      return CleanResult(output, bytesDeleted, filesDeleted), None;
    }
    return CleanResult(Summary(filesDeleted, deleteErrors), bytesDeleted, filesDeleted), None;
  }

  /** The deletion loop itself: it stops once the bytes counted cover the
      excess, at the end of the files, or when the cancellation check before
      file `i` finds the context done. */
  method DeleteLoop(files: seq<FileInfo>, excess: int, dryRun: bool, ctx: Context,
                    remove: string -> Option<OsError>, fmt: Formatters)
    returns (i: nat, canceled: bool, output: string, bytesDeleted: nat, filesDeleted: nat, deleteErrors: seq<string>)
    ensures i <= |files|
    ensures forall j :: 0 <= j < i ==> !Covered(files, j, excess, dryRun, remove)
    ensures canceled ==> i < |files| && ctx.doneFrom == Some(i) && !Covered(files, i, excess, dryRun, remove)
    ensures !canceled ==> (i == |files| || Covered(files, i, excess, dryRun, remove))
                          && (ctx.doneFrom.Some? ==> ctx.doneFrom.value >= i)
    ensures filesDeleted == |Counted(files[..i], dryRun, remove)|
    ensures bytesDeleted == TotalSize(Counted(files[..i], dryRun, remove))
    ensures dryRun ==> output == DeleteLines(files[..i], fmt)
    ensures !dryRun ==> deleteErrors == ErrorEntries(files[..i], remove)
  {
    bytesDeleted, filesDeleted, deleteErrors, output := 0, 0, [], "";
    canceled := false;
    i := 0;
    while i < |files|
      invariant i <= |files|
      invariant forall j :: 0 <= j < i ==> !Covered(files, j, excess, dryRun, remove)
      invariant ctx.doneFrom.Some? ==> ctx.doneFrom.value >= i
      invariant filesDeleted == |Counted(files[..i], dryRun, remove)|
      invariant bytesDeleted == TotalSize(Counted(files[..i], dryRun, remove))
      invariant dryRun ==> output == DeleteLines(files[..i], fmt)
      invariant !dryRun ==> deleteErrors == ErrorEntries(files[..i], remove)
      invariant !canceled
    {
      if bytesDeleted >= excess {
        break;
      }
      if ctx.DoneAt(i) {
        canceled := true;
        break;
      }
      output, bytesDeleted, filesDeleted, deleteErrors :=
        DeleteOne(files, i, dryRun, remove, fmt, output, bytesDeleted, filesDeleted, deleteErrors);
      i := i + 1;
    }
  }

  /** An index `i` before which the excess is never covered, and at which it
      is (or the files end), is the stop index. */
  lemma {:induction false} StopAtFound(files: seq<FileInfo>, excess: int, dryRun: bool,
                                       remove: string -> Option<OsError>, k: nat, i: nat)
    requires k <= i <= |files|
    requires forall j :: k <= j < i ==> !Covered(files, j, excess, dryRun, remove)
    requires i == |files| || Covered(files, i, excess, dryRun, remove)
    ensures StopAt(files, excess, dryRun, remove, k) == i
    decreases i - k
  {
    if k < i {
      StopAtFound(files, excess, dryRun, remove, k + 1, i);
    }
  }

  lemma LinesSnoc(files: seq<FileInfo>, f: FileInfo, remove: string -> Option<OsError>, fmt: Formatters)
    ensures DeleteLines(files + [f], fmt) == DeleteLines(files, fmt) + DeleteLine(f, fmt)
    ensures ErrorEntries(files + [f], remove) == ErrorEntries(files, remove) + Failure(f, remove)
  {
    assert (files + [f])[..|files|] == files;
  }

  lemma SweepCanceled(files: seq<FileInfo>, excess: int, i: nat, dryRun: bool, ctx: Context,
                      remove: string -> Option<OsError>, fmt: Formatters)
    requires i < |files| && ctx.doneFrom == Some(i)
    requires forall j :: 0 <= j < i ==> !Covered(files, j, excess, dryRun, remove)
    requires !Covered(files, i, excess, dryRun, remove)
    ensures var handled := Counted(files[..i], dryRun, remove);
      Sweep(files, excess, dryRun, ctx, remove, fmt)
        == (CleanResult("interrupted", TotalSize(handled), |handled|), Some(Canceled))
  {
    StopAtBeyond(files, excess, dryRun, remove, 0, i);
  }

  lemma {:induction false} StopAtBeyond(files: seq<FileInfo>, excess: int, dryRun: bool,
                                        remove: string -> Option<OsError>, k: nat, i: nat)
    requires k <= i < |files|
    requires forall j :: k <= j <= i ==> !Covered(files, j, excess, dryRun, remove)
    ensures StopAt(files, excess, dryRun, remove, k) > i
    decreases i - k
  {
    if k < i {
      StopAtBeyond(files, excess, dryRun, remove, k + 1, i);
    }
  }

  lemma SweepFinished(files: seq<FileInfo>, excess: int, i: nat, dryRun: bool, ctx: Context,
                      remove: string -> Option<OsError>, fmt: Formatters)
    requires i <= |files| && StopAt(files, excess, dryRun, remove, 0) == i
    requires ctx.doneFrom.Some? ==> ctx.doneFrom.value >= i
    ensures var handled := Counted(files[..i], dryRun, remove);
      Sweep(files, excess, dryRun, ctx, remove, fmt)
        == if dryRun then (CleanResult(DeleteLines(files[..i], fmt), TotalSize(handled), |handled|), None)
           else (CleanResult(Summary(|handled|, ErrorEntries(files[..i], remove)), TotalSize(handled), |handled|), None)
  {
  }

  /** The body of the deletion loop after the two checks: file `i` is
      listed (dry run) or removed, and the record of the files handled so far
      grows by one. */
  method DeleteOne(files: seq<FileInfo>, i: nat, dryRun: bool, remove: string -> Option<OsError>, fmt: Formatters,
                   output: string, bytesDeleted: nat, filesDeleted: nat, deleteErrors: seq<string>)
    returns (output': string, bytesDeleted': nat, filesDeleted': nat, deleteErrors': seq<string>)
    requires i < |files|
    requires filesDeleted == |Counted(files[..i], dryRun, remove)|
    requires bytesDeleted == TotalSize(Counted(files[..i], dryRun, remove))
    requires dryRun ==> output == DeleteLines(files[..i], fmt)
    requires !dryRun ==> deleteErrors == ErrorEntries(files[..i], remove)
    ensures filesDeleted' == |Counted(files[..i + 1], dryRun, remove)|
    ensures bytesDeleted' == TotalSize(Counted(files[..i + 1], dryRun, remove))
    ensures dryRun ==> output' == DeleteLines(files[..i + 1], fmt)
    ensures !dryRun ==> deleteErrors' == ErrorEntries(files[..i + 1], remove)
  {
    var f := files[i];
    assert files[..i + 1] == files[..i] + [f];
    RunSnoc(files[..i], f, dryRun, remove, 0, fmt);
    LinesSnoc(files[..i], f, remove, fmt);
    output', bytesDeleted', filesDeleted', deleteErrors' := output, bytesDeleted, filesDeleted, deleteErrors;
    if dryRun {
      output' := output + DeleteLine(f, fmt);
      bytesDeleted' := bytesDeleted + f.size;
      filesDeleted' := filesDeleted + 1;
      return;
    }
    var rerr := remove(f.path);
    if rerr.Some? {
      deleteErrors' := deleteErrors + [ErrorEntry(f, rerr.value)];
      return;
    }
    bytesDeleted' := bytesDeleted + f.size;
    filesDeleted' := filesDeleted + 1;
  }

  /** `FileProvider.Clean` once the current size and the listing are known:
      an error from either is returned with an empty result, a size within
      the limit changes nothing, and otherwise the listing, sorted oldest
      first into `sorted`, is swept for the bytes over the limit. The source
      sorts the `ListResult` itself; the model sorts its `Files`. */
  method CleanListed(current: Result<int, Error>, maxSize: int, listed: Result<seq<FileInfo>, Error>,
                     opts: CleanOptions, ctx: Context, remove: string -> Option<OsError>, fmt: Formatters)
    returns (result: CleanResult, err: Option<Error>, ghost sorted: seq<FileInfo>)
    ensures current.Err? ==> result == NoResult && err == Some(current.error)
    ensures current.Ok? && current.value <= maxSize ==>
      result == CleanResult("already under limit", 0, 0) && err.None?
    ensures current.Ok? && current.value > maxSize && listed.Err? ==>
      result == NoResult && err == Some(listed.error)
    ensures current.Ok? && current.value > maxSize && listed.Ok? ==>
      && SortedByModTime(sorted)
      && multiset(sorted) == multiset(listed.value)
      && (result, err) == Sweep(sorted, current.value - maxSize, opts.dryRun, ctx, remove, fmt)
  {
    sorted := [];
    if current.Err? {
      return NoResult, Some(current.error), sorted;
    }
    if current.value <= maxSize {
      return CleanResult("already under limit", 0, 0), None, sorted;
    }
    if listed.Err? {
      return NoResult, Some(listed.error), sorted;
    }
    var files := listed.value;
    var a := new FileInfo[|files|](i requires 0 <= i < |files| => files[i]);
    assert a[..] == files;
    SortByModTime(a);
    var byAge := a[..];
    sorted := byAge;
    result, err := DeleteOldest(byAge, current.value - maxSize, opts.dryRun, ctx, remove, fmt);
  }

  /** `FileProvider.Clean`: measure, list and sweep the provider's paths. */
  method Clean(p: BaseProvider, host: Host, opts: CleanOptions, ctx: Context)
    returns (result: CleanResult, err: Option<Error>, ghost sorted: seq<FileInfo>)
    ensures var current := SizeOf(ScanEvents(host.fs, p.paths));
      && (current <= p.maxSize ==> result == CleanResult("already under limit", 0, 0) && err.None?)
      && (current > p.maxSize ==>
          && SortedByModTime(sorted)
          && multiset(sorted) == multiset(FilesOf(ScanEvents(host.fs, p.paths)))
          && (result, err) == Sweep(sorted, current - p.maxSize, opts.dryRun, ctx, host.remove, host.fmt))
  {
    var current := CurrentSize(p, host);
    var listing := ListFiles(host.fs, p.paths);
    assert current.Ok? && current.value == SizeOf(ScanEvents(host.fs, p.paths));
    result, err, sorted := CleanListed(current, p.maxSize, Ok(listing.files), opts, ctx, host.remove, host.fmt);
  }

  // ---------------------------------------------------------------------
  // What the sweep guarantees.

  /** Unless interrupted, the sweep frees at least the excess or reaches
      every file; a dry run with enough bytes listed always frees the excess,
      and it takes no file more than needed to do so. */
  lemma SweepCoversExcess(files: seq<FileInfo>, excess: int, dryRun: bool, ctx: Context,
                          remove: string -> Option<OsError>, fmt: Formatters)
    ensures var (r, err) := Sweep(files, excess, dryRun, ctx, remove, fmt);
      var s := StopAt(files, excess, dryRun, remove, 0);
      && (err.None? ==> r.bytesCleaned >= excess || s == |files|)
      && (err.None? && dryRun && TotalSize(files) >= excess ==> r.bytesCleaned >= excess)
      && (err.None? && dryRun && r.filesDeleted > 0 ==> r.bytesCleaned - files[r.filesDeleted - 1].size < excess)
  {
    var s := StopAt(files, excess, dryRun, remove, 0);
    var (r, err) := Sweep(files, excess, dryRun, ctx, remove, fmt);
    StopAtIsFirst(files, excess, dryRun, remove, 0, if s > 0 then s - 1 else 0);
    if err.None? {
      assert ctx.Reached(s) == s;
      if dryRun {
        assert files[..|files|] == files;
        if s > 0 {
          assert files[..s][..s - 1] == files[..s - 1];
          assert TotalSize(files[..s - 1]) < excess;
        }
      }
    }
  }

  lemma {:induction false} EntriesAndRemovals(files: seq<FileInfo>, remove: string -> Option<OsError>)
    ensures |Removed(files, remove)| + |ErrorEntries(files, remove)| == |files|
  {
    if files != [] {
      EntriesAndRemovals(files[..|files| - 1], remove);
    }
  }

  /** A real run that is not interrupted accounts for every file it
      reached: each was either deleted or reported in the error list. */
  lemma ReachedFilesAccounted(files: seq<FileInfo>, excess: int, ctx: Context,
                              remove: string -> Option<OsError>, fmt: Formatters)
    ensures var (r, err) := Sweep(files, excess, false, ctx, remove, fmt);
      var s := StopAt(files, excess, false, remove, 0);
      err.None? ==> r.filesDeleted + |ErrorEntries(files[..s], remove)| == s
  {
    var s := StopAt(files, excess, false, remove, 0);
    EntriesAndRemovals(files[..s], remove);
  }

  /** Dropping the file at `k` takes its size off the total. */
  lemma TotalSizeWithout(b: seq<FileInfo>, k: nat)
    requires k < |b|
    ensures TotalSize(b) == TotalSize(b[..k] + b[k + 1..]) + b[k].size
  {
    var pre, post := b[..k], b[k + 1..];
    assert b == pre + b[k..];
    TotalSizeAppend(pre, b[k..]);
    TotalSizeCons(b[k..]);
    assert b[k..][1..] == post;
    TotalSizeAppend(pre, post);
  }

  /** Taking the same element out of two permutations of each other leaves two permutations. */
  lemma MultisetWithout(front: seq<FileInfo>, last: FileInfo, b: seq<FileInfo>, k: nat)
    requires k < |b| && b[k] == last
    requires multiset(front + [last]) == multiset(b)
    ensures multiset(front) == multiset(b[..k] + b[k + 1..])
  {
    var rest := b[..k] + b[k + 1..];
    assert b == b[..k] + [last] + b[k + 1..];
    assert multiset(b) == multiset(rest) + multiset{last};
    assert multiset(front + [last]) == multiset(front) + multiset{last};
    forall x
      ensures multiset(rest)[x] == multiset(front)[x]
    {
      assert (multiset(rest) + multiset{last})[x] == (multiset(front) + multiset{last})[x];
    }
  }

  lemma {:induction false} TotalSizeOfPermutation(a: seq<FileInfo>, b: seq<FileInfo>)
    requires multiset(a) == multiset(b)
    ensures TotalSize(a) == TotalSize(b)
  {
    if a == [] {
      assert |multiset(b)| == 0;
    } else {
      var front := a[..|a| - 1];
      var last := a[|a| - 1];
      assert a == front + [last];
      assert last in multiset(b);
      var k :| 0 <= k < |b| && b[k] == last;
      MultisetWithout(front, last, b, k);
      TotalSizeOfPermutation(front, b[..k] + b[k + 1..]);
      TotalSizeWithout(b, k);
    }
  }

  /** Over the provider's own paths, an uninterrupted dry run always frees
      at least the bytes over the limit: the listing holds exactly the bytes
      the size scan counted. */
  lemma DryRunReachesLimit(host: Host, p: BaseProvider, sorted: seq<FileInfo>, ctx: Context)
    requires p.maxSize >= 0
    requires multiset(sorted) == multiset(FilesOf(ScanEvents(host.fs, p.paths)))
    ensures var excess := SizeOf(ScanEvents(host.fs, p.paths)) - p.maxSize;
      var (r, err) := Sweep(sorted, excess, true, ctx, host.remove, host.fmt);
      err.None? ==> r.bytesCleaned >= excess
  {
    var evs := ScanEvents(host.fs, p.paths);
    var excess := SizeOf(evs) - p.maxSize;
    ListedSizesAddUp(evs);
    TotalSizeOfPermutation(sorted, FilesOf(evs));
    assert TotalSize(sorted) >= excess;
    SweepCoversExcess(sorted, excess, true, ctx, host.remove, host.fmt);
  }
}
