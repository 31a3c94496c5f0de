/** internal/cache/trimmer.go: trimming a cache directory by age and size.
    Files modified before `now - maxAge` are marked first; if the rest still
    exceeds 90% of `maxSize`, the oldest of the rest are marked until it fits.
    The marked files are then removed (or listed, in a dry run), with a
    cancellation check before each one. */
module Trimmer {
  import opened Common
  import opened Text
  import opened CacheErrors
  import opened Scanner
  import opened Sorting

  datatype TrimOptions = TrimOptions(maxSize: int, maxAge: int, dryRun: bool)

  datatype TrimResult = TrimResult(output: string, errors: seq<AccessError>, deletedCount: nat, freedBytes: nat)

  /** `int64(float64(maxSize) * 0.9)`: 10% headroom below the limit, the
      fractional part dropped. */
  function TrimTarget(maxSize: int): (t: int)
    ensures maxSize >= 0 ==> 0 <= t <= maxSize && 10 * t <= 9 * maxSize < 10 * t + 10
    ensures maxSize < 0 ==> maxSize <= t <= 0
  {
    if maxSize >= 0 then maxSize * 9 / 10 else -((-maxSize) * 9 / 10)
  }

  // ---------------------------------------------------------------------
  // The deletion plan.

  /** Phase 1: the files modified before the cutoff, in listing order. */
  function Aged(files: seq<FileInfo>, cutoff: int): seq<FileInfo>
  {
    if files == [] then []
    else
      var last := files[|files| - 1];
      Aged(files[..|files| - 1], cutoff) + (if last.modTime < cutoff then [last] else [])
  }

  /** The files phase 1 keeps, in listing order. */
  function Fresh(files: seq<FileInfo>, cutoff: int): seq<FileInfo>
  {
    if files == [] then []
    else
      var last := files[|files| - 1];
      Fresh(files[..|files| - 1], cutoff) + (if last.modTime < cutoff then [] else [last])
  }

  /** Phase 2: how many of the kept files, from the front, are marked so that
      the rest fits within the target. */
  function TakeCount(kept: seq<FileInfo>, target: int): (k: nat)
    ensures k <= |kept|
  {
    if kept == [] || TotalSize(kept) <= target then 0 else 1 + TakeCount(kept[1..], target)
  }

  /** Everything marked for deletion, in the order it is deleted. */
  function Marked(files: seq<FileInfo>, cutoff: int, target: int): seq<FileInfo>
  {
    var kept := Fresh(files, cutoff);
    Aged(files, cutoff) + kept[..TakeCount(kept, target)]
  }

  lemma {:induction false} TotalSizeAppend(a: seq<FileInfo>, b: seq<FileInfo>)
    ensures TotalSize(a + b) == TotalSize(a) + TotalSize(b)
  {
    if b == [] {
      assert a + b == a;
    } else {
      var b' := b[..|b| - 1];
      assert (a + b)[..|a + b| - 1] == a + b';
      TotalSizeAppend(a, b');
    }
  }

  lemma TotalSizeCons(s: seq<FileInfo>)
    requires s != []
    ensures TotalSize(s) == s[0].size + TotalSize(s[1..])
  {
    assert s == [s[0]] + s[1..];
    TotalSizeAppend([s[0]], s[1..]);
    assert [s[0]][..0] == [];
  }

  /** One more file extends the aged or the kept files, and the kept bytes. */
  lemma AgeStep(files: seq<FileInfo>, i: nat, cutoff: int)
    requires i < |files|
    ensures files[i].modTime < cutoff ==>
      && Aged(files[..i + 1], cutoff) == Aged(files[..i], cutoff) + [files[i]]
      && Fresh(files[..i + 1], cutoff) == Fresh(files[..i], cutoff)
    ensures files[i].modTime >= cutoff ==>
      && Aged(files[..i + 1], cutoff) == Aged(files[..i], cutoff)
      && Fresh(files[..i + 1], cutoff) == Fresh(files[..i], cutoff) + [files[i]]
      && TotalSize(Fresh(files[..i + 1], cutoff)) == TotalSize(Fresh(files[..i], cutoff)) + files[i].size
  {
    var p := files[..i + 1];
    assert p[..|p| - 1] == files[..i];
    assert p[|p| - 1] == files[i];
    if files[i].modTime >= cutoff {
      var kept := Fresh(files[..i], cutoff);
      assert Fresh(p, cutoff) == kept + [files[i]];
      assert (kept + [files[i]])[..|kept|] == kept;
      assert TotalSize(kept + [files[i]]) == TotalSize(kept) + files[i].size;
    } else {
      assert Fresh(files[..i], cutoff) + [] == Fresh(files[..i], cutoff);
    }
  }

  /** One more file taken in phase 2 counts towards TakeCount and leaves the
      rest its bytes lighter. */
  lemma TakeStep(kept: seq<FileInfo>, taken: nat, target: int)
    requires taken < |kept| && TotalSize(kept[taken..]) > target
    ensures TakeCount(kept[taken..], target) == 1 + TakeCount(kept[taken + 1..], target)
    ensures TotalSize(kept[taken + 1..]) == TotalSize(kept[taken..]) - kept[taken].size
  {
    TotalSizeCons(kept[taken..]);
    assert kept[taken..][1..] == kept[taken + 1..];
  }

  /** Phase 1 (trimmer.go:69-76): the aged files, and the
      bytes of the kept ones. */
  method AgePhase(files: seq<FileInfo>, cutoff: int) returns (aged: seq<FileInfo>, remainingSize: int)
    ensures aged == Aged(files, cutoff)
    ensures remainingSize == TotalSize(Fresh(files, cutoff))
  {
    aged := [];
    remainingSize := 0;
    for i := 0 to |files|
      invariant aged == Aged(files[..i], cutoff)
      invariant remainingSize == TotalSize(Fresh(files[..i], cutoff))
    {
      AgeStep(files, i, cutoff);
      if files[i].modTime < cutoff {
        aged := aged + [files[i]];
      } else {
        remainingSize := remainingSize + files[i].size;
      }
    }
    assert files[..|files|] == files;
  }

  /** The first loop of phase 2 (trimmer.go:80-86): the kept files, in order. */
  method KeptFiles(files: seq<FileInfo>, cutoff: int) returns (remaining: seq<FileInfo>)
    ensures remaining == Fresh(files, cutoff)
  {
    remaining := [];
    for i := 0 to |files|
      invariant remaining == Fresh(files[..i], cutoff)
    {
      AgeStep(files, i, cutoff);
      if files[i].modTime < cutoff {
        continue;
      }
      remaining := remaining + [files[i]];
    }
    assert files[..|files|] == files;
  }

  /** The second loop of phase 2 (trimmer.go:88-94): the oldest kept files are taken until the
      rest fits within the target. */
  method SizePhase(remaining: seq<FileInfo>, remainingSize: int, target: int) returns (taken: nat)
    requires remainingSize == TotalSize(remaining)
    ensures taken == TakeCount(remaining, target)
  {
    assert remaining[0..] == remaining;
    taken := 0;
    var size := remainingSize;
    while taken < |remaining|
      invariant taken <= |remaining|
      invariant size == TotalSize(remaining[taken..])
      invariant TakeCount(remaining, target) == taken + TakeCount(remaining[taken..], target)
    {
      if size <= target {
        return;
      }
      TakeStep(remaining, taken, target);
      size := size - remaining[taken].size;
      taken := taken + 1;
    }
  }

  /** Phase 1 and phase 2 of `Trim` (trimmer.go:65-95). */
  method MarkForDeletion(files: seq<FileInfo>, cutoff: int, target: int) returns (toDelete: seq<FileInfo>)
    ensures toDelete == Marked(files, cutoff, target)
  {
    var remainingSize;
    toDelete, remainingSize := AgePhase(files, cutoff);
    if remainingSize > target {
      var remaining := KeptFiles(files, cutoff);
      var taken := SizePhase(remaining, remainingSize, target);
      toDelete := toDelete + remaining[..taken];
    } else {
      assert TakeCount(Fresh(files, cutoff), target) == 0;
      assert Fresh(files, cutoff)[..0] == [];
    }
  }

  // ---------------------------------------------------------------------
  // Executing the plan.

  /** The marked files `os.Remove` deletes. */
  function Removed(files: seq<FileInfo>, remove: string -> Option<OsError>): seq<FileInfo>
  {
    if files == [] then []
    else
      var last := files[|files| - 1];
      Removed(files[..|files| - 1], remove) + (if remove(last.path).None? then [last] else [])
  }

  /** The classified error of a file whose removal fails; nothing otherwise. */
  function Failed(f: FileInfo, remove: string -> Option<OsError>): seq<AccessError>
  {
    var err := remove(f.path);
    if err.Some? then [ClassifyError(f.path, err)] else []
  }

  /** The classified errors of the removals that fail, in order. */
  function Failures(files: seq<FileInfo>, remove: string -> Option<OsError>): seq<AccessError>
  {
    if files == [] then []
    else
      var last := files[|files| - 1];
      Failures(files[..|files| - 1], remove) + Failed(last, remove)
  }

  /** One line of a dry run's report. */
  function DryRunLine(f: FileInfo, now: int, fmt: Formatters): string
  {
    "would delete: " + f.path + " (" + FormatSize(fmt, f.size) + ", age: "
      + fmt.duration(Truncate(now - f.modTime, Hour)) + ")\n"
  }

  function DryRunText(files: seq<FileInfo>, now: int, fmt: Formatters): string
  {
    if files == [] then [] else DryRunText(files[..|files| - 1], now, fmt) + DryRunLine(files[|files| - 1], now, fmt)
  }

  /** The files a run counts as deleted: all it reaches in a dry run, only
      those `os.Remove` deletes otherwise. */
  function Counted(files: seq<FileInfo>, dryRun: bool, remove: string -> Option<OsError>): seq<FileInfo>
  {
    if dryRun then files else Removed(files, remove)
  }

  /** What executing the plan returns: the counts cover the files handled
      before any cancellation; a dry run reports the lines it would act on and
      drops the scan warnings; a real run counts only successful removals and
      reports scan warnings followed by the classified removal failures. */
  function Execution(marked: seq<FileInfo>, warnings: seq<AccessError>, dryRun: bool, ctx: Context,
                     remove: string -> Option<OsError>, now: int, fmt: Formatters): (TrimResult, Option<Error>)
  {
    var n := ctx.Reached(|marked|);
    var handled := Counted(marked[..n], dryRun, remove);
    if n < |marked| then
      (TrimResult("interrupted", [], |handled|, TotalSize(handled)), Some(Canceled))
    else if dryRun then
      (TrimResult(DryRunText(marked, now, fmt), [], |handled|, TotalSize(handled)), None)
    else
      (TrimResult("deleted " + Itoa(|handled|) + " files", warnings + Failures(marked, remove), |handled|, TotalSize(handled)), None)
  }

  /** The deletion loop of `Trim` and the result it builds (trimmer.go:98-131). */
  method ExecuteDeletions(toDelete: seq<FileInfo>, warnings: seq<AccessError>, dryRun: bool, ctx: Context,
                          remove: string -> Option<OsError>, now: int, fmt: Formatters)
    returns (result: TrimResult, err: Option<Error>)
    ensures (result, err) == Execution(toDelete, warnings, dryRun, ctx, remove, now, fmt)
  {
    var cancelled, output, freed, count, deleteErrors := DeletionLoop(toDelete, warnings, dryRun, ctx, remove, now, fmt);
    if cancelled {
      CanceledAt(toDelete, ctx.Reached(|toDelete|), warnings, dryRun, ctx, remove, now, fmt);
      return TrimResult("interrupted", [], count, freed), Some(Canceled);
    }
    RanToEnd(toDelete, warnings, dryRun, ctx, remove, now, fmt);
    if dryRun {
      return TrimResult(output, [], count, freed), None;
    }
    return TrimResult("deleted " + Itoa(count) + " files", deleteErrors, count, freed), None;
  }

  /** The loop over the files to delete (trimmer.go:98-121): it stops at the
      first check that finds `ctx` done, having counted and summed the files
      handled before it; run to the end it has built the dry run's report or
      the warnings followed by the removal failures. */
  method DeletionLoop(toDelete: seq<FileInfo>, warnings: seq<AccessError>, dryRun: bool, ctx: Context,
                      remove: string -> Option<OsError>, now: int, fmt: Formatters)
    returns (cancelled: bool, output: string, freed: nat, count: nat, deleteErrors: seq<AccessError>)
    ensures cancelled <==> ctx.Reached(|toDelete|) < |toDelete|
    ensures count == |Counted(toDelete[..ctx.Reached(|toDelete|)], dryRun, remove)|
    ensures freed == TotalSize(Counted(toDelete[..ctx.Reached(|toDelete|)], dryRun, remove))
    ensures !cancelled && dryRun ==> output == DryRunText(toDelete, now, fmt)
    ensures !cancelled && !dryRun ==> deleteErrors == warnings + Failures(toDelete, remove)
  {
    freed, count, deleteErrors, output := 0, 0, warnings, "";
    for i := 0 to |toDelete|
      invariant ctx.doneFrom.Some? ==> ctx.doneFrom.value >= i
      invariant count == |Counted(toDelete[..i], dryRun, remove)|
      invariant freed == TotalSize(Counted(toDelete[..i], dryRun, remove))
      invariant dryRun ==> output == DryRunText(toDelete[..i], now, fmt)
      invariant !dryRun ==> deleteErrors == warnings + Failures(toDelete[..i], remove)
    {
      if ctx.DoneAt(i) {
        assert ctx.Reached(|toDelete|) == i;
        return true, output, freed, count, deleteErrors;
      }
      var f := toDelete[i];
      ExecutionStep(toDelete, i, warnings, dryRun, remove, now, fmt);
      output, freed, count, deleteErrors := HandleFile(f, dryRun, remove, now, fmt, output, freed, count, deleteErrors);
    }
    assert toDelete[..|toDelete|] == toDelete;
    cancelled := false;
  }

  /** The body of the deletion loop after the cancellation check (trimmer.go:106-120). */
  method HandleFile(f: FileInfo, dryRun: bool, remove: string -> Option<OsError>, now: int, fmt: Formatters,
                    output: string, freed: nat, count: nat, deleteErrors: seq<AccessError>)
    returns (output': string, freed': nat, count': nat, deleteErrors': seq<AccessError>)
    ensures var took := dryRun || remove(f.path).None?;
      freed' == freed + (if took then f.size else 0) && count' == count + (if took then 1 else 0)
    ensures dryRun ==> output' == output + DryRunLine(f, now, fmt)
    ensures !dryRun ==> deleteErrors' == deleteErrors + Failed(f, remove)
  {
    output', freed', count', deleteErrors' := output, freed, count, deleteErrors;
    if dryRun {
      output' := output + DryRunLine(f, now, fmt);
      freed' := freed + f.size;
      count' := count + 1;
      return;
    }
    var rerr := remove(f.path);
    if rerr.Some? {
      deleteErrors' := deleteErrors + [ClassifyError(f.path, rerr)];
      return;
    }
    freed' := freed + f.size;
    count' := count + 1;
  }

  lemma CanceledAt(marked: seq<FileInfo>, i: nat, warnings: seq<AccessError>, dryRun: bool, ctx: Context,
                   remove: string -> Option<OsError>, now: int, fmt: Formatters)
    requires i < |marked| && ctx.doneFrom == Some(i)
    ensures var handled := Counted(marked[..i], dryRun, remove);
      Execution(marked, warnings, dryRun, ctx, remove, now, fmt)
        == (TrimResult("interrupted", [], |handled|, TotalSize(handled)), Some(Canceled))
  {
  }

  lemma RanToEnd(marked: seq<FileInfo>, warnings: seq<AccessError>, dryRun: bool, ctx: Context,
                 remove: string -> Option<OsError>, now: int, fmt: Formatters)
    requires ctx.doneFrom.Some? ==> ctx.doneFrom.value >= |marked|
    ensures var handled := Counted(marked, dryRun, remove);
      Execution(marked, warnings, dryRun, ctx, remove, now, fmt)
        == if dryRun then (TrimResult(DryRunText(marked, now, fmt), [], |handled|, TotalSize(handled)), None)
           else (TrimResult("deleted " + Itoa(|handled|) + " files", warnings + Failures(marked, remove), |handled|, TotalSize(handled)), None)
  {
    assert marked[..|marked|] == marked;
  }

  /** What `Trim` returns once the listed files are sorted oldest first
      into `sorted`: the plan against `now - maxAge` and 90% of `maxSize`,
      executed with the scan warnings. */
  function TrimOutcome(warnings: seq<AccessError>, opts: TrimOptions, now: int, ctx: Context,
                       remove: string -> Option<OsError>, fmt: Formatters, sorted: seq<FileInfo>): (TrimResult, Option<Error>)
  {
    Execution(Marked(sorted, now - opts.maxAge, TrimTarget(opts.maxSize)), warnings, opts.dryRun, ctx, remove, now, fmt)
  }

  /** The listing copied into a slice and sorted oldest first (trimmer.go:45-49). */
  method SortedCopy(files: seq<FileInfo>) returns (sorted: seq<FileInfo>)
    ensures SortedByModTime(sorted) && multiset(sorted) == multiset(files)
  {
    var a := new FileInfo[|files|](i requires 0 <= i < |files| => files[i]);
    assert a[..] == files;
    SortByModTime(a);
    sorted := a[..];
  }

  /** `Trim` after `ListFiles` has answered (trimmer.go:34-132): a listing
      error is returned as is, an empty listing reports "no files found" with
      the scan warnings, and otherwise the listing, sorted oldest first into
      `sorted`, is planned against `now - maxAge` and 90% of `maxSize` and the
      plan executed. */
  method TrimListed(listed: Result<ListResult, Error>, opts: TrimOptions, now: int, ctx: Context,
                    remove: string -> Option<OsError>, fmt: Formatters)
    returns (result: TrimResult, err: Option<Error>, ghost sorted: seq<FileInfo>)
    ensures listed.Err? ==> result == TrimResult("", [], 0, 0) && err == Some(listed.error)
    ensures listed.Ok? && listed.value.files == [] ==>
      result == TrimResult("no files found", listed.value.warnings, 0, 0) && err == None
    ensures listed.Ok? && listed.value.files != [] ==>
      && SortedByModTime(sorted)
      && multiset(sorted) == multiset(listed.value.files)
      && (result, err) == TrimOutcome(listed.value.warnings, opts, now, ctx, remove, fmt, sorted)
  {
    sorted := [];
    if listed.Err? {
      return TrimResult("", [], 0, 0), Some(listed.error), sorted;
    }
    var files := listed.value.files;
    if |files| == 0 {
      return TrimResult("no files found", listed.value.warnings, 0, 0), None, sorted;
    }
    result, err, sorted := TrimFiles(files, listed.value.warnings, opts, now, ctx, remove, fmt);
  }

  /** `Trim` on a non-empty listing (trimmer.go:45-131): sort it oldest
      first, plan against `now - maxAge` and 90% of `maxSize`, execute. */
  method TrimFiles(files: seq<FileInfo>, warnings: seq<AccessError>, opts: TrimOptions, now: int, ctx: Context,
                   remove: string -> Option<OsError>, fmt: Formatters)
    returns (result: TrimResult, err: Option<Error>, ghost sorted: seq<FileInfo>)
    ensures SortedByModTime(sorted) && multiset(sorted) == multiset(files)
    ensures (result, err) == TrimOutcome(warnings, opts, now, ctx, remove, fmt, sorted)
  {
    var byAge := SortedCopy(files);
    sorted := byAge;
    var cutoff := now - opts.maxAge;
    var targetSize := TrimTarget(opts.maxSize);
    var toDelete := MarkForDeletion(byAge, cutoff, targetSize);
    result, err := ExecuteDeletions(toDelete, warnings, opts.dryRun, ctx, remove, now, fmt);
    OutcomeOfPlan(warnings, opts, now, ctx, remove, fmt, sorted, toDelete);
  }

  /** The outcome of trimming is the execution of the plan drawn up for it. */
  lemma OutcomeOfPlan(warnings: seq<AccessError>, opts: TrimOptions, now: int, ctx: Context,
                      remove: string -> Option<OsError>, fmt: Formatters, sorted: seq<FileInfo>, toDelete: seq<FileInfo>)
    requires toDelete == Marked(sorted, now - opts.maxAge, TrimTarget(opts.maxSize))
    ensures TrimOutcome(warnings, opts, now, ctx, remove, fmt, sorted) == Execution(toDelete, warnings, opts.dryRun, ctx, remove, now, fmt)
  {
  }

  /** `Trim` over a file system: list every file under `paths`, then trim. */
  method Trim(fs: FileSystem, paths: seq<string>, opts: TrimOptions, now: int, ctx: Context,
              remove: string -> Option<OsError>, fmt: Formatters)
    returns (result: TrimResult, err: Option<Error>, ghost sorted: seq<FileInfo>)
    ensures var files := FilesOf(ScanEvents(fs, paths));
      && (files == [] ==> result == TrimResult("no files found", WarningsOf(ScanEvents(fs, paths)), 0, 0) && err == None)
      && (files != [] ==>
          && SortedByModTime(sorted)
          && multiset(sorted) == multiset(files)
          && (result, err) == TrimOutcome(WarningsOf(ScanEvents(fs, paths)), opts, now, ctx, remove, fmt, sorted))
  {
    var listing := ListFiles(fs, paths);
    result, err, sorted := TrimListed(Ok(listing), opts, now, ctx, remove, fmt);
  }

  // ---------------------------------------------------------------------
  // What the plan guarantees.

  lemma {:induction false} AgedFreshPartition(files: seq<FileInfo>, cutoff: int)
    ensures multiset(Aged(files, cutoff)) + multiset(Fresh(files, cutoff)) == multiset(files)
  {
    if files != [] {
      var front := files[..|files| - 1];
      var last := files[|files| - 1];
      AgedFreshPartition(front, cutoff);
      assert files == front + [last];
      assert multiset(files) == multiset(front) + multiset{last};
      if last.modTime < cutoff {
        assert Aged(files, cutoff) == Aged(front, cutoff) + [last];
        assert multiset(Aged(files, cutoff)) == multiset(Aged(front, cutoff)) + multiset{last};
        assert Fresh(files, cutoff) == Fresh(front, cutoff) + [];
      } else {
        assert Aged(files, cutoff) == Aged(front, cutoff) + [];
        assert Fresh(files, cutoff) == Fresh(front, cutoff) + [last];
        assert multiset(Fresh(files, cutoff)) == multiset(Fresh(front, cutoff)) + multiset{last};
      }
    }
  }

  lemma {:induction false} FreshNotAged(files: seq<FileInfo>, cutoff: int)
    ensures forall f :: f in Fresh(files, cutoff) ==> f.modTime >= cutoff
  {
    if files != [] {
      FreshNotAged(files[..|files| - 1], cutoff);
    }
  }

  /** Every file modified before the cutoff is deleted, and nothing is deleted
      that was not listed, nor twice. */
  lemma PlanCoversAgedFiles(files: seq<FileInfo>, cutoff: int, target: int)
    ensures forall f :: f in files && f.modTime < cutoff ==> f in Marked(files, cutoff, target)
    ensures multiset(Marked(files, cutoff, target)) <= multiset(files)
  {
    var kept := Fresh(files, cutoff);
    var k := TakeCount(kept, target);
    AgedFreshPartition(files, cutoff);
    FreshNotAged(files, cutoff);
    assert kept == kept[..k] + kept[k..];
    assert multiset(kept[..k]) <= multiset(kept);
    forall f | f in files && f.modTime < cutoff
      ensures f in Marked(files, cutoff, target)
    {
      assert f in multiset(files);
      assert f !in kept;
    }
  }

  /** Phase 2 takes the shortest run of the oldest kept files after which the
      rest fits within the target: the rest fits (or nothing is left), and
      taking one file fewer would not have fitted. It runs only when the kept
      files exceed the target. */
  lemma {:induction false} SizePhaseMinimal(kept: seq<FileInfo>, target: int)
    ensures var k := TakeCount(kept, target);
      && (TotalSize(kept[k..]) <= target || k == |kept|)
      && (k > 0 ==> TotalSize(kept[k - 1..]) > target)
      && (TotalSize(kept) <= target ==> k == 0)
      && (kept != [] && TotalSize(kept) > target ==> k > 0)
  {
    if kept != [] && TotalSize(kept) > target {
      SizePhaseMinimal(kept[1..], target);
      var k' := TakeCount(kept[1..], target);
      assert kept[1..][k'..] == kept[k' + 1..];
      if k' > 0 {
        assert kept[1..][k' - 1..] == kept[k'..];
      }
    } else {
      assert kept[0..] == kept;
    }
  }

  lemma {:induction false} AllAged(files: seq<FileInfo>, cutoff: int)
    requires forall i :: 0 <= i < |files| ==> files[i].modTime < cutoff
    ensures Aged(files, cutoff) == files && Fresh(files, cutoff) == []
  {
    if files != [] {
      AllAged(files[..|files| - 1], cutoff);
    }
  }

  /** A fresh last file leaves the aged prefix as it was and extends the
      fresh suffix. */
  lemma SplitFreshLast(files: seq<FileInfo>, cutoff: int, a: nat)
    requires files != [] && files[|files| - 1].modTime >= cutoff
    requires var front := files[..|files| - 1];
      a == |Aged(front, cutoff)| && a <= |front| && Aged(front, cutoff) == front[..a] && Fresh(front, cutoff) == front[a..]
    ensures a == |Aged(files, cutoff)| && Aged(files, cutoff) == files[..a] && Fresh(files, cutoff) == files[a..]
  {
    var front := files[..|files| - 1];
    assert files[..a] == front[..a];
    assert front[a..] + [files[|files| - 1]] == files[a..];
  }

  lemma {:induction false} SortedSplit(files: seq<FileInfo>, cutoff: int)
    requires SortedByModTime(files)
    ensures var a := |Aged(files, cutoff)|;
      a <= |files| && Aged(files, cutoff) == files[..a] && Fresh(files, cutoff) == files[a..]
  {
    if files != [] {
      var front := files[..|files| - 1];
      var last := files[|files| - 1];
      SortedSplit(front, cutoff);
      if last.modTime < cutoff {
        AllAged(front, cutoff);
        assert front + [last] == files;
      } else {
        SplitFreshLast(files, cutoff, |Aged(front, cutoff)|);
      }
    }
  }

  /** Over a listing sorted oldest first, the deleted files are exactly a
      prefix of it: every deleted file is at least as old as every survivor. */
  lemma MarkedIsOldestPrefix(files: seq<FileInfo>, cutoff: int, target: int)
    requires SortedByModTime(files)
    ensures var m := Marked(files, cutoff, target);
      |m| <= |files| && m == files[..|m|]
  {
    SortedSplit(files, cutoff);
    var a := |Aged(files, cutoff)|;
    var kept := Fresh(files, cutoff);
    var k := TakeCount(kept, target);
    assert kept[..k] == files[a..a + k];
    assert files[..a] + files[a..a + k] == files[..a + k];
  }

  /** How each step of the deletion loop extends the record of the files handled so far. */
  lemma RunSnoc(files: seq<FileInfo>, f: FileInfo, dryRun: bool, remove: string -> Option<OsError>, now: int, fmt: Formatters)
    ensures var took := dryRun || remove(f.path).None?;
      && Counted(files + [f], dryRun, remove) == Counted(files, dryRun, remove) + (if took then [f] else [])
      && TotalSize(Counted(files + [f], dryRun, remove)) == TotalSize(Counted(files, dryRun, remove)) + (if took then f.size else 0)
    ensures DryRunText(files + [f], now, fmt) == DryRunText(files, now, fmt) + DryRunLine(f, now, fmt)
  {
    assert (files + [f])[..|files|] == files;
    var before := Counted(files, dryRun, remove);
    if dryRun || remove(f.path).None? {
      assert Counted(files + [f], dryRun, remove) == before + [f];
      TotalSizeAppend(before, [f]);
      assert [f][..0] == [];
    } else {
      assert Counted(files + [f], dryRun, remove) == before;
    }
  }

  /** Step i of the deletion loop, in terms of the prefixes the loop has handled. */
  lemma ExecutionStep(marked: seq<FileInfo>, i: nat, warnings: seq<AccessError>, dryRun: bool,
                      remove: string -> Option<OsError>, now: int, fmt: Formatters)
    requires i < |marked|
    ensures var f := marked[i];
      var took := dryRun || remove(f.path).None?;
      && |Counted(marked[..i + 1], dryRun, remove)| == |Counted(marked[..i], dryRun, remove)| + (if took then 1 else 0)
      && TotalSize(Counted(marked[..i + 1], dryRun, remove)) == TotalSize(Counted(marked[..i], dryRun, remove)) + (if took then f.size else 0)
      && DryRunText(marked[..i + 1], now, fmt) == DryRunText(marked[..i], now, fmt) + DryRunLine(f, now, fmt)
      && warnings + Failures(marked[..i + 1], remove) == (warnings + Failures(marked[..i], remove)) + Failed(f, remove)
  {
    assert marked[..i + 1] == marked[..i] + [marked[i]];
    RunSnoc(marked[..i], marked[i], dryRun, remove, now, fmt);
    ErrorsSnoc(warnings, marked[..i], marked[i], remove);
  }

  lemma ErrorsSnoc(warnings: seq<AccessError>, files: seq<FileInfo>, f: FileInfo, remove: string -> Option<OsError>)
    ensures warnings + Failures(files + [f], remove) == (warnings + Failures(files, remove)) + Failed(f, remove)
  {
    assert (files + [f])[..|files|] == files;
  }

  lemma {:induction false} RemovedAndFailuresCount(files: seq<FileInfo>, remove: string -> Option<OsError>)
    ensures |Removed(files, remove)| + |Failures(files, remove)| == |files|
  {
    if files != [] {
      RemovedAndFailuresCount(files[..|files| - 1], remove);
    }
  }

  lemma {:induction false} RemovedBytes(files: seq<FileInfo>, remove: string -> Option<OsError>)
    ensures TotalSize(Removed(files, remove)) <= TotalSize(files)
  {
    if files != [] {
      var front := files[..|files| - 1];
      var last := files[|files| - 1];
      RemovedBytes(front, remove);
      assert TotalSize(files) == TotalSize(front) + last.size;
      if remove(last.path).None? {
        assert Removed(files, remove) == Removed(front, remove) + [last];
        TotalSizeAppend(Removed(front, remove), [last]);
        assert [last][..0] == [];
      } else {
        assert Removed(files, remove) == Removed(front, remove);
      }
    }
  }

  lemma {:induction false} AllRemoved(files: seq<FileInfo>, remove: string -> Option<OsError>)
    requires forall f :: f in files ==> remove(f.path).None?
    ensures Removed(files, remove) == files
  {
    if files != [] {
      var front := files[..|files| - 1];
      var last := files[|files| - 1];
      assert files == front + [last];
      forall f | f in front
        ensures remove(f.path).None?
      {
        assert f in files;
      }
      AllRemoved(front, remove);
      assert last in files;
      assert Removed(files, remove) == Removed(front, remove) + [last];
    }
  }

  lemma TotalSizePrefix(files: seq<FileInfo>, n: nat)
    requires n <= |files|
    ensures TotalSize(files[..n]) <= TotalSize(files)
  {
    assert files == files[..n] + files[n..];
    TotalSizeAppend(files[..n], files[n..]);
  }

  /** No run frees more than the marked files hold or counts more files than
      were marked; a real run reports one error per failed removal, after the
      scan warnings it carries unchanged. */
  lemma ExecutionAccounting(marked: seq<FileInfo>, warnings: seq<AccessError>, dryRun: bool, ctx: Context,
                            remove: string -> Option<OsError>, now: int, fmt: Formatters)
    ensures var (r, err) := Execution(marked, warnings, dryRun, ctx, remove, now, fmt);
      && r.deletedCount <= |marked| && r.freedBytes <= TotalSize(marked)
      && (err.None? <==> ctx.Reached(|marked|) == |marked|)
      && (err.None? && !dryRun ==>
            |r.errors| == |warnings| + |marked| - r.deletedCount && r.errors[..|warnings|] == warnings)
  {
    var n := ctx.Reached(|marked|);
    var handled := Counted(marked[..n], dryRun, remove);
    RemovedAndFailuresCount(marked[..n], remove);
    RemovedBytes(marked[..n], remove);
    TotalSizePrefix(marked, n);
    assert |handled| <= |marked| && TotalSize(handled) <= TotalSize(marked);
    if n == |marked| && !dryRun {
      RealRunErrors(marked, warnings, ctx, remove, now, fmt);
    }
  }

  lemma RealRunErrors(marked: seq<FileInfo>, warnings: seq<AccessError>, ctx: Context,
                      remove: string -> Option<OsError>, now: int, fmt: Formatters)
    requires ctx.Reached(|marked|) == |marked|
    ensures var r := Execution(marked, warnings, false, ctx, remove, now, fmt).0;
      |r.errors| == |warnings| + |marked| - r.deletedCount && r.errors[..|warnings|] == warnings
  {
    assert marked[..|marked|] == marked;
    var r := Execution(marked, warnings, false, ctx, remove, now, fmt).0;
    assert r.errors == warnings + Failures(marked, remove);
    assert r.deletedCount == |Removed(marked, remove)|;
    RemovedAndFailuresCount(marked, remove);
  }

  /** When every removal succeeds, a dry run and a real run free the same
      bytes and count the same files, cancelled or not. */
  lemma DryRunMatchesRealRun(marked: seq<FileInfo>, warnings: seq<AccessError>, ctx: Context,
                             remove: string -> Option<OsError>, now: int, fmt: Formatters)
    requires forall f :: f in marked ==> remove(f.path).None?
    ensures var (dry, _) := Execution(marked, warnings, true, ctx, remove, now, fmt);
      var (wet, _) := Execution(marked, warnings, false, ctx, remove, now, fmt);
      dry.deletedCount == wet.deletedCount && dry.freedBytes == wet.freedBytes
  {
    var n := ctx.Reached(|marked|);
    assert forall f :: f in marked[..n] ==> f in marked;
    AllRemoved(marked[..n], remove);
  }

  const Day: int := 24 * Hour

  /** Three 1000-byte files aged 20, 10 and 5 days, a 60-day age limit and a
      2000-byte size limit: the two oldest go, freeing 2000 bytes. */
  lemma SizeOnlyScenario(now: int)
    ensures var files := [FileInfo(now - 20 * Day, "oldest.txt", 1000), FileInfo(now - 10 * Day, "middle.txt", 1000),
                          FileInfo(now - 5 * Day, "newest.txt", 1000)];
      var m := Marked(files, now - 60 * Day, TrimTarget(2000));
      m == files[..2] && TotalSize(m) == 2000
  {
    var files := [FileInfo(now - 20 * Day, "oldest.txt", 1000), FileInfo(now - 10 * Day, "middle.txt", 1000),
                  FileInfo(now - 5 * Day, "newest.txt", 1000)];
    var cutoff := now - 60 * Day;
    assert Fresh(files[..1], cutoff) == files[..1] && Aged(files[..1], cutoff) == [];
    assert Fresh(files[..2], cutoff) == files[..2] && Aged(files[..2], cutoff) == [];
    assert files[..3] == files;
    assert Fresh(files, cutoff) == files && Aged(files, cutoff) == [];
    TotalSizeCons(files);
    TotalSizeCons(files[1..]);
    TotalSizeCons(files[2..]);
    assert TakeCount(files[2..], 1800) == 0;
    assert TakeCount(files[1..], 1800) == 1;
    assert TotalSize(files[..2]) == 2000 by {
      TotalSizeAppend(files[..1], files[1..2]);
      assert files[..1] + files[1..2] == files[..2];
    }
  }

  /** 500-byte files aged 60, 15 and 5 days, a 30-day age limit and a
      1000-byte size limit: the oldest goes by age, the next by size. */
  lemma AgeAndSizeScenario(now: int)
    ensures var files := [FileInfo(now - 60 * Day, "ancient.txt", 500), FileInfo(now - 15 * Day, "old.txt", 500),
                          FileInfo(now - 5 * Day, "recent.txt", 500)];
      var m := Marked(files, now - 30 * Day, TrimTarget(1000));
      m == files[..2] && |Aged(files, now - 30 * Day)| == 1
  {
    var files := [FileInfo(now - 60 * Day, "ancient.txt", 500), FileInfo(now - 15 * Day, "old.txt", 500),
                  FileInfo(now - 5 * Day, "recent.txt", 500)];
    var cutoff := now - 30 * Day;
    assert Aged(files[..1], cutoff) == files[..1] && Fresh(files[..1], cutoff) == [];
    assert Fresh(files[..2], cutoff) == files[1..2] && Aged(files[..2], cutoff) == files[..1];
    assert files[..3] == files;
    var kept := files[1..];
    assert Fresh(files, cutoff) == kept && Aged(files, cutoff) == files[..1];
    TotalSizeCons(kept);
    TotalSizeCons(kept[1..]);
    assert TakeCount(kept[1..], 900) == 0;
    assert TakeCount(kept, 900) == 1;
  }
}
