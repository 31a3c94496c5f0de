/** internal/cache/scanner.go: walking cache roots to total their bytes or list
    their files, turning access failures into classified warnings.

    The file system is a value: `FileSystem` says what `os.Lstat` finds at each
    root, and a directory `Entry` carries what `os.ReadDir` returned for it.
    `filepath.WalkDir` is the function `RootEvents`: the sequence of callback
    invocations it makes, in its own pre-order. The callback body is the loop
    body of `CalculateSize` and `ListFiles`. The source walks every root in
    its own goroutine; the model walks them one after the other, and
    `RootOrderIrrelevant` shows the totals and the listing (as a multiset) do
    not depend on that order. */
module Scanner {
  import opened Common
  import opened CacheErrors
  import FilePath

  /** What `d.Info()` reports for a regular file: size in bytes and modification time. */
  datatype Meta = Meta(size: nat, modTime: int)

  /** One entry of a directory tree, as `filepath.WalkDir` meets it. A
      directory keeps the entries `os.ReadDir` managed to read and the error
      that stopped it, if any. */
  datatype Entry =
    | Regular(name: string, info: Result<Meta, OsError>)
    | Symlink(name: string)
    | Dir(name: string, entries: seq<Entry>, readErr: Option<OsError>)

  /** What `os.Lstat` finds at each root path. */
  type FileSystem = string -> Result<Entry, OsError>

  datatype FileInfo = FileInfo(modTime: int, path: string, size: nat)

  datatype ScanResult = ScanResult(warnings: seq<AccessError>, size: nat)

  datatype ListResult = ListResult(files: seq<FileInfo>, warnings: seq<AccessError>)

  /** One invocation of the WalkDir callback: with an error, or with an entry. */
  datatype Event =
    | WalkErr(path: string, err: OsError)
    | Visit(path: string, entry: Entry)

  /** The callbacks `filepath.WalkDir` makes for an entry at `path`: the entry
      itself, then (for a directory) the `ReadDir` error if any, then the
      entries it did read, each under its joined path. */
  function EntryEvents(path: string, e: Entry): seq<Event>
    decreases e
  {
    match e
    case Dir(_, entries, readErr) =>
      [Visit(path, e)] + (if readErr.Some? then [WalkErr(path, readErr.value)] else []) + ChildEvents(path, entries)
    case _ => [Visit(path, e)]
  }

  function ChildEvents(dir: string, entries: seq<Entry>): seq<Event>
    decreases entries
  {
    if entries == [] then []
    else EntryEvents(FilePath.Join(dir, entries[0].name), entries[0]) + ChildEvents(dir, entries[1..])
  }

  /** `filepath.WalkDir(root, fn)`: an `Lstat` failure is reported to the
      callback once, with the root path. */
  function RootEvents(root: string, lstat: Result<Entry, OsError>): seq<Event>
  {
    match lstat
    case Err(err) => [WalkErr(root, err)]
    case Ok(e) => EntryEvents(root, e)
  }

  /** The callbacks of walking every root in turn. */
  function ScanEvents(fs: FileSystem, paths: seq<string>): seq<Event>
  {
    if paths == [] then []
    else ScanEvents(fs, paths[..|paths| - 1]) + RootEvents(paths[|paths| - 1], fs(paths[|paths| - 1]))
  }

  /** The warning one callback invocation appends: a walk error other than
      not-exist, or a regular file whose metadata could not be read. */
  function Warned(ev: Event): (w: seq<AccessError>)
    ensures |w| <= 1
  {
    match ev
    case WalkErr(p, err) => if err.notExist then [] else [ClassifyError(p, Some(err))]
    case Visit(p, e) => if e.Regular? && e.info.Err? then [ClassifyError(p, Some(e.info.error))] else []
  }

  /** The file one callback invocation records: only a regular (non-directory,
      non-symlink) entry whose metadata was read. */
  function Found(ev: Event): Option<FileInfo>
  {
    if ev.Visit? && ev.entry.Regular? && ev.entry.info.Ok? then
      Some(FileInfo(ev.entry.info.value.modTime, ev.path, ev.entry.info.value.size))
    else None
  }

  function Bytes(ev: Event): nat
  {
    if Found(ev).Some? then Found(ev).value.size else 0
  }

  function SizeOf(evs: seq<Event>): nat
  {
    if evs == [] then 0 else SizeOf(evs[..|evs| - 1]) + Bytes(evs[|evs| - 1])
  }

  function FilesOf(evs: seq<Event>): seq<FileInfo>
  {
    if evs == [] then []
    else
      var last := Found(evs[|evs| - 1]);
      FilesOf(evs[..|evs| - 1]) + (if last.Some? then [last.value] else [])
  }

  function WarningsOf(evs: seq<Event>): seq<AccessError>
  {
    if evs == [] then [] else WarningsOf(evs[..|evs| - 1]) + Warned(evs[|evs| - 1])
  }

  /** The sum of the sizes of a list of files. */
  function TotalSize(files: seq<FileInfo>): nat
  {
    if files == [] then 0 else TotalSize(files[..|files| - 1]) + files[|files| - 1].size
  }

  /** The `filepath.WalkDir` callback of `CalculateSize` (scanner.go:42-62),
      acting on the shared `total` and `warnings`. */
  method SizeCallback(ev: Event, total: nat, warnings: seq<AccessError>)
    returns (total': nat, warnings': seq<AccessError>)
    ensures total' == total + Bytes(ev)
    ensures warnings' == warnings + Warned(ev)
  {
    total', warnings' := total, warnings;
    match ev
    case WalkErr(path, err) =>
      if !err.notExist {
        warnings' := warnings + [ClassifyError(path, Some(err))];
      }
    case Visit(path, d) =>
      if d.Regular? {
        match d.info
        case Err(e) =>
          warnings' := warnings + [ClassifyError(path, Some(e))];
        case Ok(info) =>
          total' := total + info.size;
      }
  }

  /** The `filepath.WalkDir` callback of `ListFiles` (scanner.go:104-131),
      acting on the shared `files` and `warnings`. */
  method ListCallback(ev: Event, files: seq<FileInfo>, warnings: seq<AccessError>)
    returns (files': seq<FileInfo>, warnings': seq<AccessError>)
    ensures files' == files + (if Found(ev).Some? then [Found(ev).value] else [])
    ensures warnings' == warnings + Warned(ev)
  {
    files', warnings' := files, warnings;
    match ev
    case WalkErr(path, err) =>
      if !err.notExist {
        warnings' := warnings + [ClassifyError(path, Some(err))];
      }
    case Visit(path, d) =>
      if d.Regular? {
        match d.info
        case Err(e) =>
          warnings' := warnings + [ClassifyError(path, Some(e))];
        case Ok(info) =>
          files' := files + [FileInfo(info.modTime, path, info.size)];
      }
  }

  /** One more callback invocation extends each fold by that invocation's effect. */
  lemma FoldsSnoc(evs: seq<Event>, ev: Event)
    ensures SizeOf(evs + [ev]) == SizeOf(evs) + Bytes(ev)
    ensures FilesOf(evs + [ev]) == FilesOf(evs) + (if Found(ev).Some? then [Found(ev).value] else [])
    ensures WarningsOf(evs + [ev]) == WarningsOf(evs) + Warned(ev)
  {
    assert (evs + [ev])[..|evs + [ev]| - 1] == evs;
  }

  /** One more event of a walk extends each fold by that event's effect. */
  lemma FoldsStep(before: seq<Event>, events: seq<Event>, j: nat)
    requires j < |events|
    ensures SizeOf(before + events[..j + 1]) == SizeOf(before + events[..j]) + Bytes(events[j])
    ensures FilesOf(before + events[..j + 1]) ==
      FilesOf(before + events[..j]) + (if Found(events[j]).Some? then [Found(events[j]).value] else [])
    ensures WarningsOf(before + events[..j + 1]) == WarningsOf(before + events[..j]) + Warned(events[j])
  {
    assert before + events[..j + 1] == before + events[..j] + [events[j]];
    FoldsSnoc(before + events[..j], events[j]);
  }

  /** One goroutine of `CalculateSize` (scanner.go:35-69): walk one root with
      the callback, on top of what the walks before it accumulated. */
  method SizeRoot(root: string, lstat: Result<Entry, OsError>, ghost before: seq<Event>,
                  total0: nat, warnings0: seq<AccessError>)
    returns (total: nat, warnings: seq<AccessError>)
    requires total0 == SizeOf(before) && warnings0 == WarningsOf(before)
    ensures total == SizeOf(before + RootEvents(root, lstat))
    ensures warnings == WarningsOf(before + RootEvents(root, lstat))
  {
    total, warnings := SizeEvents(RootEvents(root, lstat), before, total0, warnings0);
  }

  /** The callbacks of one walk, in order, with `CalculateSize`'s callback. */
  method SizeEvents(events: seq<Event>, ghost before: seq<Event>, total0: nat, warnings0: seq<AccessError>)
    returns (total: nat, warnings: seq<AccessError>)
    requires total0 == SizeOf(before) && warnings0 == WarningsOf(before)
    ensures total == SizeOf(before + events) && warnings == WarningsOf(before + events)
  {
    total, warnings := total0, warnings0;
    assert before + events[..0] == before;
    for j := 0 to |events|
      invariant total == SizeOf(before + events[..j])
      invariant warnings == WarningsOf(before + events[..j])
    {
      FoldsStep(before, events, j);
      total, warnings := SizeCallback(events[j], total, warnings);
    }
    assert events[..|events|] == events;
  }

  /** `CalculateSize`: every root is walked and the callback adds the size of
      every regular file it can stat, turning every other failure except
      not-exist into a warning. The walk never fails as a whole (the callback
      never returns an error), so the source's `firstErr` stays nil and no
      error is returned. */
  method CalculateSize(fs: FileSystem, paths: seq<string>) returns (result: ScanResult)
    ensures result.size == SizeOf(ScanEvents(fs, paths))
    ensures result.warnings == WarningsOf(ScanEvents(fs, paths))
  {
    var total: nat := 0;
    var warnings: seq<AccessError> := [];
    for k := 0 to |paths|
      invariant total == SizeOf(ScanEvents(fs, paths[..k]))
      invariant warnings == WarningsOf(ScanEvents(fs, paths[..k]))
    {
      total, warnings := SizeRoot(paths[k], fs(paths[k]), ScanEvents(fs, paths[..k]), total, warnings);
      assert paths[..k + 1][..k] == paths[..k];
    }
    assert paths[..|paths|] == paths;
    result := ScanResult(warnings, total);
  }

  /** One goroutine of `ListFiles` (scanner.go:97-133). */
  method ListRoot(root: string, lstat: Result<Entry, OsError>, ghost before: seq<Event>,
                  files0: seq<FileInfo>, warnings0: seq<AccessError>)
    returns (files: seq<FileInfo>, warnings: seq<AccessError>)
    requires files0 == FilesOf(before) && warnings0 == WarningsOf(before)
    ensures files == FilesOf(before + RootEvents(root, lstat))
    ensures warnings == WarningsOf(before + RootEvents(root, lstat))
  {
    files, warnings := ListEvents(RootEvents(root, lstat), before, files0, warnings0);
  }

  /** The callbacks of one walk, in order, with `ListFiles`'s callback. */
  method ListEvents(events: seq<Event>, ghost before: seq<Event>, files0: seq<FileInfo>, warnings0: seq<AccessError>)
    returns (files: seq<FileInfo>, warnings: seq<AccessError>)
    requires files0 == FilesOf(before) && warnings0 == WarningsOf(before)
    ensures files == FilesOf(before + events) && warnings == WarningsOf(before + events)
  {
    files, warnings := files0, warnings0;
    assert before + events[..0] == before;
    for j := 0 to |events|
      invariant files == FilesOf(before + events[..j])
      invariant warnings == WarningsOf(before + events[..j])
    {
      FoldsStep(before, events, j);
      files, warnings := ListCallback(events[j], files, warnings);
    }
    assert events[..|events|] == events;
  }

  /** `ListFiles`: the same walk, recording each regular file's own path, size
      and modification time instead of adding sizes. */
  method ListFiles(fs: FileSystem, paths: seq<string>) returns (result: ListResult)
    ensures result.files == FilesOf(ScanEvents(fs, paths))
    ensures result.warnings == WarningsOf(ScanEvents(fs, paths))
  {
    var files: seq<FileInfo> := [];
    var warnings: seq<AccessError> := [];
    for k := 0 to |paths|
      invariant files == FilesOf(ScanEvents(fs, paths[..k]))
      invariant warnings == WarningsOf(ScanEvents(fs, paths[..k]))
    {
      files, warnings := ListRoot(paths[k], fs(paths[k]), ScanEvents(fs, paths[..k]), files, warnings);
      assert paths[..k + 1][..k] == paths[..k];
    }
    assert paths[..|paths|] == paths;
    result := ListResult(files, warnings);
  }

  // ---------------------------------------------------------------------
  // What the walk computes, stated against the tree itself.

  /** The bytes of the regular files of a tree whose metadata can be read. */
  function TreeSize(e: Entry): nat
    decreases e
  {
    match e
    case Regular(_, info) => if info.Ok? then info.value.size else 0
    case Symlink(_) => 0
    case Dir(_, entries, _) => ChildrenSize(entries)
  }

  function ChildrenSize(entries: seq<Entry>): nat
    decreases entries
  {
    if entries == [] then 0 else TreeSize(entries[0]) + ChildrenSize(entries[1..])
  }

  /** The regular files of a tree whose metadata can be read, each with its
      own path; directories and symbolic links are never among them. */
  function TreeFiles(path: string, e: Entry): seq<FileInfo>
    decreases e
  {
    match e
    case Regular(_, info) => if info.Ok? then [FileInfo(info.value.modTime, path, info.value.size)] else []
    case Symlink(_) => []
    case Dir(_, entries, _) => ChildrenFiles(path, entries)
  }

  function ChildrenFiles(dir: string, entries: seq<Entry>): seq<FileInfo>
    decreases entries
  {
    if entries == [] then []
    else TreeFiles(FilePath.Join(dir, entries[0].name), entries[0]) + ChildrenFiles(dir, entries[1..])
  }

  lemma {:induction false} SizeOfAppend(a: seq<Event>, b: seq<Event>)
    ensures SizeOf(a + b) == SizeOf(a) + SizeOf(b)
    decreases |b|
  {
    if b == [] {
      assert a + b == a;
    } else {
      var front := b[..|b| - 1];
      assert (a + b)[..|a + b| - 1] == a + front;
      SizeOfAppend(a, front);
    }
  }

  lemma {:induction false} FilesOfAppend(a: seq<Event>, b: seq<Event>)
    ensures FilesOf(a + b) == FilesOf(a) + FilesOf(b)
    decreases |b|
  {
    if b == [] {
      assert a + b == a;
    } else {
      var front := b[..|b| - 1];
      assert (a + b)[..|a + b| - 1] == a + front;
      FilesOfAppend(a, front);
    }
  }

  lemma {:induction false} WarningsOfAppend(a: seq<Event>, b: seq<Event>)
    ensures WarningsOf(a + b) == WarningsOf(a) + WarningsOf(b)
    decreases |b|
  {
    if b == [] {
      assert a + b == a;
    } else {
      var front := b[..|b| - 1];
      assert (a + b)[..|a + b| - 1] == a + front;
      WarningsOfAppend(a, front);
    }
  }

  /** Total, listing and warnings of two runs of callbacks are those of
      each run. */
  lemma FoldsAppend(a: seq<Event>, b: seq<Event>)
    ensures SizeOf(a + b) == SizeOf(a) + SizeOf(b)
    ensures FilesOf(a + b) == FilesOf(a) + FilesOf(b)
    ensures WarningsOf(a + b) == WarningsOf(a) + WarningsOf(b)
  {
    SizeOfAppend(a, b);
    FilesOfAppend(a, b);
    WarningsOfAppend(a, b);
  }

  lemma {:induction false} ScanEventsAppend(fs: FileSystem, a: seq<string>, b: seq<string>)
    ensures ScanEvents(fs, a + b) == ScanEvents(fs, a) + ScanEvents(fs, b)
    decreases |b|
  {
    if b == [] {
      assert a + b == a;
    } else {
      var front, last := b[..|b| - 1], b[|b| - 1];
      var evs := RootEvents(last, fs(last));
      assert (a + b)[..|a + b| - 1] == a + front;
      assert (a + b)[|a + b| - 1] == last;
      assert ScanEvents(fs, a + b) == ScanEvents(fs, a + front) + evs;
      assert ScanEvents(fs, b) == ScanEvents(fs, front) + evs;
      ScanEventsAppend(fs, a, front);
      assert ScanEvents(fs, a) + ScanEvents(fs, front) + evs == ScanEvents(fs, a) + (ScanEvents(fs, front) + evs);
    }
  }

  /** The walk's total and listing agree with the tree: exactly the readable
      regular files count, each once, under its joined path. */
  lemma {:induction false} EntryEventsMatchTree(path: string, e: Entry)
    ensures SizeOf(EntryEvents(path, e)) == TreeSize(e)
    ensures FilesOf(EntryEvents(path, e)) == TreeFiles(path, e)
    decreases e, 1
  {
    match e
    case Dir(_, entries, readErr) =>
      var head := [Visit(path, e)] + (if readErr.Some? then [WalkErr(path, readErr.value)] else []);
      FoldsAppend(head, ChildEvents(path, entries));
      assert [Visit(path, e)][..0] == [];
      assert SizeOf([Visit(path, e)]) == 0 && FilesOf([Visit(path, e)]) == [];
      if readErr.Some? {
        assert head[..1] == [Visit(path, e)];
      } else {
        assert head == [Visit(path, e)];
      }
      assert SizeOf(head) == 0 && FilesOf(head) == [];
      ChildEventsMatchTree(path, entries);
    case _ =>
  }

  lemma {:induction false} ChildEventsMatchTree(dir: string, entries: seq<Entry>)
    ensures SizeOf(ChildEvents(dir, entries)) == ChildrenSize(entries)
    ensures FilesOf(ChildEvents(dir, entries)) == ChildrenFiles(dir, entries)
    decreases entries, 0
  {
    if entries != [] {
      var first := EntryEvents(FilePath.Join(dir, entries[0].name), entries[0]);
      FoldsAppend(first, ChildEvents(dir, entries[1..]));
      EntryEventsMatchTree(FilePath.Join(dir, entries[0].name), entries[0]);
      ChildEventsMatchTree(dir, entries[1..]);
    }
  }

  /** The listing and the total agree: the sizes of the listed files add up to
      what `CalculateSize` reports for the same walk. */
  lemma {:induction false} ListedSizesAddUp(evs: seq<Event>)
    ensures TotalSize(FilesOf(evs)) == SizeOf(evs)
  {
    if evs != [] {
      var front := evs[..|evs| - 1];
      ListedSizesAddUp(front);
      var last := Found(evs[|evs| - 1]);
      if last.Some? {
        var fs := FilesOf(front) + [last.value];
        assert FilesOf(evs) == fs;
        assert fs[..|fs| - 1] == FilesOf(front);
        assert TotalSize(fs) == TotalSize(FilesOf(front)) + last.value.size;
      } else {
        assert FilesOf(evs) == FilesOf(front);
      }
    }
  }

  /** A root that cannot be stat'ed contributes no bytes and no files, and a
      warning unless it simply does not exist. */
  lemma UnreadableRoot(root: string, err: OsError)
    ensures SizeOf(RootEvents(root, Err(err))) == 0
    ensures FilesOf(RootEvents(root, Err(err))) == []
    ensures WarningsOf(RootEvents(root, Err(err))) == if err.notExist then [] else [ClassifyError(root, Some(err))]
  {
    assert RootEvents(root, Err(err))[..0] == [];
  }

  /** Totals, listings and warnings are additive across roots, and the order
      in which roots are walked changes nothing but the order of the lists. */
  lemma RootOrderIrrelevant(fs: FileSystem, a: seq<string>, b: seq<string>)
    ensures SizeOf(ScanEvents(fs, a + b)) == SizeOf(ScanEvents(fs, a)) + SizeOf(ScanEvents(fs, b))
    ensures FilesOf(ScanEvents(fs, a + b)) == FilesOf(ScanEvents(fs, a)) + FilesOf(ScanEvents(fs, b))
    ensures SizeOf(ScanEvents(fs, a + b)) == SizeOf(ScanEvents(fs, b + a))
    ensures multiset(FilesOf(ScanEvents(fs, a + b))) == multiset(FilesOf(ScanEvents(fs, b + a)))
    ensures multiset(WarningsOf(ScanEvents(fs, a + b))) == multiset(WarningsOf(ScanEvents(fs, b + a)))
  {
    ScanEventsAppend(fs, a, b);
    ScanEventsAppend(fs, b, a);
    FoldsAppend(ScanEvents(fs, a), ScanEvents(fs, b));
    FoldsAppend(ScanEvents(fs, b), ScanEvents(fs, a));
  }
}
