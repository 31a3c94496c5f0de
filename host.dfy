/** Everything the program asks of the machine it runs on, as values: the
    home directory, globbing, `os.Stat`, the file tree `filepath.WalkDir`
    sees, directory listings, removals, the shell-word splitter, subprocesses,
    the size parser, the clock and the text formatters. Each operation of the
    model receives the `Host` and asks it instead of doing I/O. */
module Host {
  import opened Common
  import opened Scanner

  /** One entry of an `os.ReadDir` listing. */
  datatype DirEntry = DirEntry(name: string, isDir: bool)

  /** What running a subprocess to completion gives: its standard output and
      error, the error `Run` returns (a non-zero exit, a missing binary, a
      cancelled context), and the file tree as the process left it. */
  datatype RunOutcome = RunOutcome(stdout: string, stderr: string, err: Option<Error>, after: FileSystem)

  datatype Host = Host(
    home: Result<string, Error>,                      // os.UserHomeDir
    glob: string -> Result<seq<string>, Error>,       // filepath.Glob
    statOk: string -> bool,                           // os.Stat succeeds
    fs: FileSystem,                                   // what filepath.WalkDir walks
    readDir: string -> Result<seq<DirEntry>, OsError>,// os.ReadDir
    modTime: string -> Result<int, OsError>,          // os.Stat(path).ModTime()
    remove: string -> Option<OsError>,                // os.Remove
    removeAll: string -> Option<OsError>,             // os.RemoveAll
    split: string -> Result<seq<string>, Error>,      // shellquote.Split
    run: seq<string> -> RunOutcome,                   // exec.CommandContext(...).Run()
    dockerAvailable: bool,                            // `docker` on PATH and `docker ps` succeeds
    parseSize: string -> Result<int, Error>,          // size.ParseSize (pkg/size)
    maxAgeOf: string -> int,                          // the duration a configured max_age stands for
    now: int,                                         // time.Now, in nanoseconds
    fmt: Formatters)
}
