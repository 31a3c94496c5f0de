# cache-buster, modelled in Dafny

cache-buster keeps developer caches under control (Go build and module caches, npm, yarn, Homebrew, mise, uv, JetBrains IDE directories, Docker build cache and any cache a shell command can clean). Each cache is a *provider* with paths, a size limit and an optional age limit. This project models its core in Dafny and proves properties of that model:

- **the cache engine**, which covers:
  - access-error classification (`CacheErrors`);
  - the directory walk that totals and lists files (`Scanner`);
  - the two-phase eviction in `Trim`: an age phase, then an oldest-first size phase, then a deletion loop with dry run, per-file failures and cancellation (`Trimmer`, `Sorting`).
- **the provider strategies**:
  - the base record (`ProviderBase`);
  - the oldest-first file provider (`FileProvider`);
  - the JetBrains version pruner, with its numeric dotted-version order and its directory-name pattern (`Versions`, `JetBrains`);
  - the command and Docker providers (`CommandProvider`, `Docker`);
  - the registry that dispatches on a provider's name (`Registry`).
- **configuration**:
  - validation and the sorted enabled-provider lists (`Config`);
  - the built-in default table (`Defaults`);
  - tilde expansion with the literal/glob split (`Paths`), over a model of `filepath.Clean`, `filepath.Join` and `filepath.Base` (`FilePath`);
  - the duration parser (`Duration`).
- **the command-line decision logic**:
  - `clean`: resolving provider names, accepting the confirmation answer, loading and filtering providers, and the accounting of a clean (`CliClean`);
  - `status`: rows, status words and totals (`CliStatus`);
  - the interactive key-handling state machine: selection, confirmation, cleaning order and bytes freed (`CliInteractive`).

The machine is an oracle record (`Host.Host`) rather than real effects. The file system is an abstract directory tree with stat, read-dir, remove and glob results; the home directory, subprocess runs, the command-line splitter, size parsing and rendering, and the clock (a `now` parameter) are oracles too. Cancellation is a `Common.Context` that reports the loop step at which the context is first seen as done; in `clean` one `Interrupt` gives the views of the providers loop and of each provider's own loop. Go's goroutine fan-out in the scanner is modelled as a sequential fold.

Modules follow the Go packages and files: `cache_*.dfy` for `internal/cache`, `provider_*.dfy` for `internal/provider`, `config_*.dfy` for `internal/config` and `cli_*.dfy` for `internal/cli`. `common.dfy`, `text.dfy`, `filepath.dfy`, `host.dfy` and `sorting.dfy` hold the shared results, Go string helpers, Go's lexical path functions, the machine oracles and the sorts.

Where the repository's files do not agree with one another, the model follows what the code evidently intends, and each such repair is noted at its place in the Dafny:
- The provider and status code reads `.Files` and `.Size` from scan results.
- The base record carries an abstract `maxAge`, which the command and JetBrains providers read.
- The `clean` command's entry points take the arities that `clean.go` declares.

## Model

| member | source | states |
|---|---|---|
| CacheErrors.AccessError.Error | internal/cache/errors.go:17-19 | the message is the path, then ": ", then the reason, and nothing else |
| CacheErrors.ClassifyError | internal/cache/errors.go:33-57 | the path and the wrapped error are kept; the reason is always one of the four constants; permission denied exactly for a permission error, not found exactly for a missing file that is not a permission error, file locked exactly for busy or text-busy errors not caught before, the unknown reason otherwise, including for a nil error |
| CacheErrors.UnknownIsTheFallback | internal/cache/errors.go:35-39 | a nil error, or one of none of the four kinds, is classified as an unknown access error |
| Scanner.Warned | internal/cache/scanner.go:42-61 | one callback invocation appends at most one warning |
| Scanner.SizeCallback | internal/cache/scanner.go:41-63 | the WalkDir callback of CalculateSize adds exactly the bytes of a readable regular file and appends exactly the warning of an access error other than a missing file |
| Scanner.ListCallback | internal/cache/scanner.go:103-132 | the WalkDir callback of ListFiles records exactly the readable regular files, with their own path, size and time, and the same warnings as the size callback |
| Scanner.FoldsSnoc | internal/cache/scanner.go:41-64 | one more callback invocation extends the total, the listing and the warnings by exactly its own effect |
| Scanner.SizeRoot | internal/cache/scanner.go:37-68 | walking one more root adds that root's callbacks to the running total and warnings |
| Scanner.CalculateSize | internal/cache/scanner.go:27-81 | the total is the size of every readable regular file under every root, and the warnings are those of every walk, in order |
| Scanner.ListRoot | internal/cache/scanner.go:99-137 | walking one more root adds that root's files and warnings to the running listing |
| Scanner.SizeEvents | internal/cache/scanner.go:37-68 | folding callbacks into a running total and warnings gives the total and warnings of all of them |
| Scanner.ListEvents | internal/cache/scanner.go:99-137 | folding callbacks into a running listing and warnings gives the files and warnings of all of them |
| Scanner.ListFiles | internal/cache/scanner.go:89-150 | the listing holds every readable regular file under every root, and the warnings those of every walk |
| Scanner.FoldsAppend | internal/cache/scanner.go:37-69 | total, listing and warnings of two runs of callbacks are those of each run, added or concatenated |
| Scanner.ScanEventsAppend | internal/cache/scanner.go:37-39 | walking roots a then b makes the callbacks of a followed by those of b |
| Scanner.EntryEventsMatchTree | internal/cache/scanner.go:41-63 | walking an entry counts exactly the bytes, and lists exactly the files, of its tree's readable regular files (directories and symlinks skipped) |
| Scanner.ChildEventsMatchTree | internal/cache/scanner.go:41-63 | the same for the entries of a directory, in order |
| Scanner.ListedSizesAddUp | internal/cache/scanner.go:124-130 | the sizes of the files ListFiles lists add up to what CalculateSize totals over the same walk |
| Scanner.UnreadableRoot | internal/cache/scanner.go:42-50 | a root that cannot be stat'ed contributes no bytes and no files, and a warning exactly when it exists but is unreadable |
| Scanner.RootOrderIrrelevant | internal/cache/scanner.go:37-70 | totals are additive across roots, and total, listing and warnings do not depend on the order the roots are walked, up to order |
| Trimmer.TrimTarget | internal/cache/trimmer.go:29-57 | the target is 90% of the limit rounded toward zero: never above the limit, within one byte of nine tenths of it |
| Trimmer.TakeCount | internal/cache/trimmer.go:88-94 | phase 2 marks no more files than it has |
| Trimmer.MarkForDeletion | internal/cache/trimmer.go:65-95 | the two marking phases produce exactly the aged files followed by the shortest run of the oldest kept files that brings the rest under the target |
| Trimmer.TotalSizeAppend | internal/cache/trimmer.go:65-67 | the total size of two lists is the sum of their totals |
| Trimmer.ExecuteDeletions | internal/cache/trimmer.go:97-131 | the deletion loop returns "interrupted" with the context error at the first cancelled step, the dry-run report, or "deleted N files" with the scan warnings followed by each failed removal's classified error; counts and bytes cover exactly the files handled |
| Trimmer.DeletionLoop | internal/cache/trimmer.go:98-121 | the loop stops exactly when a check finds the context done, having counted and summed only the files handled before; run to the end it has built the dry-run report or the warnings followed by the removal failures |
| Trimmer.HandleFile | internal/cache/trimmer.go:106-120 | a dry run counts the file and adds its report line; a real run counts it only when os.Remove succeeds and otherwise records its classified error |
| Trimmer.CanceledAt | internal/cache/trimmer.go:99-102 | a run cancelled before step i reports "interrupted", the cancellation error, and only the files handled before i |
| Trimmer.RanToEnd | internal/cache/trimmer.go:123-131 | a run that is never cancelled reports the dry-run text or "deleted N files" and counts every file handled |
| Trimmer.TrimListed | internal/cache/trimmer.go:34-132 | a listing error is returned with an empty result; no files gives "no files found" with the scan warnings; otherwise the files are sorted oldest first, as a permutation, and the plan is executed |
| Trimmer.SortedCopy | internal/cache/trimmer.go:45-49 | the listing comes out sorted oldest first, as a permutation |
| Trimmer.TrimFiles | internal/cache/trimmer.go:45-131 | a nonempty listing is sorted oldest first, as a permutation, and the plan against the cutoff and 90% of maxSize is executed |
| Trimmer.AgePhase | internal/cache/trimmer.go:69-76 | the loop collects the files older than the cutoff, in order, and sums the sizes of the others |
| Trimmer.KeptFiles | internal/cache/trimmer.go:80-86 | the loop collects the files not older than the cutoff, in order |
| Trimmer.SizePhase | internal/cache/trimmer.go:88-94 | the loop takes kept files, oldest first, up to the first point where the rest fits in the target (all of them if it never does) |
| Trimmer.Trim | internal/cache/trimmer.go:34-132 | the same over a file system: the files trimmed are exactly those ListFiles finds under the paths |
| Trimmer.AgedFreshPartition | internal/cache/trimmer.go:69-76 | phase 1 splits the files, as a multiset, into the aged and the kept ones |
| Trimmer.FreshNotAged | internal/cache/trimmer.go:71-75 | no kept file is older than the cutoff |
| Trimmer.PlanCoversAgedFiles | internal/cache/trimmer.go:69-95 | every file older than the cutoff is deleted, and nothing is deleted that was not listed, nor more often |
| Trimmer.SizePhaseMinimal | internal/cache/trimmer.go:78-95 | phase 2 stops at the first point where the rest fits under the target, takes nothing when the kept files already fit, and takes something when they do not |
| Trimmer.AllAged | internal/cache/trimmer.go:69-76 | when every file is older than the cutoff, every file is marked in phase 1 and none is kept |
| Trimmer.SortedSplit | internal/cache/trimmer.go:45-76 | over a listing sorted oldest first, the aged files are a prefix and the kept ones the rest |
| Trimmer.MarkedIsOldestPrefix | internal/cache/trimmer.go:45-95 | over a sorted listing the deleted files are exactly its oldest prefix |
| Trimmer.RunSnoc | internal/cache/trimmer.go:106-120 | each step of the loop extends the files counted, their bytes and the dry-run text by that step alone |
| Trimmer.ErrorsSnoc | internal/cache/trimmer.go:114-116 | each failed removal appends exactly its own classified error |
| Trimmer.RemovedAndFailuresCount | internal/cache/trimmer.go:114-120 | every marked file is either removed or has an error recorded, never both |
| Trimmer.RemovedBytes | internal/cache/trimmer.go:119 | the bytes freed never exceed those of the marked files |
| Trimmer.AllRemoved | internal/cache/trimmer.go:114-120 | when every removal succeeds, every marked file is removed |
| Trimmer.TotalSizePrefix | internal/cache/trimmer.go:99-102 | the files handled before a cancellation hold no more bytes than all the marked files |
| Trimmer.ExecutionAccounting | internal/cache/trimmer.go:97-131 | no run counts more files or frees more bytes than were marked; the error is absent exactly when no cancellation is reached; a completed real run has the scan warnings first and one error per file not deleted |
| Trimmer.RealRunErrors | internal/cache/trimmer.go:115-129 | a completed real run returns the scan warnings followed by one error for each marked file it did not delete |
| Trimmer.DryRunMatchesRealRun | internal/cache/trimmer.go:106-120 | when every removal would succeed, a dry run reports the same count and bytes as the real run |
| Trimmer.SizeOnlyScenario | internal/cache/trimmer_test.go:47-70 | three 1000-byte files, a 60-day age limit and a 2000-byte limit (target 1800): the two oldest are deleted, 2000 bytes |
| Trimmer.AgeAndSizeScenario | internal/cache/trimmer_test.go:125-147 | 500-byte files aged 60, 15 and 5 days with a 30-day age limit and a 1000-byte limit: the oldest goes by age and the next by size |
| Sorting.SortByModTime | internal/cache/trimmer.go:45-49 | the listing ends up ordered by modification time, oldest first, as a permutation of what it held |
| Sorting.StrLessTotal | internal/config/config.go:50 | the byte-wise string order sort.Strings uses is total and asymmetric |
| Sorting.StrLessTransitive | internal/config/config.go:50 | that order is transitive |
| Sorting.SortStrings | internal/config/config.go:50-62 | sort.Strings leaves the names in ascending order, as a permutation of what they were |
| Common.Context.Reached | internal/cache/trimmer.go:99-104 | the number of loop steps that run before a cancellation check finds the context done: every earlier check passed and, when it stops early, that check fails |
| Common.Truncate | internal/cache/trimmer.go:107 | time.Duration.Truncate rounds toward zero to a multiple of the unit, and returns the duration unchanged for a unit that is not positive |
| Text.TrimSpacePadded | internal/cli/clean.go:139 | whitespace around an input never changes what strings.TrimSpace returns |
| Text.TrimSpaceIdempotent | internal/config/duration.go:20 | trimming twice is trimming once |
| Text.ToLower | internal/cli/clean.go:139 | lower-casing keeps the length and lowers each character on its own |
| Text.Itoa | internal/cache/trimmer.go:128 | the decimal rendering of a count spells its value, with a minus sign for a negative one |
| Text.Quote | internal/config/config.go:27 | %q of a plain string is the string between double quotes |
| Paths.ExpandTilde | internal/config/path.go:15-35 | only "~" alone or a "~/" prefix is replaced: "~" by the home directory as it is, "~/rest" by `filepath.Join` of the home directory and the rest; a path without a leading "~" is kept; a home lookup error fails exactly for a path with a leading "~", wrapped as "get home dir" |
| Paths.ExpandTildeSlash | internal/config/path.go:30-31 | "~/rest" expands to the cleaned join of the home directory and the rest |
| Paths.ExpandTildeIdempotent | internal/config/path.go:16-35 | with an absolute home directory, expanding twice is expanding once |
| Paths.ExpandTildeRelativeHome | internal/config/path.go:16-35 | with the relative home "a/..", "~/~/b" expands to "~/b", which expands again to "b": idempotence needs an absolute home |
| Paths.TildeSlashUnderHome | internal/config/path.go:30-31 | with a clean absolute home directory and a clean relative rest, "~/rest" expands to the home directory, one slash, then the rest |
| Paths.TildeParent | internal/config/path.go:30-31 | "~/../name" expands to the sibling "name" of a clean absolute home directory |
| Paths.TildeSlashesCollapse | internal/config/path.go:30-31 | "~/rest/" and "~//rest" expand as "~/rest" does |
| Paths.Expansion | internal/config/path.go:41-55 | one pattern contributes its expansion alone when it has no glob character, or the matches of the glob, whose error is wrapped as "glob" with the pattern quoted |
| Paths.ExpandPaths | internal/config/path.go:37-59 | the patterns are expanded in order, stopping at the first error |
| Paths.ExpandAllAppend | internal/config/path.go:41-56 | expanding two lists of patterns gives the first error, the first list's before the second's, or else both expansions concatenated |
| Paths.FailedPrefix | internal/config/path.go:43-51 | once some prefix of the patterns fails, the whole expansion fails with that error |
| Paths.ExpandAllFails | internal/config/path.go:41-58 | the expansion fails exactly when some pattern fails, and then with the error of the first that does |
| Paths.GatherAppend | internal/config/path.go:41-56 | gathering two runs of per-pattern outcomes is gathering each and combining them, the first error winning |
| Paths.GatherFails | internal/config/path.go:41-58 | gathered outcomes fail exactly when one of them does, and then with the first failing one's error |
| Paths.LiteralPatternsKept | internal/config/path.go:47-55 | patterns without a leading "~" and without a glob character expand to themselves |
| Paths.ExpandedPathOrigin | internal/config/path.go:47-55 | every expanded path is some pattern's expansion or a match of its glob |
| Paths.PathsExist | internal/config/path.go:88-100 | true exactly when the expansion succeeds and some expanded path can be stat'ed |
| Config.Problem | internal/config/config.go:26-31 | a provider without paths is rejected as "at least one path is required", one without max_size as "max_size is required", and nothing else is rejected |
| Config.Validate | internal/config/config.go:23-34 | no error exactly when every provider has a path and a max_size; an error is the problem of some provider of the configuration |
| Config.GetProvider | internal/config/config.go:36-40 | the provider and true for a configured name; the zero provider and false otherwise |
| Config.SortedDistinctIsStrict | internal/config/config.go:50 | a sorted list without repeats is strictly ascending |
| Config.SortNames | internal/config/config.go:50-62 | sorting distinct names gives a strictly ascending permutation of them |
| Config.AllEnabledProviders | internal/config/config.go:54-64 | exactly the enabled providers' names, strictly ascending |
| Config.EnabledProviders | internal/config/config.go:42-52 | exactly the names of enabled providers whose paths exist, strictly ascending |
| Config.UsableAreEnabled | internal/config/config.go:46-58 | every provider EnabledProviders lists is also listed by AllEnabledProviders |
| Config.StrictlySortedUnique | internal/config/config.go:50 | two strictly ascending lists of the same names are equal, so both listings are fixed by their sets |
| Defaults.DefaultProviders | internal/config/defaults.go:5-63 | the nine built-in providers, by name |
| Defaults.DefaultsComplete | internal/config/defaults.go:5-63 | every built-in provider is enabled and has exactly one path and a nonempty max_size |
| Defaults.DefaultConfig | internal/config/defaults.go:65-71 | version "1" and exactly the built-in providers |
| Defaults.DefaultConfigValid | internal/config/defaults.go:6-71 | the default configuration passes Validate |
| Defaults.AllDefaultsEnabled | internal/config/defaults.go:6-63 | every default provider is enabled |
| Defaults.DefaultsWithoutCleanCmd | internal/config/defaults.go:6-63 | only uv and jetbrains come without a clean command |
| Duration.Wrap64 | internal/config/duration.go:51 | int64 multiplication wraps modulo 2^64 into the int64 range and leaves an in-range value alone |
| Duration.DigitRun | internal/config/duration.go:11 | the longest prefix of digits the first group of the expression takes |
| Duration.SpaceRun | internal/config/duration.go:11 | the longest prefix of regex spaces the expression skips |
| Duration.MatchesSpelling | internal/config/duration.go:11-25 | a string of digits, regex spaces and at most one unit letter matches with those digits and that unit as submatches |
| Duration.FindSubmatchExact | internal/config/duration.go:11-28 | the matcher accepts exactly the strings of the expression, with the right submatches |
| Duration.Read | internal/config/duration.go:25-49 | a successful read has a count within int64 and one of the four scales |
| Duration.ReadSpelled | internal/config/duration.go:30-46 | a matching string reads as its count and the scale of its lower-cased unit |
| Duration.ReadUnknownUnit | internal/config/duration.go:47-48 | a matching string whose lower-cased unit the switch lacks is an "unknown duration unit" error |
| Duration.ParseDuration | internal/config/duration.go:19-52 | blank input is the thirty-day default; a result is within int64; it fails exactly when the trimmed input fails to read |
| Duration.NonNegativeWithoutOverflow | internal/config/duration.go:51 | without int64 overflow the duration is the count times the scale and is not negative |
| Duration.ParseCountWithUnit | internal/config/duration.go:38-51 | a decimal count, any regex spaces and a unit letter in either case parse to the count times that unit |
| Duration.ParseBareCount | internal/config/duration.go:39-40 | a count without a unit means seconds |
| Duration.PaddingIgnored | internal/config/duration.go:20 | whitespace around the input never changes the outcome |
| Duration.NonDigitStartRejected | internal/config/duration.go:25-28 | an input whose first non-space character is not a digit is an "invalid duration format" error quoting the trimmed input |
| Duration.SignRejected | internal/config/duration.go:11-28 | a leading sign is always an error |
| Duration.CountOutOfRange | internal/config/duration.go:30-33 | a count beyond int64 is a "parse duration value" error |
| Duration.LongSIsUnknownUnit | internal/config/duration.go:11-48 | U+017F passes the case-insensitive expression as a unit but is an unknown unit to the switch |
| Duration.UnknownSuffixRejected | internal/config/duration.go:25-28 | a count followed by a character that is no digit, space or unit letter is an error |
| Duration.BlankIsDefault | internal/config/duration.go:20-23 | blank input means the thirty-day default |
| ProviderBase.NewBaseProvider | internal/provider/base.go:16-33 | the paths are expanded first and their error returned as is; then the size is parsed and its error returned; otherwise the record holds the name, exactly the expanded paths and the parsed limit |
| ProviderBase.CurrentSize | internal/provider/base.go:45-48 | the size is the scanner's total over exactly the provider's stored paths |
| FileProvider.StopAt | internal/provider/file.go:62-65 | where the loop would stop on its own is never past the end of the listing |
| FileProvider.StopAtIsFirst | internal/provider/file.go:62-65 | that stop is the first index at which the bytes counted cover the excess, or the end |
| FileProvider.StopAtFound | internal/provider/file.go:62-65 | an index before which the excess is never covered and at which it is, or the end, is the stop |
| FileProvider.StopAtBeyond | internal/provider/file.go:62-65 | the stop lies past any index up to which the excess is still uncovered |
| FileProvider.DeleteOldest | internal/provider/file.go:54-111 | the deletion loop and the result built from it are exactly the sweep of the sorted listing over the excess |
| FileProvider.DeleteLoop | internal/provider/file.go:62-91 | the loop stops at the first index where the bytes counted cover the excess, or at the first cancelled check before that, or at the end; counts, bytes, dry-run lines and error entries cover exactly the files handled |
| FileProvider.LinesSnoc | internal/provider/file.go:78-85 | each file handled adds exactly its own dry-run line or error entry |
| FileProvider.SweepCanceled | internal/provider/file.go:67-75 | a cancellation seen before the excess is covered returns "interrupted", the bytes and count so far, and the context error |
| FileProvider.SweepFinished | internal/provider/file.go:93-111 | otherwise a dry run returns its report lines and a real run "deleted N files", followed by the error entries when there are any, with the bytes and count handled |
| FileProvider.DeleteOne | internal/provider/file.go:77-90 | one step counts the file in a dry run, or when os.Remove succeeds, and records the removal error otherwise |
| FileProvider.CleanListed | internal/provider/file.go:33-112 | a size error is returned with an empty result; a size within the limit gives "already under limit"; a listing error is returned; otherwise the listing is sorted oldest first, as a permutation, and swept over the bytes beyond the limit |
| FileProvider.Clean | internal/provider/file.go:33-112 | the same over the provider's own paths: under the limit nothing is done, over it the files the scanner lists are swept |
| FileProvider.SweepCoversExcess | internal/provider/file.go:62-89 | unless interrupted, the sweep frees at least the excess or reaches the end; a dry run over enough bytes always covers the excess, and its last file was needed to do so |
| FileProvider.EntriesAndRemovals | internal/provider/file.go:84-90 | each file a real run reaches is either removed or given an error entry, never both |
| FileProvider.ReachedFilesAccounted | internal/provider/file.go:84-109 | a real run that is not interrupted counts every file it reached as deleted or as an error |
| FileProvider.TotalSizeWithout | internal/provider/file.go:55 | dropping one file from a listing takes its size off the total |
| FileProvider.MultisetWithout | internal/provider/file.go:50-52 | taking the same file out of two permutations of each other leaves two permutations |
| FileProvider.TotalSizeOfPermutation | internal/provider/file.go:50-52 | sorting does not change the total size of the listing |
| FileProvider.DryRunReachesLimit | internal/provider/file.go:34-98 | over the provider's own paths, an uninterrupted dry run always frees at least the bytes over the limit |
| Versions.SplitDot | internal/provider/jetbrains.go:197-198 | strings.Split on "." gives at least one piece and no piece holds a dot |
| Versions.SplitNoDot | internal/provider/jetbrains.go:197-198 | a string without a dot is a single piece |
| Versions.SplitAtDot | internal/provider/jetbrains.go:197-198 | splitting at a dot splits each side separately |
| Versions.SplitDotSnoc | internal/provider/jetbrains.go:197-198 | one more character starts a new piece if it is a dot and otherwise extends the last piece |
| Versions.ScanUint | internal/provider/jetbrains.go:208-211 | strconv.ParseUint's digit loop never returns a value beyond uint64 except by reaching the end with it |
| Versions.DigitsPrefixBound | internal/provider/jetbrains.go:208-211 | a prefix of a digit string never spells more than the whole |
| Versions.ScanUintDigits | internal/provider/jetbrains.go:208-211 | a digit string reads as its value, or as a range error exactly when it overflows |
| Versions.AtoiItoa | internal/provider/jetbrains.go:208-211 | strconv.Atoi reads back the decimal digits of any non-negative int64 |
| Versions.AtoiClamps | internal/provider/jetbrains.go:208-211 | a digit string too large for int64 reads as the largest int64, the value Atoi returns beside its range error |
| Versions.CompareFrom | internal/provider/jetbrains.go:205-222 | the comparison loop answers -1, 0 or 1 |
| Versions.CompareVersions | internal/provider/jetbrains.go:194-223 | compareVersions answers -1, 0 or 1 |
| Versions.CompareStep | internal/provider/jetbrains.go:205-222 | past the longer list the answer is 0; before it, the first segment that differs decides |
| Versions.CompareFromReflexive | internal/provider/jetbrains.go:205-222 | comparing a segment list with itself from any point gives 0 |
| Versions.CompareFromAntisymmetric | internal/provider/jetbrains.go:205-222 | swapping the lists negates the loop's answer |
| Versions.CompareFromTransitive | internal/provider/jetbrains.go:205-222 | "not above" is transitive for the loop |
| Versions.CompareReflexive | internal/provider/jetbrains.go:196-223 | every version equals itself |
| Versions.CompareAntisymmetric | internal/provider/jetbrains.go:196-223 | compareVersions(a, b) is minus compareVersions(b, a) |
| Versions.CompareTransitive | internal/provider/jetbrains.go:196-223 | "not above" is transitive, so the order can sort the versions of a product |
| Versions.MinorVersionsNumeric | internal/provider/jetbrains.go:194-223 | segments compare as numbers: y.a is below y.b exactly when a < b (2024.2 is below 2024.10) |
| Versions.SecondSegmentDecides | internal/provider/jetbrains.go:194-223 | two versions with the same first segment compare as the values of their second segments |
| Versions.MissingSegmentIsZero | internal/provider/jetbrains.go:206-212 | a missing segment counts as 0, so y equals y.0 |
| Versions.ZeroSegmentAppended | internal/provider/jetbrains.go:206-212 | appending a segment worth 0 leaves a version equal to itself |
| Versions.UnparsableSegmentIsZero | internal/provider/jetbrains.go:208-211 | a segment that is not a number counts as 0 |
| Versions.NoDotInNumber | internal/provider/jetbrains.go:197 | the decimal rendering of a number has no dot and is one segment |
| Versions.TrailingDigits | internal/provider/jetbrains.go:19 | the run of digits that ends a name, which the pattern's last group takes |
| Versions.TrailingDigitsAfter | internal/provider/jetbrains.go:19 | digits after a non-digit are exactly that run |
| Versions.MatchVersionDirSound | internal/provider/jetbrains.go:161-168 | what the pattern matches is a product name (a letter then letters and digits) followed by a version (four digits, a dot, digits), with those as the groups |
| Versions.MatchVersionDirComplete | internal/provider/jetbrains.go:161-168 | every product name followed by a version matches, with those groups |
| Versions.SortVersions | internal/provider/jetbrains.go:181-183 | a product's versions end up in ascending version order, as a permutation |
| Versions.InsertVersion | internal/provider/jetbrains.go:181-183 | one insertion step extends the sorted prefix by one, as a permutation |
| Versions.SettledAt | internal/provider/jetbrains.go:181-183 | where an insertion stops, the prefix up to the inserted element is in order |
| FilePath.LastSlash | internal/config/path.go:31 | the index of the last slash, or -1: no slash follows it |
| FilePath.Elements | internal/config/path.go:31 | the elements of a path are non-empty and hold no slash |
| FilePath.ElementsAppend | internal/config/path.go:31 | the elements of two paths joined by a slash are those of the first, then those of the second |
| FilePath.ElementsOfSlashed | internal/config/path.go:31 | elements written with single slashes, after a leading slash or not, split back into the same elements |
| FilePath.ResolveResolved | internal/config/path.go:31 | what cleaning keeps are proper elements other than ".", with ".." only at the front of a relative path and never at the root |
| FilePath.ResolveFixed | internal/config/path.go:31 | resolving elements that are already resolved changes nothing |
| FilePath.CleanResolved | internal/config/path.go:31 | resolved elements written back as a path are already clean, and the path is absolute exactly when asked to be |
| FilePath.CleanIdempotent | internal/config/path.go:31 | cleaning never returns the empty path, keeps a path absolute or relative, and cleaning a clean path changes nothing |
| FilePath.CleanPlain | internal/config/path.go:31 | plain elements written with single slashes are already clean |
| FilePath.JoinPlain | internal/config/path.go:31 | a plain relative path joined under a plain absolute one is the two separated by one slash |
| FilePath.JoinRooted | internal/config/path.go:31 | joining under an absolute directory gives an absolute path |
| FilePath.JoinTrailingSlash | internal/config/path.go:31 | a trailing slash on the joined name makes no difference |
| FilePath.JoinLeadingSlash | internal/config/path.go:31 | a leading slash on the joined name does not make it absolute: the doubled slash collapses |
| FilePath.JoinParent | internal/config/path.go:31 | "../name" joined under a plain absolute directory replaces its last element by the name |
| FilePath.JoinThroughParent | internal/config/path.go:31 | joining a relative name under "a/.." is cleaning the name alone |
| FilePath.DropTrailingSlashes | internal/provider/jetbrains.go:108-118 | filepath.Base's first step: a prefix of the path without a trailing slash |
| FilePath.AfterLastSlash | internal/provider/jetbrains.go:108-118 | what follows the last slash holds no slash |
| FilePath.Base | internal/provider/jetbrains.go:108-118 | filepath.Base never returns the empty string |
| FilePath.AfterLastSlashOfName | internal/provider/jetbrains.go:169 | after a directory ending in a slash, the last element is the name itself |
| FilePath.BaseOfJoin | internal/provider/jetbrains.go:112-169 | the base of an entry's path joined under any directory is the entry's name, so the report names each version directory |
| JetBrains.VersionDirOf | internal/provider/jetbrains.go:156-170 | one directory entry yields at most one version directory |
| JetBrains.CollectedFailsFrom | internal/provider/jetbrains.go:147-154 | once a listing fails with an error other than a missing directory, the whole search fails with that error |
| JetBrains.CollectedAreVersionDirs | internal/provider/jetbrains.go:147-172 | every collected directory is a product name followed by a version, joined under one of the provider's paths |
| JetBrains.DirsInAreVersionDirs | internal/provider/jetbrains.go:156-170 | the same for one listing |
| JetBrains.OfProducts | internal/provider/jetbrains.go:171 | the directories of the chosen products, and exactly those |
| JetBrains.OfAbsentProducts | internal/provider/jetbrains.go:171 | products no directory has select nothing |
| JetBrains.OfProductsSnoc | internal/provider/jetbrains.go:171 | one more directory joins its own product's list only |
| JetBrains.OfProductsUnion | internal/provider/jetbrains.go:171-176 | the lists of disjoint sets of products add up, as multisets |
| JetBrains.OfAllProducts | internal/provider/jetbrains.go:171-176 | selecting every product there is selects every directory |
| JetBrains.AddVersionDir | internal/provider/jetbrains.go:171 | appending to the product's list keeps every list equal to the directories found so far of that product |
| JetBrains.GroupListing | internal/provider/jetbrains.go:156-172 | the inner loop adds exactly the version directories of one listing, grouped by product |
| JetBrains.PathsOf | internal/provider/jetbrains.go:187 | the path of each directory, in order |
| JetBrains.PathsOfAppend | internal/provider/jetbrains.go:187 | the paths of two lists are the paths of each, concatenated |
| JetBrains.KeepLatest | internal/provider/jetbrains.go:176-188 | one product's turn marks all its directories but one, which is at least every other version of it |
| JetBrains.GroupByProduct | internal/provider/jetbrains.go:145-173 | the first loop fails exactly when some listing fails; otherwise it groups every directory collected by product |
| JetBrains.KeepsLatestStep | internal/provider/jetbrains.go:176-188 | handling one more product keeps the promise for one more product |
| JetBrains.AllButLatest | internal/provider/jetbrains.go:175-191 | the second loop marks all but a latest version of every product, in whatever order the map is walked |
| JetBrains.KeepLatestOfProduct | internal/provider/jetbrains.go:176-190 | one product's pass marks all but a latest of its versions and leaves the other products' marks as they were |
| JetBrains.KeepsLatestOfAll | internal/provider/jetbrains.go:175-191 | once every product is handled, the whole promise holds |
| JetBrains.FindRemovableDirs | internal/provider/jetbrains.go:143-192 | a listing error is returned; otherwise the marked paths, together with one kept directory per product, are a permutation of all version directories found, and each kept one is a latest version of its product |
| JetBrains.OfProductsCount | internal/provider/jetbrains.go:171 | a directory occurs in the selection as often as in the list when its product is chosen, and never otherwise |
| JetBrains.SingleVersionKept | internal/provider/jetbrains.go:177-179 | a product with a single version directory has nothing removed |
| JetBrains.RemovedCount | internal/provider/jetbrains.go:185-188 | exactly one directory per product is kept, so the number removed is the number found minus the number of products |
| JetBrains.DistinctProducts | internal/provider/jetbrains.go:176 | kept directories of pairwise different products number as many as their products |
| JetBrains.OldEnough | internal/provider/jetbrains.go:61-71 | the age filter never adds directories |
| JetBrains.OldEnoughExact | internal/provider/jetbrains.go:62-70 | a directory survives exactly when it was a candidate, its stat succeeds and it was modified strictly before the cutoff |
| JetBrains.FilterOld | internal/provider/jetbrains.go:58-72 | the maxAge loop of smartClean keeps exactly those directories, in order |
| JetBrains.CleanDir | internal/provider/jetbrains.go:106-122 | one pass adds the directory's report line and, in a dry run or after a successful removal, its size |
| JetBrains.CleanDirs | internal/provider/jetbrains.go:86-141 | no directories gives "no old versions to clean"; a cancellation returns "interrupted" with the bytes so far; a dry run returns its trimmed listing; a real run returns "removed N old version directories", or the trimmed error lines when some removal failed |
| JetBrains.CleanDirsLoop | internal/provider/jetbrains.go:96-125 | the loop stops exactly at the first check that finds the context done, with the bytes of the directories before it; run to the end it has every directory's line |
| JetBrains.CleanDirsResult | internal/provider/jetbrains.go:127-140 | after a run to the end over a nonempty list: the trimmed report for a dry run; otherwise the trimmed report, or "removed N old version directories" when nothing was printed; the bytes of all directories |
| JetBrains.DryRunFreesScannedSize | internal/provider/jetbrains.go:106-114 | a dry run reports the scanner's total over the listed directories |
| JetBrains.ScannedSnoc | internal/provider/jetbrains.go:106 | that total grows by each directory's own size |
| JetBrains.RealRunFreesAtMostDryRun | internal/provider/jetbrains.go:111-122 | a real run reports no more bytes than a dry run, and the same when every removal succeeds |
| JetBrains.ReportEmptyIffAllRemoved | internal/provider/jetbrains.go:117-138 | a real run prints error lines exactly when some removal failed |
| JetBrains.AllRemovedMessage | internal/provider/jetbrains.go:132-138 | so a real run that is not cancelled and removes everything prints the count of directories |
| JetBrains.Clean | internal/provider/jetbrains.go:44-84 | a search error is returned with an empty result; otherwise smart mode with a positive maxAge cleans the old enough marked directories, and full mode all marked ones, which keep a latest version of every product |
| JetBrains.SelectDirs | internal/provider/jetbrains.go:55-78 | smart mode with a positive maxAge keeps only the marked directories old enough; otherwise all marked directories |
| CommandProvider.NewCommandProvider | internal/provider/command.go:21-32 | the base record's error is returned as is; otherwise the base record and the command kept verbatim |
| CommandProvider.Reclaimed | internal/provider/command.go:89-92 | the bytes reported are how much the paths shrank, and 0 when they grew |
| CommandProvider.RunMeasured | internal/provider/command.go:66-97 | the paths are measured before and after the run; a failed run reports its trimmed output and passes its error; a successful one reports the trimmed output and the bytes reclaimed |
| CommandProvider.FullClean | internal/provider/command.go:59-98 | a dry run reports "would run: " and the command; a command the splitter rejects is an "invalid command" error; an empty command does nothing; otherwise it is run and measured |
| CommandProvider.FromTrim | internal/provider/command.go:48-56 | a Trim error drops the partial result; otherwise the bytes, count and output of the trim carry over and its warnings are dropped |
| CommandProvider.SmartClean | internal/provider/command.go:42-57 | cache.Trim over the provider's paths with its size limit, its maxAge and the dry-run flag: "no files found" when nothing is listed, otherwise the sorted listing trimmed |
| CommandProvider.Clean | internal/provider/command.go:34-40 | smart mode trims as above, full mode runs the command |
| CommandProvider.DryRunRunsNothing | internal/provider/command.go:60-64 | a full dry run consults neither the splitter nor the subprocess, and succeeds |
| CommandProvider.ReclaimedWithinBefore | internal/provider/command.go:66-97 | a successful real run reports between zero and the paths' size before it, and no file count |
| CommandProvider.InvalidCommandText | internal/provider/command.go:68-71 | a command the splitter rejects is reported as an error wrapped as "invalid command" with an empty result |
| Docker.NewDockerProvider | internal/provider/docker.go:22-32 | the base record's error is returned as is; otherwise the base record and the command kept verbatim |
| Docker.SmartClean | internal/provider/docker.go:58-92 | a dry run reports the prune command that keeps maxSize of build cache; a real run executes it and measures the paths around it |
| Docker.Clean | internal/provider/docker.go:44-133 | without a daemon "docker not available" and nothing else; smart mode prunes; full mode runs the configured command as the command provider does |
| Docker.PruneTextIsArgv | internal/provider/docker.go:58-92 | the command a dry run shows is exactly the words a real run executes, joined by spaces |
| Docker.UnavailableIsInert | internal/provider/docker.go:45-49 | without a daemon the outcome is the same whatever the provider, mode, command or machine |
| Docker.SmartDryRunRunsNothing | internal/provider/docker.go:58-67 | a smart dry run depends only on the size limit and how sizes are rendered, succeeds, and shows "0 B" for a negative limit |
| Docker.PruneReclaimedWithinBefore | internal/provider/docker.go:69-91 | a prune that succeeds reports between zero and the paths' size before it, and no file count |
| Docker.PruneFailurePassesError | internal/provider/docker.go:69-91 | a failed prune reports its trimmed output with no bytes and passes the run's error through |
| Registry.NewProvider | internal/provider/registry.go:9-37 | docker, jetbrains and the five file-based names get their own kinds; any other name without a clean_cmd is refused as "unknown provider %q requires clean_cmd"; otherwise it becomes a command provider; the base record's error is passed through, and a provider carries the name and the base record |
| Registry.LoadProvider | internal/provider/registry.go:60-68 | a name the configuration lacks is "provider %q not found"; otherwise the provider NewProvider makes of its settings |
| Registry.LoadProviders | internal/provider/registry.go:39-58 | the providers of exactly the enabled names whose paths exist, in name order, or the first failure wrapped with its quoted name |
| Registry.LoadAllFailedPrefix | internal/provider/registry.go:49-52 | once some prefix of the names fails, loading all of them fails the same way |
| Registry.LoadAllNamed | internal/provider/registry.go:43-55 | the loaded providers come one per configured name, in the order of the names |
| Registry.LoadAllFails | internal/provider/registry.go:43-57 | loading fails exactly when some configured name's provider fails, and then with such a failure wrapped as "provider %q" |
| Registry.DefaultsLoad | internal/provider/registry.go:19-37 | every built-in default loads once its paths expand and its size parses; uv becomes a file provider and jetbrains a JetBrains provider |
| Registry.Clean | internal/provider/provider.go:34-35 | each kind's Clean returns what that kind promises: docker its outcome; the command, file and JetBrains providers their outcome over some oldest-first order of the listing, or some order of the product map |
| CliClean.Invalid | internal/cli/clean.go:92-97 | exactly the requested names that are not enabled, in the order requested |
| CliClean.ResolveProviders | internal/cli/clean.go:77-106 | no names without --all is an error listing the available providers; --all gives every enabled provider with existing paths, in name order; requested names come back as given when all are enabled, and otherwise "unknown providers" lists the others |
| CliClean.ResolvedAreUsable | internal/cli/clean.go:83-105 | whatever is accepted is enabled with existing paths; an explicit request is accepted exactly when every name in it is, and is then kept in its order with its repeats |
| CliClean.LoadAndFilterProviders | internal/cli/clean.go:108-128 | the providers that load and are available, in order; every other name is reported, with the load error when there is one |
| CliClean.FilteredAccounts | internal/cli/clean.go:112-125 | every name is either loaded or reported, and the loaded ones are available and carry a requested name |
| CliClean.NamesOf | internal/cli/clean.go:131-134 | the providers' names, in order |
| CliClean.ConfirmClean | internal/cli/clean.go:130-143 | the question names every provider, and the answer confirms exactly when, lower-cased and trimmed, it is "y" or "yes" |
| CliClean.LowerSpaces | internal/cli/clean.go:140 | lower-casing keeps whitespace whitespace |
| CliClean.AcceptsPadded | internal/cli/clean.go:139-140 | the answer may be padded with whitespace, its own newline included |
| CliClean.TrimSpaceNoSpace | internal/cli/clean.go:140 | an answer with no whitespace is its own trim |
| CliClean.UnpaddedAnswer | internal/cli/clean.go:139-142 | an answer whose lower-cased form has no whitespace confirms exactly when that form is "y" or "yes" |
| CliClean.SpellsY | internal/cli/clean.go:140-142 | a single letter lower-casing to "y" confirms |
| CliClean.SpellsYes | internal/cli/clean.go:140-142 | three letters lower-casing to "yes" confirm |
| CliClean.SpellsOtherLetter | internal/cli/clean.go:140-142 | any other single non-space letter declines |
| CliClean.UnspacedOtherLength | internal/cli/clean.go:140-142 | an answer without whitespace of a length other than 1 or 3 declines |
| CliClean.ConfirmingAnswers | internal/cli/clean.go:140-142 | "Y", "YES" and "yes" confirm |
| CliClean.DecliningAnswers | internal/cli/clean.go:140-142 | an empty line declines, and so do "n" and "yess" |
| CliClean.ExecuteClean | internal/cli/clean.go:145-194 | the providers are cleaned in order, each in full mode as its kind allows and with the interrupt as its own context sees it; an interrupt seen by the check before a provider stops the run, prints "Cancelled" and returns no error; otherwise the total of the successful cleans is printed and the error names every failure |
| CliClean.InterruptStopsRun | internal/cli/clean.go:149-194 | with no interrupt every provider is cleaned; one before provider k stops the run before it; one during provider k stops it after that provider; a stopped run prints "Cancelled" and returns no error |
| CliClean.InterruptSeenOnward | internal/cli/clean.go:150-157 | the loop and each provider see one context: a provider that sees the interrupt is followed by a loop check that sees it, and every later provider sees it from its first check |
| CliClean.CleanOne | internal/cli/clean.go:159-180 | one provider's clean and the line printed for it |
| CliClean.CleanNextProvider | internal/cli/clean.go:159-180 | one more provider cleaned as allowed extends the lines, the total and the failures by exactly that provider's |
| CliClean.CleanedAsAllowedSnoc | internal/cli/clean.go:149-181 | one more provider cleaned as allowed extends the record of the providers handled |
| CliClean.CleanedSnoc | internal/cli/clean.go:163-180 | one more provider extends the lines, the total by its bytes when it succeeded, and the failures by its entry when it failed |
| CliClean.QuietDryRunSilent | internal/cli/clean.go:159-187 | a quiet dry run prints nothing at all |
| CliClean.FailuresExact | internal/cli/clean.go:164-191 | the command fails exactly when some provider failed, with one entry per failure |
| CliClean.TotalCoversEach | internal/cli/clean.go:172 | the total freed is at least what any one successful clean reported |
| CliClean.TotalNonNegative | internal/cli/clean.go:172 | with no negative byte counts the total is not negative |
| CliClean.RunClean | internal/cli/clean.go:42-75 | a configuration error is wrapped as "load config"; a resolution error is returned; no available provider is "no available providers to clean"; unavailable ones are reported on standard error unless quiet; without --force or --dry-run an answer other than yes prints "Aborted" and cleans nothing; otherwise the clean runs |
| CliClean.ConfirmAndClean | internal/cli/clean.go:64-74 | without --force or --dry-run, anything but yes prints the question and "Aborted" and cleans nothing; otherwise the providers are cleaned and what that prints follows the question, if asked |
| CliStatus.ScanProvider | internal/cli/status.go:86-114 | a size limit that does not parse is recorded as "parse max_size"; paths that do not expand as "expand paths"; otherwise the current size, the limit, both rendered, and over-limit exactly when the size exceeds the limit |
| CliStatus.ScanProviders | internal/cli/status.go:71-84 | one status per name, each in the slot of its name |
| CliStatus.OutputJSON | internal/cli/status.go:116-131 | the document holds every status in order and the sum of their sizes, rendered |
| CliStatus.OutputTable | internal/cli/status.go:133-183 | one row per status (name, current, max, status word, "-" for a size a failed scan never filled in) and a total line with the sum of the sizes |
| CliStatus.RunStatus | internal/cli/status.go:51-69 | a configuration error is wrapped as "load config"; no enabled provider with existing paths gives the empty report; otherwise every such provider, in name order, is scanned and reported as JSON or as a table |
| CliStatus.StatusWordOfScan | internal/cli/status.go:154-161 | a provider shows "error" exactly when its limit does not parse or its paths do not expand, and "OVER" exactly when both succeed and its size exceeds the limit |
| CliStatus.TotalOfScanned | internal/cli/status.go:120-171 | the total counts only the providers whose scan succeeded |
| CliStatus.TotalCurrentSnoc | internal/cli/status.go:120-123 | one more status adds its size to the total |
| CliStatus.TotalCoversEach | internal/cli/status.go:120-123 | the total is at least each provider's size |
| CliStatus.TotalNonNegative | internal/cli/status.go:120-123 | with no negative sizes the total is not negative |
| CliInteractive.NewModel | internal/cli/interactive.go:123-152 | one unscanned item per name, nothing selected, the cursor on the first item, selection state, no bytes freed |
| CliInteractive.MarkAvailable | internal/cli/interactive.go:276-292 | the loops of "a" and "o" add exactly the available items, or the available items over their limit |
| CliInteractive.HandleSelectionKey | internal/cli/interactive.go:251-301 | the handler returns what Select gives for the case of the switch the key falls in, the "a" and "o" loops included |
| CliInteractive.SelectKeepsValid | internal/cli/interactive.go:251-301 | every selection action keeps the cursor on an item (or at 0 over no items) and the selection within the item indices |
| CliInteractive.SelectFrame | internal/cli/interactive.go:251-301 | only the quit action quits and returns the quit command, every other one no command; no action changes the items, the modes, the total freed or the cleaning index; the cursor moves, by exactly one, only on down or up; the selection changes only on toggle, "a", "n" or "o"; the state changes only on enter over a nonempty selection, to confirmation |
| CliInteractive.ToggleTwice | internal/cli/interactive.go:267-274 | space twice gives back the model it started from |
| CliInteractive.SelectionKeysSelect | internal/cli/interactive.go:276-292 | "a" leaves every available item selected; "o" selects exactly the available items over their limit; "n" selects nothing |
| CliInteractive.SelectionKeyNames | internal/cli/interactive.go:252-298 | q, esc and ctrl+c and nothing else quit; space and nothing else toggles; enter and nothing else confirms; a key is ignored exactly when it is none of the twelve the switch names |
| CliInteractive.NextIndexIsLeast | internal/cli/interactive.go:332-344 | the next index is the least selected one after the current one, and there is none exactly when no later item is selected |
| CliInteractive.CleanNext | internal/cli/interactive.go:332-344 | the step is `Advanced`: cleanIdx moves to the next selected item and its clean is asked for, or, when none is left, the state becomes done |
| CliInteractive.AdvanceToNextSelected | internal/cli/interactive.go:332-344 | only cleanIdx and the state change; with a selected item after cleanIdx, the least such becomes cleanIdx and its clean is asked for; otherwise the state is done, no command is issued and cleanIdx is past the list |
| CliInteractive.VisitsExactlySelected | internal/cli/interactive.go:303-344 | from the start of a clean every selected item is visited once, in increasing order, and no other item is |
| CliInteractive.HandleConfirmationKey | internal/cli/interactive.go:303-321 | the key's effect is `Confirm`: y/Y start cleaning, n, N, esc and ctrl+c go back to selection, f/F and s/S choose the mode, other keys change nothing |
| CliInteractive.ConfirmationKeys | internal/cli/interactive.go:303-321 | y/Y keep the selection and the options and start cleaning at the least selected item, or finish at once when nothing is selected; n, N, esc and ctrl+c go back to selection; f/F choose full mode and s/S smart mode; other keys change nothing |
| CliInteractive.HandleDoneKey | internal/cli/interactive.go:323-330 | only enter, q, esc and ctrl+c quit, and other keys change nothing |
| CliInteractive.HandleKey | internal/cli/interactive.go:239-249 | a key goes to the handler of the current state: selection keys to `Select`, confirmation keys to `Confirm`, keys on the done screen to its handler; keys pressed while cleaning change nothing; a valid model stays valid in selection |
| CliInteractive.Update | internal/cli/interactive.go:198-237 | a resize records the window and sets the progress width to the width minus 10, at least 1; a key goes to the current state's handler; a scan result replaces its item; a clean result records the result and error on its item, adds its bytes to totalFreed only without an error, and then advances as `Advanced` does, nothing else changing |
| CliInteractive.FreedByCoversEach | internal/cli/interactive.go:217-222 | over a run of clean results, the bytes freed are at least those of any successful one |
| CliInteractive.FreedByNonNegative | internal/cli/interactive.go:217-222 | with no negative byte counts, the bytes freed are not negative |
| CliInteractive.ScanItem | internal/cli/interactive.go:163-196 | an item is available exactly when its provider loads and is available, and then carries its current size, its limit and over-limit exactly when the size exceeds the limit; otherwise it carries "load error" or "unavailable" |
| CliInteractive.CleanProviderCmd | internal/cli/interactive.go:347-366 | an item whose provider never loaded fails with "provider not loaded"; otherwise its provider cleans with the dry-run flag, in smart or full mode as chosen |
| CliInteractive.SelectedNames | internal/cli/interactive.go:586-594 | the names of the selected items, in list order |
| CliInteractive.NamesUpToCount | internal/cli/interactive.go:586-594 | one name per selected item among those scanned |
| CliInteractive.SelectedNamesCount | internal/cli/interactive.go:586-594 | in a valid model the list of names is as long as the selection |

## Left out

- Goroutines, channels and mutexes in `CalculateSize`/`ListFiles`: the walks run as one sequential fold. Totals and listings are the same up to order, which `Scanner.RootOrderIrrelevant` states.
- File-system and OS calls are oracle fields of `Host.Host`, and their own behaviour is not modelled: `filepath.WalkDir` (as a walk of an abstract tree), `os.Lstat`/`os.Stat`, `os.ReadDir`, `os.Remove`, `os.RemoveAll`, `os.UserHomeDir` and `filepath.Glob`.
- Subprocesses (`exec.CommandContext`, `CombinedOutput`, `docker info`) and the `shellquote.Split` command splitter are oracles.
- `size.ParseSize` and `size.FormatSize` (pkg/size) are oracles. The only rendering rule modelled is that a negative size prints as "0 B".
- The size phase's target is computed in floating point in Go (`float64(maxSize) * 0.9`). The model uses the integer `maxSize * 9 / 10`, rounded toward zero. The two agree for every limit whose nine tenths is below 2^50, which is about 1.25·10^15 bytes; above that the product in floating point can round to a different integer.
- Time is a `now` parameter and modification times are integers. `time.Duration` is an integer count of nanoseconds.
- `internal/config/loader.go` (reading and writing the TOML file), `internal/cli/config.go` (the `config` subcommand), `cmd/cache-buster/main.go` (cobra wiring) and `internal/cli/styles.go` (lipgloss styles) are not part of this model.
- `DirPath`, `Path` and `EnsureDir` in `internal/config/path.go` locate and create the configuration directory. This is file-system I/O and is not part of this model.
- The interactive view (`View`, the spinner, the progress bar and its animation messages) and Bubble Tea's command plumbing are not modelled. Commands are the data values `NoCmd`, `Quit` and `CleanProvider(idx)`, and spinner and progress messages are the single message `Other`, which changes nothing.
- CliInteractive.Update: before the first window-size message the progress bar keeps the library's own default width; the model leaves that width unset (`None`).
- CliInteractive: the Go model shares its `selected` map between value copies. The handlers here return a new model value instead, so aliasing between copies is not captured.
- JSON encoding and table styling in `status.go` are not modelled. A report is the list of statuses, the total, and the cells each row shows.
- `formatResultWithErrors`, which `internal/provider/file_test.go` calls, is not defined in any of the source files modelled here, so it is not part of this model. The " (k errors: …)" suffix that `file.go` builds inline is modelled.
- Signal handling (`signal.NotifyContext`) is modelled as the time an interrupt arrives, an `Interrupt`: never, before the check ahead of some provider, or while some provider cleans. The loop and every provider see views of that one context that agree (`CliClean.InterruptSeenOnward`). Only whether the context is done at each check matters.
- Paths.ExpandTildeIdempotent: stated for an absolute home directory only. `os.UserHomeDir` returns `$HOME` as it is, and with a relative home the cleaned join can start with "~" again (`Paths.ExpandTildeRelativeHome`).
- FilePath: only the slash-separated form of `path/filepath` is modelled. Windows volume names and backslash separators are not.
- Tie order of `sort.Slice` among files with equal modification times, and Go's random map iteration order: the model fixes one sort (an insertion sort) and states the provider results over *some* oldest-first order or *some* walk of the product map.
- Registry.Clean: stated over some oldest-first order of the listing, or some order of the product map, because Go's `sort.Slice` and map iteration fix neither.
- JetBrains.AllButLatest: which directory of equally recent versions is kept depends on Go's sort and is left open; the model states only that the kept one is at least every other version of its product.
- int64 overflow is modelled only where the source guards against it (the duration count and multiplication, and `strconv` parsing). Elsewhere byte counts are unbounded integers.
- `strings.ToLower` lowers the ASCII letters only; Unicode case mapping beyond ASCII is left out. `strings.TrimSpace` uses the full Unicode white-space set.
- `%q` formatting is modelled only for strings with no character that needs escaping.
- Error branches the code can never take are left out: `CalculateSize` and `ListFiles` never return an error, because their walk callback always returns nil. This makes the status "calculate size" error, the interactive "scan error" and the JetBrains size warning unreachable. `Trim` and `FileProvider` take the listing outcome as an input so that their own error branches are still modelled.
- CliClean.ExecuteClean: the `clean` command passes `CleanOptions{DryRun: …}`, whose zero mode is full, so every provider is cleaned in full mode. The smart path is modelled in each provider.
- CommandProvider.FromTrim: trim warnings are dropped from the command provider's result, as the source does.
