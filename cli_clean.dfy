/** internal/cli/clean.go: the `clean` command. It resolves which providers
    to clean, loads them and sets aside those that are unavailable, asks for
    confirmation unless forced or dry, then cleans each in turn, stopping when
    interrupted, and sums what was freed. What the command prints is returned
    as text (standard output and standard error), the confirmation line read
    from standard input is a parameter, and the interrupt is an `Interrupt`:
    when the signal arrives relative to the context checks. */
module CliClean {
  import opened Common
  import opened Text
  import opened Host
  import opened Config
  import opened Sorting
  import opened ProviderBase
  import opened Registry

  // ---------------------------------------------------------------------
  // resolveProviders

  /** The requested names that are not enabled, in the order requested. */
  function Invalid(args: seq<string>, enabled: set<string>): (r: seq<string>)
    ensures forall x :: x in r <==> x in args && x !in enabled
  {
    if args == [] then []
    else
      var last := args[|args| - 1];
      Invalid(args[..|args| - 1], enabled) + (if last in enabled then [] else [last])
  }

  /** What `resolveProviders` returns, given the sorted list of enabled
      providers (whose paths exist): no names and no `--all` is an error
      listing them; `--all` takes them all; otherwise every requested name
      must be among them and the request is kept as given. */
  function Resolution(args: seq<string>, all: bool, available: seq<string>): Result<seq<string>, Error>
  {
    if args == [] && !all then Err(Message("specify providers or use --all\nAvailable: " + Join(available, ", ")))
    else if all then Ok(available)
    else
      var invalid := Invalid(args, set x | x in available);
      if invalid != [] then
        Err(Message("unknown providers: " + Join(invalid, ", ") + "\nAvailable: " + Join(available, ", ")))
      else Ok(args)
  }

  /** `resolveProviders`. The enabled list is computed again for the error
      message; it comes out the same, since it is sorted and free of
      repeats. */
  method ResolveProviders(c: Config, host: Host, args: seq<string>, all: bool)
    returns (r: Result<seq<string>, Error>, ghost available: seq<string>)
    ensures StrictlySorted(available) && forall name :: name in available <==> name in UsableNames(c, host)
    ensures r == Resolution(args, all, available)
  {
    var names := EnabledProviders(c, host);
    available := names;
    if |args| == 0 && !all {
      return Err(Message("specify providers or use --all\nAvailable: " + Join(names, ", "))), available;
    }
    if all {
      return Ok(names), available;
    }
    var enabled: set<string> := {};
    for i := 0 to |names|
      invariant enabled == set x | x in names[..i]
    {
      assert names[..i + 1] == names[..i] + [names[i]];
      enabled := enabled + {names[i]};
    }
    assert names[..|names|] == names;
    var invalid: seq<string> := [];
    for i := 0 to |args|
      invariant invalid == Invalid(args[..i], enabled)
    {
      assert args[..i + 1][..i] == args[..i];
      if args[i] !in enabled {
        invalid := invalid + [args[i]];
      }
    }
    assert args[..|args|] == args;
    if |invalid| > 0 {
      var again := EnabledProviders(c, host);
      StrictlySortedUnique(again, names);
      return Err(Message("unknown providers: " + Join(invalid, ", ") + "\nAvailable: " + Join(again, ", "))), available;
    }
    return Ok(args), available;
  }

  /** Whatever `resolveProviders` accepts is enabled with existing paths,
      and an explicit request is kept exactly, in its order and with its
      repeats. */
  lemma ResolvedAreUsable(c: Config, host: Host, args: seq<string>, all: bool, available: seq<string>)
    requires forall name :: name in available <==> name in UsableNames(c, host)
    ensures var r := Resolution(args, all, available);
      r.Ok? ==> forall i :: 0 <= i < |r.value| ==> r.value[i] in UsableNames(c, host)
    ensures var r := Resolution(args, all, available);
      !all && args != [] ==> (r.Ok? <==> forall i :: 0 <= i < |args| ==> args[i] in UsableNames(c, host))
    ensures var r := Resolution(args, all, available);
      !all && r.Ok? ==> r.value == args
  {
    var r := Resolution(args, all, available);
    if !all && args != [] {
      var invalid := Invalid(args, set x | x in available);
      if invalid != [] {
        assert invalid[0] in invalid;
        assert !forall i :: 0 <= i < |args| ==> args[i] in UsableNames(c, host);
      } else {
        forall i | 0 <= i < |args|
          ensures args[i] in UsableNames(c, host)
        {
          assert args[i] in args;
        }
      }
    }
  }

  // ---------------------------------------------------------------------
  // loadAndFilterProviders

  /** What `loadAndFilterProviders` returns: the providers that load and
      are available, in order, and a line for each name that is not. */
  function Filtered(names: seq<string>, c: Config, host: Host): (seq<Provider>, seq<string>)
  {
    if names == [] then ([], [])
    else
      var name := names[|names| - 1];
      var (providers, unavailable) := Filtered(names[..|names| - 1], c, host);
      match LoadProvider(name, c, host)
      case Err(e) => (providers, unavailable + [name + " (load error: " + ErrorText(e) + ")"])
      case Ok(p) => if !Available(p, host) then (providers, unavailable + [name]) else (providers + [p], unavailable)
  }

  /** `loadAndFilterProviders`. */
  method LoadAndFilterProviders(c: Config, host: Host, names: seq<string>)
    returns (providers: seq<Provider>, unavailable: seq<string>)
    ensures (providers, unavailable) == Filtered(names, c, host)
  {
    providers, unavailable := [], [];
    for i := 0 to |names|
      invariant (providers, unavailable) == Filtered(names[..i], c, host)
    {
      assert names[..i + 1][..i] == names[..i];
      var name := names[i];
      var p := LoadProvider(name, c, host);
      if p.Err? {
        unavailable := unavailable + [name + " (load error: " + ErrorText(p.error) + ")"];
        continue;
      }
      if !Available(p.value, host) {
        unavailable := unavailable + [name];
        continue;
      }
      providers := providers + [p.value];
    }
    assert names[..|names|] == names;
  }

  /** Every name is either loaded or reported; the loaded ones are
      available and carry the names they were asked for. */
  lemma {:induction false} FilteredAccounts(names: seq<string>, c: Config, host: Host)
    ensures var (providers, unavailable) := Filtered(names, c, host);
      |providers| + |unavailable| == |names|
    ensures var (providers, _) := Filtered(names, c, host);
      forall i :: 0 <= i < |providers| ==> Available(providers[i], host) && BaseOf(providers[i]).name in names
  {
    if names != [] {
      var front := names[..|names| - 1];
      FilteredAccounts(front, c, host);
      assert forall x :: x in front ==> x in names;
    }
  }

  // ---------------------------------------------------------------------
  // confirmClean

  /** The names of the providers, in order. */
  function NamesOf(providers: seq<Provider>): (r: seq<string>)
    ensures |r| == |providers| && forall i :: 0 <= i < |r| ==> r[i] == BaseOf(providers[i]).name
  {
    seq(|providers|, i requires 0 <= i < |providers| => BaseOf(providers[i]).name)
  }

  /** The question `confirmClean` asks. */
  function Prompt(names: seq<string>): string
  {
    "Clean " + Itoa(|names|) + " provider(s): " + Join(names, ", ") + "? [y/N]: "
  }

  /** Only "y" or "yes", in any case and with any surrounding whitespace,
      confirms. */
  predicate Accepts(response: string)
  {
    var answer := TrimSpace(ToLower(response));
    answer == "y" || answer == "yes"
  }

  /** `confirmClean`: the question, and whether the line read confirms. */
  method ConfirmClean(providers: seq<Provider>, response: string) returns (prompt: string, confirmed: bool)
    ensures prompt == Prompt(NamesOf(providers))
    ensures confirmed == Accepts(response)
  {
    var names: seq<string> := [];
    for i := 0 to |providers|
      invariant names == NamesOf(providers[..i])
    {
      names := names + [BaseOf(providers[i]).name];
    }
    assert providers[..|providers|] == providers;
    prompt := Prompt(names);
    var answer := TrimSpace(ToLower(response));
    confirmed := answer == "y" || answer == "yes";
  }

  /** Lower-casing keeps spaces spaces. */
  lemma LowerSpaces(s: string)
    requires AllSpace(s)
    ensures AllSpace(ToLower(s))
  {
    forall k | 0 <= k < |s|
      ensures IsSpace(ToLower(s)[k])
    {
      assert IsSpace(s[k]);
    }
  }

  /** The answer may be padded with whitespace (the line's own newline
      included) without changing whether it confirms. */
  lemma AcceptsPadded(pre: string, response: string, post: string)
    requires AllSpace(pre) && AllSpace(post)
    ensures Accepts(pre + response + post) == Accepts(response)
  {
    var all := pre + response + post;
    assert ToLower(all) == ToLower(pre) + ToLower(response) + ToLower(post);
    LowerSpaces(pre);
    LowerSpaces(post);
    TrimSpacePadded(ToLower(pre), ToLower(response), ToLower(post));
  }

  /** A string with no whitespace is its own trim. */
  lemma TrimSpaceNoSpace(s: string)
    requires forall k :: 0 <= k < |s| ==> !IsSpace(s[k])
    ensures TrimSpace(s) == s
  {
  }

  /** An answer whose lower-cased form holds no whitespace confirms exactly
      when that form is "y" or "yes": there is nothing to trim. */
  lemma UnpaddedAnswer(s: string)
    requires forall k :: 0 <= k < |s| ==> !IsSpace(LowerChar(s[k]))
    ensures Accepts(s) <==> ToLower(s) == "y" || ToLower(s) == "yes"
  {
    TrimSpaceNoSpace(ToLower(s));
  }

  /** A one-letter answer that lower-cases to "y" confirms. */
  lemma SpellsY(s: string)
    requires |s| == 1 && LowerChar(s[0]) == 'y'
    ensures Accepts(s)
  {
    UnpaddedAnswer(s);
    assert ToLower(s) == "y";
  }

  /** A three-letter answer that lower-cases to "yes" confirms. */
  lemma SpellsYes(s: string)
    requires |s| == 3 && LowerChar(s[0]) == 'y' && LowerChar(s[1]) == 'e' && LowerChar(s[2]) == 's'
    ensures Accepts(s)
  {
    UnpaddedAnswer(s);
    assert ToLower(s) == "yes";
  }

  /** Any other single non-space letter declines. */
  lemma SpellsOtherLetter(s: string)
    requires |s| == 1 && LowerChar(s[0]) != 'y' && !IsSpace(LowerChar(s[0]))
    ensures !Accepts(s)
  {
    UnpaddedAnswer(s);
    assert ToLower(s)[0] != 'y';
  }

  /** An answer without whitespace whose length is neither 1 nor 3 declines. */
  lemma UnspacedOtherLength(s: string)
    requires forall k :: 0 <= k < |s| ==> !IsSpace(LowerChar(s[k]))
    requires |s| != 1 && |s| != 3
    ensures !Accepts(s)
  {
    UnpaddedAnswer(s);
  }

  /** "Y" and "YES" confirm, like "yes". */
  lemma ConfirmingAnswers()
    ensures Accepts("Y") && Accepts("YES") && Accepts("yes")
  {
    SpellsY("Y");
    SpellsYes("YES");
    SpellsYes("yes");
  }

  /** An empty line, the default, declines, and so does anything but "y"
      or "yes". */
  lemma DecliningAnswers()
    ensures !Accepts("") && !Accepts("n") && !Accepts("yess")
  {
    SpellsOtherLetter("n");
    UnspacedOtherLength("yess");
  }

  // ---------------------------------------------------------------------
  // executeClean

  /** One provider handled by `executeClean`. */
  datatype Cleaned = Cleaned(name: string, result: CleanResult, err: Option<Error>)

  /** What `executeClean` prints for one provider. */
  function Line(c: Cleaned, dryRun: bool, quiet: bool, fmt: Formatters): string
  {
    var head := if !quiet && !dryRun then "Cleaning " + c.name + "... " else "";
    if c.err.Some? then head + (if !quiet then "error\n" else "")
    else if dryRun then head + (if !quiet then "[dry-run] " + c.name + ": " + c.result.output + "\n" else "")
    else head + (if !quiet then "done (freed " + FormatSize(fmt, c.result.bytesCleaned) + ")\n" else "")
  }

  function Lines(cs: seq<Cleaned>, dryRun: bool, quiet: bool, fmt: Formatters): string
  {
    if cs == [] then "" else Lines(cs[..|cs| - 1], dryRun, quiet, fmt) + Line(cs[|cs| - 1], dryRun, quiet, fmt)
  }

  /** The bytes the successful cleans freed. */
  function Total(cs: seq<Cleaned>): int
  {
    if cs == [] then 0
    else Total(cs[..|cs| - 1]) + (if cs[|cs| - 1].err.None? then cs[|cs| - 1].result.bytesCleaned else 0)
  }

  /** "name: error" for each failed clean, in order. */
  function Failures(cs: seq<Cleaned>): seq<string>
  {
    if cs == [] then []
    else
      var c := cs[|cs| - 1];
      Failures(cs[..|cs| - 1]) + (if c.err.Some? then [c.name + ": " + ErrorText(c.err.value)] else [])
  }

  /** What is printed after the last provider. */
  function Footer(total: int, dryRun: bool, quiet: bool, fmt: Formatters): string
  {
    if !quiet && !dryRun then "\nTotal: " + FormatSize(fmt, total) + " freed\n"
    else if quiet && !dryRun then FormatSize(fmt, total) + "\n"
    else ""
  }

  /** The error `executeClean` ends with: one naming every failure. */
  function FailureError(failures: seq<string>): Option<Error>
  {
    if failures == [] then None else Some(Message("some providers failed:\n  " + Join(failures, "\n  ")))
  }

  /** When the interrupt that `signal.NotifyContext` turns into a done
      context arrives, relative to the checks that look at that context:
      never; before the check ahead of provider `k` of the loop; or while
      provider `k` cleans, first seen by check `check` of its own loop. A
      done context stays done, so every later check sees it too. */
  datatype Interrupt = Never | BeforeProvider(k: nat) | DuringProvider(k: nat, check: nat)

  /** The context as the loop over providers sees it. */
  function OuterContext(intr: Interrupt): Context
  {
    match intr
    case Never => Context(None)
    case BeforeProvider(k) => Context(Some(k))
    case DuringProvider(k, _) => Context(Some(k + 1))
  }

  /** The same context as provider `i`'s own loop sees it. */
  function ProviderContext(intr: Interrupt, i: nat): Context
  {
    match intr
    case Never => Context(None)
    case BeforeProvider(k) => if i < k then Context(None) else Context(Some(0))
    case DuringProvider(k, check) =>
      if i < k then Context(None) else if i == k then Context(Some(check)) else Context(Some(0))
  }

  /** The views agree on one context: a provider whose loop sees the
      interrupt is followed by a check of the outer loop that sees it, and
      every later provider sees it from its first check; a provider is
      interrupted only if the outer loop sees it next; once the outer loop
      sees it, so would the provider it was about to clean. */
  lemma InterruptSeenOnward(intr: Interrupt, i: nat, j: nat)
    ensures ProviderContext(intr, i).doneFrom.Some? ==> OuterContext(intr).DoneAt(i + 1)
    ensures ProviderContext(intr, i).doneFrom.Some? && i < j ==> ProviderContext(intr, j).DoneAt(0)
    ensures !OuterContext(intr).DoneAt(i + 1) ==> ProviderContext(intr, i).doneFrom.None?
    ensures OuterContext(intr).DoneAt(i) ==> ProviderContext(intr, i).DoneAt(0)
  {
  }

  /** Each provider was cleaned, in full mode, as its kind allows. */
  ghost predicate CleanedAsAllowed(providers: seq<Provider>, cs: seq<Cleaned>, host: Host, dryRun: bool, intr: Interrupt)
  {
    |cs| <= |providers| &&
    forall i :: 0 <= i < |cs| ==>
      cs[i].name == BaseOf(providers[i]).name
      && CleanAllows(providers[i], host, CleanOptions(dryRun, Full), ProviderContext(intr, i), (cs[i].result, cs[i].err))
  }

  /** What `executeClean` prints (`out`) and returns, with `cs` the record
      of the providers it reached: an interrupt stops before the next
      provider and ends with "Cancelled" and no error, whatever failed
      before it; otherwise the total of the successful cleans is printed and
      the error names every failure. */
  ghost predicate Executed(providers: seq<Provider>, host: Host, dryRun: bool, quiet: bool, intr: Interrupt,
                           out: string, err: Option<Error>, cs: seq<Cleaned>)
  {
    var n := OuterContext(intr).Reached(|providers|);
    && |cs| == n
    && CleanedAsAllowed(providers, cs, host, dryRun, intr)
    && (n < |providers| ==> out == Lines(cs, dryRun, quiet, host.fmt) + (if quiet then "" else "\nCancelled\n") && err == None)
    && (n == |providers| ==>
        out == Lines(cs, dryRun, quiet, host.fmt) + Footer(Total(cs), dryRun, quiet, host.fmt)
        && err == FailureError(Failures(cs)))
  }

  /** Where an interrupt stops `executeClean`: without one every provider is
      cleaned; one that lands before provider `k` stops the loop there; one
      that lands while provider `k` cleans lets that provider return and
      stops the loop before the next. A stopped loop prints "Cancelled"
      (unless quiet) and returns no error. */
  lemma InterruptStopsRun(providers: seq<Provider>, host: Host, dryRun: bool, quiet: bool, intr: Interrupt,
                          out: string, err: Option<Error>, cs: seq<Cleaned>)
    requires Executed(providers, host, dryRun, quiet, intr, out, err, cs)
    ensures intr.Never? ==> |cs| == |providers|
    ensures intr.BeforeProvider? ==> |cs| == if intr.k < |providers| then intr.k else |providers|
    ensures intr.DuringProvider? ==> |cs| == if intr.k + 1 < |providers| then intr.k + 1 else |providers|
    ensures |cs| < |providers| ==>
      err == None && out == Lines(cs, dryRun, quiet, host.fmt) + (if quiet then "" else "\nCancelled\n")
  {
  }

  /** `executeClean`: `intr` is when the interrupt arrives, if at all. */
  method ExecuteClean(providers: seq<Provider>, host: Host, dryRun: bool, quiet: bool, intr: Interrupt)
    returns (out: string, err: Option<Error>, ghost cs: seq<Cleaned>)
    ensures Executed(providers, host, dryRun, quiet, intr, out, err, cs)
  {
    var ctx := OuterContext(intr);
    var totalCleaned := 0;
    var errors: seq<string> := [];
    out, err, cs := "", None, [];
    for i := 0 to |providers|
      invariant ctx.doneFrom.Some? ==> ctx.doneFrom.value >= i
      invariant |cs| == i && CleanedAsAllowed(providers, cs, host, dryRun, intr)
      invariant out == Lines(cs, dryRun, quiet, host.fmt)
      invariant totalCleaned == Total(cs) && errors == Failures(cs)
    {
      if ctx.DoneAt(i) {
        if !quiet {
          out := out + "\nCancelled\n";
        }
        return;
      }
      out, totalCleaned, errors, cs := CleanNextProvider(providers, i, host, dryRun, quiet, intr, out, totalCleaned, errors, cs);
    }
    out := out + Footer(totalCleaned, dryRun, quiet, host.fmt);
    err := FailureError(errors);
  }

  /** The body of the loop of `executeClean` (clean.go:159-180): clean the
      next provider, print its line and record its bytes or its failure. */
  method CleanNextProvider(providers: seq<Provider>, i: nat, host: Host, dryRun: bool, quiet: bool, intr: Interrupt,
                           out: string, totalCleaned: int, errors: seq<string>, ghost cs: seq<Cleaned>)
    returns (out': string, totalCleaned': int, errors': seq<string>, ghost cs': seq<Cleaned>)
    requires i == |cs| < |providers| && CleanedAsAllowed(providers, cs, host, dryRun, intr)
    requires out == Lines(cs, dryRun, quiet, host.fmt) && totalCleaned == Total(cs) && errors == Failures(cs)
    ensures |cs'| == |cs| + 1 && CleanedAsAllowed(providers, cs', host, dryRun, intr)
    ensures out' == Lines(cs', dryRun, quiet, host.fmt) && totalCleaned' == Total(cs') && errors' == Failures(cs')
  {
    var line, c := CleanOne(providers[i], host, dryRun, quiet, ProviderContext(intr, i));
    CleanedSnoc(cs, c, dryRun, quiet, host.fmt);
    errors', totalCleaned' := errors, totalCleaned;
    if c.err.Some? {
      errors' := errors + [c.name + ": " + ErrorText(c.err.value)];
    } else {
      totalCleaned' := totalCleaned + c.result.bytesCleaned;
    }
    out' := out + line;
    CleanedAsAllowedSnoc(providers, cs, c, host, dryRun, intr);
    cs' := cs + [c];
  }

  /** One pass of the loop of `executeClean`: the provider's clean, under
      the context as its own loop sees it, and the line printed for it. */
  method CleanOne(p: Provider, host: Host, dryRun: bool, quiet: bool, ctx: Context)
    returns (line: string, c: Cleaned)
    ensures c.name == BaseOf(p).name && CleanAllows(p, host, CleanOptions(dryRun, Full), ctx, (c.result, c.err))
    ensures line == Line(c, dryRun, quiet, host.fmt)
  {
    var name := BaseOf(p).name;
    line := if !quiet && !dryRun then "Cleaning " + name + "... " else "";
    var result, err := Registry.Clean(p, host, CleanOptions(dryRun, Full), ctx);
    c := Cleaned(name, result, err);
    if err.Some? {
      if !quiet {
        line := line + "error\n";
      }
    } else if dryRun {
      if !quiet {
        line := line + "[dry-run] " + name + ": " + result.output + "\n";
      }
    } else if !quiet {
      line := line + "done (freed " + FormatSize(host.fmt, result.bytesCleaned) + ")\n";
    }
  }

  lemma CleanedAsAllowedSnoc(providers: seq<Provider>, cs: seq<Cleaned>, c: Cleaned, host: Host, dryRun: bool, intr: Interrupt)
    requires CleanedAsAllowed(providers, cs, host, dryRun, intr) && |cs| < |providers|
    requires c.name == BaseOf(providers[|cs|]).name
    requires CleanAllows(providers[|cs|], host, CleanOptions(dryRun, Full), ProviderContext(intr, |cs|), (c.result, c.err))
    ensures CleanedAsAllowed(providers, cs + [c], host, dryRun, intr)
  {
    var cs' := cs + [c];
    assert forall i :: 0 <= i < |cs| ==> cs'[i] == cs[i];
    assert cs'[|cs|] == c;
  }

  lemma CleanedSnoc(cs: seq<Cleaned>, c: Cleaned, dryRun: bool, quiet: bool, fmt: Formatters)
    ensures Lines(cs + [c], dryRun, quiet, fmt) == Lines(cs, dryRun, quiet, fmt) + Line(c, dryRun, quiet, fmt)
    ensures Total(cs + [c]) == Total(cs) + (if c.err.None? then c.result.bytesCleaned else 0)
    ensures Failures(cs + [c]) == Failures(cs) + (if c.err.Some? then [c.name + ": " + ErrorText(c.err.value)] else [])
  {
    assert (cs + [c])[..|cs|] == cs;
  }

  /** A quiet dry run prints nothing at all. */
  lemma {:induction false} QuietDryRunSilent(cs: seq<Cleaned>, fmt: Formatters)
    ensures Lines(cs, true, true, fmt) + Footer(Total(cs), true, true, fmt) == ""
  {
    if cs != [] {
      QuietDryRunSilent(cs[..|cs| - 1], fmt);
    }
  }

  /** The command fails iff some provider failed, with one entry per
      failure. */
  lemma {:induction false} FailuresExact(cs: seq<Cleaned>)
    ensures |Failures(cs)| <= |cs|
    ensures Failures(cs) == [] <==> forall i :: 0 <= i < |cs| ==> cs[i].err.None?
  {
    if cs != [] {
      var front := cs[..|cs| - 1];
      FailuresExact(front);
      assert forall i :: 0 <= i < |front| ==> front[i] == cs[i];
    }
  }

  /** The total freed is at least what any one successful clean reported,
      when none reports a negative amount. */
  lemma {:induction false} TotalCoversEach(cs: seq<Cleaned>, k: nat)
    requires forall i :: 0 <= i < |cs| ==> cs[i].result.bytesCleaned >= 0
    requires k < |cs| && cs[k].err.None?
    ensures Total(cs) >= cs[k].result.bytesCleaned >= 0
  {
    var front := cs[..|cs| - 1];
    if k < |front| {
      TotalCoversEach(front, k);
    } else {
      TotalNonNegative(front);
    }
  }

  lemma {:induction false} TotalNonNegative(cs: seq<Cleaned>)
    requires forall i :: 0 <= i < |cs| ==> cs[i].result.bytesCleaned >= 0
    ensures Total(cs) >= 0
  {
    if cs != [] {
      TotalNonNegative(cs[..|cs| - 1]);
    }
  }

  // ---------------------------------------------------------------------
  // runCleanWithLoader

  /** What the command prints on standard error for the skipped providers. */
  function SkipLines(unavailable: seq<string>, quiet: bool): string
  {
    if quiet || unavailable == [] then ""
    else SkipLines(unavailable[..|unavailable| - 1], quiet) + "Skipping " + unavailable[|unavailable| - 1] + ": unavailable\n"
  }

  /** `runCleanWithLoader`: `loaded` is what loading (or creating) the
      configuration gave, `response` the line read from standard input.
      Every clean runs in full mode, the zero value of the mode. */
  method RunClean(loaded: Result<Config, Error>, host: Host, args: seq<string>, all: bool, dryRun: bool,
                  force: bool, quiet: bool, response: string, intr: Interrupt)
    returns (stdout: string, stderr: string, err: Option<Error>,
             ghost available: seq<string>, ghost providers: seq<Provider>, ghost out: string, ghost cs: seq<Cleaned>)
    ensures loaded.Err? ==> err == Some(Wrapped("load config", loaded.error)) && stdout == stderr == ""
    ensures loaded.Ok? ==>
      var c := loaded.value;
      && StrictlySorted(available) && (forall name :: name in available <==> name in UsableNames(c, host))
      && match Resolution(args, all, available)
         case Err(e) => err == Some(e) && stdout == stderr == ""
         case Ok(names) =>
           var (loadedProviders, unavailable) := Filtered(names, c, host);
           && providers == loadedProviders
           && (providers == [] ==> err == Some(Message("no available providers to clean")) && stdout == stderr == "")
           && (providers != [] ==>
               && stderr == SkipLines(unavailable, quiet)
               && (!force && !dryRun && !Accepts(response) ==>
                   stdout == Prompt(NamesOf(providers)) + "Aborted\n" && err == None && cs == [])
               && (force || dryRun || Accepts(response) ==>
                   && stdout == (if force || dryRun then "" else Prompt(NamesOf(providers))) + out
                   && Executed(providers, host, dryRun, quiet, intr, out, err, cs)))
  {
    stdout, stderr, available, providers, out, cs := "", "", [], [], "", [];
    if loaded.Err? {
      return stdout, stderr, Some(Wrapped("load config", loaded.error)), available, providers, out, cs;
    }
    var c := loaded.value;
    var names;
    names, available := ResolveProviders(c, host, args, all);
    if names.Err? {
      return stdout, stderr, Some(names.error), available, providers, out, cs;
    }
    var loadedProviders, unavailable := LoadAndFilterProviders(c, host, names.value);
    providers := loadedProviders;
    if |loadedProviders| == 0 {
      return stdout, stderr, Some(Message("no available providers to clean")), available, providers, out, cs;
    }
    stderr := SkipLines(unavailable, quiet);
    stdout, err, out, cs := ConfirmAndClean(loadedProviders, host, dryRun, force, quiet, response, intr);
  }

  /** The end of `runCleanWithLoader` (clean.go:64-74): without --force or
      --dry-run the user is asked first, and anything but yes prints
      "Aborted" and cleans nothing; otherwise every provider is cleaned, and
      what the clean prints (`out`) follows the question. */
  method ConfirmAndClean(providers: seq<Provider>, host: Host, dryRun: bool, force: bool, quiet: bool,
                         response: string, intr: Interrupt)
    returns (stdout: string, err: Option<Error>, ghost out: string, ghost cs: seq<Cleaned>)
    ensures !force && !dryRun && !Accepts(response) ==>
      stdout == Prompt(NamesOf(providers)) + "Aborted\n" && err == None && cs == []
    ensures force || dryRun || Accepts(response) ==>
      && stdout == (if force || dryRun then "" else Prompt(NamesOf(providers))) + out
      && Executed(providers, host, dryRun, quiet, intr, out, err, cs)
  {
    stdout, out, cs := "", "", [];
    if !force && !dryRun {
      var prompt, confirmed := ConfirmClean(providers, response);
      stdout := prompt;
      if !confirmed {
        stdout := stdout + "Aborted\n";
        return stdout, None, out, cs;
      }
    }
    var printed;
    printed, err, cs := ExecuteClean(providers, host, dryRun, quiet, intr);
    stdout := stdout + printed;
    out := printed;
  }
}
