/** internal/config/path.go: tilde expansion, the literal-versus-glob split
    of configured path patterns, and the "does any of them exist" probe. The
    home directory, globbing and `os.Stat` are asked of the `Host`. */
module Paths {
  import opened Common
  import opened Text
  import opened Host
  import FilePath

  predicate HasTilde(path: string)
  {
    |path| > 0 && path[0] == '~'
  }

  /** `ExpandTilde`: only a leading "~" alone or "~/" is replaced by the home
      directory; the home directory is looked up (and its failure reported)
      for every path that starts with "~", even "~user" which is then kept.
      "~" alone gives the home directory as it is; "~/rest" gives the
      cleaned join of the two. */
  function ExpandTilde(path: string, home: Result<string, Error>): (r: Result<string, Error>)
    ensures r.Err? <==> HasTilde(path) && home.Err?
    ensures r.Err? ==> r.error == Wrapped("get home dir", home.error)
    ensures !HasTilde(path) ==> r == Ok(path)
    ensures r.Ok? && r.value != path ==>
      home.Ok? && ((path == "~" && r.value == home.value)
                   || (|path| >= 2 && path[..2] == "~/" && r.value == FilePath.Join(home.value, path[2..])))
  {
    if !HasTilde(path) then Ok(path)
    else if home.Err? then Err(Wrapped("get home dir", home.error))
    else if path == "~" then Ok(home.value)
    else if |path| >= 2 && path[1] == '/' then Ok(FilePath.Join(home.value, path[2..]))
    else Ok(path)
  }

  /** With an absolute home directory, expanding an expanded path changes
      nothing: every result is absolute or was kept as it was. */
  lemma ExpandTildeIdempotent(path: string, home: Result<string, Error>)
    requires home.Ok? && FilePath.Rooted(home.value)
    ensures ExpandTilde(path, home).Ok?
    ensures ExpandTilde(ExpandTilde(path, home).value, home) == ExpandTilde(path, home)
  {
    if HasTilde(path) && path != "~" && |path| >= 2 && path[1] == '/' {
      FilePath.JoinRooted(home.value, path[2..]);
    }
  }

  /** "~/rest" is the join of the home directory and the rest. */
  lemma ExpandTildeSlash(rest: string, home: Result<string, Error>)
    requires home.Ok?
    ensures ExpandTilde("~/" + rest, home) == Ok(FilePath.Join(home.value, rest))
  {
    var p := "~/" + rest;
    assert p[..2] == "~/" && p[2..] == rest && p != "~";
  }

  /** A relative home directory breaks idempotence: with home "a/..",
      "~/~/b" expands to "~/b", which expands again, to "b". */
  lemma ExpandTildeRelativeHome(a: string, b: string)
    requires FilePath.Plain(a) && FilePath.Plain(b)
    ensures ExpandTilde("~/~/" + b, Ok(a + "/..")) == Ok("~/" + b)
    ensures ExpandTilde("~/" + b, Ok(a + "/..")) == Ok(b)
  {
    var q := "~/" + b;
    assert "~/~/" + b == "~/" + q;
    ExpandTildeSlash(q, Ok(a + "/.."));
    ExpandTildeSlash(b, Ok(a + "/.."));
    FilePath.JoinThroughParent(a, q);
    FilePath.JoinThroughParent(a, b);
    FilePath.CleanPlainName("~/", b);
    FilePath.CleanPlainName([], b);
    assert [] + b == b;
  }

  /** "~/rest" with a clean home directory and a clean relative rest lands
      under the home directory, separated by one slash. */
  lemma TildeSlashUnderHome(homeElements: seq<string>, restElements: seq<string>)
    requires FilePath.AllPlain(homeElements) && FilePath.AllPlain(restElements)
    requires homeElements != [] && restElements != []
    ensures var home := "/" + FilePath.Slashed(homeElements);
      ExpandTilde("~/" + FilePath.Slashed(restElements), Ok(home))
        == Ok(home + "/" + FilePath.Slashed(restElements))
  {
    ExpandTildeSlash(FilePath.Slashed(restElements), Ok("/" + FilePath.Slashed(homeElements)));
    FilePath.JoinPlain(homeElements, restElements);
  }

  /** "~/../name" names a sibling of the home directory. */
  lemma TildeParent(homeElements: seq<string>, name: string)
    requires FilePath.AllPlain(homeElements) && homeElements != [] && FilePath.Plain(name)
    ensures ExpandTilde("~/../" + name, Ok(FilePath.Joined(homeElements, true)))
      == Ok(FilePath.Joined(homeElements[..|homeElements| - 1] + [name], true))
  {
    assert "~/../" + name == "~/" + ("../" + name);
    ExpandTildeSlash("../" + name, Ok(FilePath.Joined(homeElements, true)));
    FilePath.JoinParent(homeElements, name);
  }

  /** A trailing slash after "~/rest", or a doubled slash after "~", makes
      no difference to the expansion. */
  lemma TildeSlashesCollapse(rest: string, home: Result<string, Error>)
    requires home.Ok? && home.value != []
    ensures ExpandTilde("~/" + rest + "/", home) == ExpandTilde("~/" + rest, home)
    ensures ExpandTilde("~//" + rest, home) == ExpandTilde("~/" + rest, home)
  {
    assert "~/" + rest + "/" == "~/" + (rest + "/");
    assert "~//" + rest == "~/" + ("/" + rest);
    ExpandTildeSlash(rest, home);
    ExpandTildeSlash(rest + "/", home);
    ExpandTildeSlash("/" + rest, home);
    FilePath.JoinTrailingSlash(home.value, rest);
    FilePath.JoinLeadingSlash(home.value, rest);
  }

  /** The characters that make `ExpandPaths` glob a pattern. */
  const GlobMeta: string := "*?["

  /** What one pattern contributes to `ExpandPaths`: the expanded path
      itself when it has no glob character, otherwise its matches (possibly
      none). A glob error names the pattern as configured. */
  function Expansion(pattern: string, host: Host): (r: Result<seq<string>, Error>)
    ensures ExpandTilde(pattern, host.home).Err? ==> r == Err(ExpandTilde(pattern, host.home).error)
    ensures r.Err? && ExpandTilde(pattern, host.home).Ok? ==>
      r.error.Wrapped? && r.error.prefix == "glob " + Quote(pattern)
  {
    match ExpandTilde(pattern, host.home)
    case Err(e) => Err(e)
    case Ok(expanded) =>
      if ContainsAny(expanded, GlobMeta) then
        match host.glob(expanded)
        case Err(g) => Err(Wrapped("glob " + Quote(pattern), g))
        case Ok(matches) => Ok(matches)
      else Ok([expanded])
  }

  /** Two outcomes one after the other: the first error, else both lists
      of paths in order. */
  function Sequenced(x: Result<seq<string>, Error>, y: Result<seq<string>, Error>): Result<seq<string>, Error>
  {
    if x.Err? then x else if y.Err? then y else Ok(x.value + y.value)
  }

  /** Per-pattern outcomes taken in order: the first error, else all the
      paths. */
  function Gather(outcomes: seq<Result<seq<string>, Error>>): Result<seq<string>, Error>
  {
    if outcomes == [] then Ok([])
    else Sequenced(Gather(outcomes[..|outcomes| - 1]), outcomes[|outcomes| - 1])
  }

  /** Each pattern's own outcome. */
  function Outcomes(patterns: seq<string>, host: Host): (r: seq<Result<seq<string>, Error>>)
    ensures |r| == |patterns|
    ensures forall i {:trigger r[i]} :: 0 <= i < |patterns| ==> r[i] == Expansion(patterns[i], host)
  {
    seq(|patterns|, i requires 0 <= i < |patterns| => Expansion(patterns[i], host))
  }

  /** The outcome `ExpandPaths(patterns)` returns. */
  function ExpandAll(patterns: seq<string>, host: Host): Result<seq<string>, Error>
  {
    Gather(Outcomes(patterns, host))
  }

  lemma GatherSnoc(outcomes: seq<Result<seq<string>, Error>>, last: Result<seq<string>, Error>)
    ensures Gather(outcomes + [last]) == Sequenced(Gather(outcomes), last)
  {
    assert (outcomes + [last])[..|outcomes|] == outcomes;
  }

  /** One more pattern extends the expansion by that pattern's outcome. */
  lemma ExpandAllSnoc(patterns: seq<string>, i: nat, host: Host)
    requires i < |patterns|
    ensures ExpandAll(patterns[..i + 1], host) == Sequenced(ExpandAll(patterns[..i], host), Expansion(patterns[i], host))
  {
    assert Outcomes(patterns[..i + 1], host) == Outcomes(patterns[..i], host) + [Expansion(patterns[i], host)];
    GatherSnoc(Outcomes(patterns[..i], host), Expansion(patterns[i], host));
  }

  /** `ExpandPaths`: the patterns in order, stopping at the first error. */
  method ExpandPaths(patterns: seq<string>, host: Host) returns (r: Result<seq<string>, Error>)
    ensures r == ExpandAll(patterns, host)
  {
    var result: seq<string> := [];
    for i := 0 to |patterns|
      invariant ExpandAll(patterns[..i], host) == Ok(result)
    {
      ExpandAllSnoc(patterns, i, host);
      var expanded := ExpandTilde(patterns[i], host.home);
      if expanded.Err? {
        FailedPrefix(patterns, i + 1, host);
        return Err(expanded.error);
      }
      if ContainsAny(expanded.value, GlobMeta) {
        var matches := host.glob(expanded.value);
        if matches.Err? {
          FailedPrefix(patterns, i + 1, host);
          return Err(Wrapped("glob " + Quote(patterns[i]), matches.error));
        }
        result := result + matches.value;
      } else {
        result := result + [expanded.value];
      }
    }
    assert patterns[..|patterns|] == patterns;
    return Ok(result);
  }

  lemma SequencedAssoc(x: Result<seq<string>, Error>, y: Result<seq<string>, Error>, z: Result<seq<string>, Error>)
    ensures Sequenced(Sequenced(x, y), z) == Sequenced(x, Sequenced(y, z))
  {
    if x.Ok? && y.Ok? && z.Ok? {
      assert x.value + y.value + z.value == x.value + (y.value + z.value);
    }
  }

  lemma {:induction false} GatherAppend(a: seq<Result<seq<string>, Error>>, b: seq<Result<seq<string>, Error>>)
    ensures Gather(a + b) == Sequenced(Gather(a), Gather(b))
  {
    if b == [] {
      assert a + b == a;
      if Gather(a).Ok? {
        assert Gather(a).value + [] == Gather(a).value;
      }
    } else {
      var front := b[..|b| - 1];
      assert (a + b)[..|a + b| - 1] == a + front;
      assert (a + b)[|a + b| - 1] == b[|b| - 1];
      GatherAppend(a, front);
      SequencedAssoc(Gather(a), Gather(front), b[|b| - 1]);
    }
  }

  /** Expanding `a + b` is expanding `a`, then `b`, then concatenating; an
      error in `a` wins over one in `b`. */
  lemma ExpandAllAppend(a: seq<string>, b: seq<string>, host: Host)
    ensures ExpandAll(a + b, host) == Sequenced(ExpandAll(a, host), ExpandAll(b, host))
  {
    assert Outcomes(a + b, host) == Outcomes(a, host) + Outcomes(b, host);
    GatherAppend(Outcomes(a, host), Outcomes(b, host));
  }

  /** Once a prefix of the patterns fails, the whole expansion fails the same way. */
  lemma FailedPrefix(patterns: seq<string>, k: nat, host: Host)
    requires k <= |patterns| && ExpandAll(patterns[..k], host).Err?
    ensures ExpandAll(patterns, host) == ExpandAll(patterns[..k], host)
  {
    assert patterns == patterns[..k] + patterns[k..];
    ExpandAllAppend(patterns[..k], patterns[k..], host);
  }

  /** Outcome `i` is the first error. */
  predicate FirstErrorAt(outcomes: seq<Result<seq<string>, Error>>, i: int)
  {
    0 <= i < |outcomes| && outcomes[i].Err? && forall j :: 0 <= j < i ==> outcomes[j].Ok?
  }

  /** Gathering fails iff some outcome is an error, and then with the first. */
  lemma {:induction false} GatherFails(outcomes: seq<Result<seq<string>, Error>>)
    ensures Gather(outcomes).Err? <==> exists i :: 0 <= i < |outcomes| && outcomes[i].Err?
    ensures Gather(outcomes).Err? ==>
      exists i :: FirstErrorAt(outcomes, i) && Gather(outcomes).error == outcomes[i].error
  {
    if outcomes != [] {
      var n := |outcomes| - 1;
      var front := outcomes[..n];
      GatherFails(front);
      if Gather(front).Err? {
        var i :| FirstErrorAt(front, i) && Gather(front).error == front[i].error;
        assert FirstErrorAt(outcomes, i);
      } else {
        assert forall j :: 0 <= j < n ==> outcomes[j] == front[j];
        if outcomes[n].Err? {
          assert FirstErrorAt(outcomes, n);
        }
      }
    }
  }

  /** Pattern `i` is the first whose expansion fails. */
  predicate FailsFirstAt(patterns: seq<string>, i: int, host: Host)
  {
    0 <= i < |patterns| && Expansion(patterns[i], host).Err?
    && forall j :: 0 <= j < i ==> Expansion(patterns[j], host).Ok?
  }

  /** The expansion fails iff some pattern fails, and then with the error of
      the first one that does. */
  lemma ExpandAllFails(patterns: seq<string>, host: Host)
    ensures ExpandAll(patterns, host).Err? <==>
      exists i :: 0 <= i < |patterns| && Expansion(patterns[i], host).Err?
    ensures ExpandAll(patterns, host).Err? ==>
      exists i :: FailsFirstAt(patterns, i, host)
        && ExpandAll(patterns, host).error == Expansion(patterns[i], host).error
  {
    var outcomes := Outcomes(patterns, host);
    GatherFails(outcomes);
    if ExpandAll(patterns, host).Err? {
      var i :| FirstErrorAt(outcomes, i) && Gather(outcomes).error == outcomes[i].error;
      assert outcomes[i] == Expansion(patterns[i], host);
      forall j | 0 <= j < i
        ensures Expansion(patterns[j], host).Ok?
      {
        assert outcomes[j].Ok?;
      }
    } else {
      forall i | 0 <= i < |patterns|
        ensures Expansion(patterns[i], host).Ok?
      {
        assert outcomes[i].Ok?;
      }
    }
  }

  /** Patterns with no leading "~" and no glob character expand to themselves. */
  lemma {:induction false} LiteralPatternsKept(patterns: seq<string>, host: Host)
    requires forall i :: 0 <= i < |patterns| ==> !HasTilde(patterns[i]) && !ContainsAny(patterns[i], GlobMeta)
    ensures ExpandAll(patterns, host) == Ok(patterns)
  {
    if patterns != [] {
      var n := |patterns| - 1;
      LiteralPatternsKept(patterns[..n], host);
      ExpandAllSnoc(patterns, n, host);
      assert patterns[..n + 1] == patterns;
      assert patterns[..n] + [patterns[n]] == patterns;
    }
  }

  /** `x` is what an expanded pattern contributes: the pattern itself, or
      one of its glob matches. */
  predicate Contributes(expanded: string, host: Host, x: string)
  {
    if ContainsAny(expanded, GlobMeta) then host.glob(expanded).Ok? && x in host.glob(expanded).value
    else x == expanded
  }

  /** Every expanded path comes from some pattern: either the pattern
      itself after tilde expansion, when it has no glob character, or one of
      the matches of its glob. */
  lemma {:induction false} ExpandedPathOrigin(patterns: seq<string>, host: Host, x: string)
    requires ExpandAll(patterns, host).Ok? && x in ExpandAll(patterns, host).value
    ensures exists i :: (0 <= i < |patterns| && ExpandTilde(patterns[i], host.home).Ok?
                         && Contributes(ExpandTilde(patterns[i], host.home).value, host, x))
  {
    var n := |patterns| - 1;
    var front := patterns[..n];
    ExpandAllSnoc(patterns, n, host);
    assert patterns[..n + 1] == patterns;
    var prev := ExpandAll(front, host).value;
    if x in prev {
      ExpandedPathOrigin(front, host, x);
      var i :| 0 <= i < n && ExpandTilde(front[i], host.home).Ok?
        && Contributes(ExpandTilde(front[i], host.home).value, host, x);
      assert front[i] == patterns[i];
    } else {
      assert ExpandTilde(patterns[n], host.home).Ok?;
    }
  }

  /** Some expanded path exists; an expansion error means none does. */
  predicate AnyPathExists(patterns: seq<string>, host: Host)
  {
    ExpandAll(patterns, host).Ok? && exists p :: p in ExpandAll(patterns, host).value && host.statOk(p)
  }

  /** `PathsExist`. */
  method PathsExist(patterns: seq<string>, host: Host) returns (r: bool)
    ensures r <==> AnyPathExists(patterns, host)
  {
    var paths := ExpandPaths(patterns, host);
    if paths.Err? {
      return false;
    }
    for i := 0 to |paths.value|
      invariant forall j :: 0 <= j < i ==> !host.statOk(paths.value[j])
    {
      if host.statOk(paths.value[i]) {
        return true;
      }
    }
    return false;
  }
}
