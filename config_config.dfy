/** internal/config/config.go: the configuration record, its validation and
    the two sorted lists of enabled provider names. Go ranges over a map in
    no fixed order; the loops here pick the next key with `:|`, so every
    contract holds whatever order the runtime chooses. */
module Config {
  import opened Common
  import opened Text
  import opened Host
  import opened Paths
  import opened Sorting

  /** One provider's settings as written in the YAML file. */
  datatype ProviderConfig = ProviderConfig(maxSize: string, maxAge: string, cleanCmd: string,
                                           paths: seq<string>, enabled: bool)

  datatype Config = Config(providers: map<string, ProviderConfig>, version: string)

  /** What `Validate` objects to in one provider: a missing path list is
      reported before a missing `max_size`. */
  function Problem(name: string, p: ProviderConfig): (r: Option<Error>)
    ensures r.None? <==> |p.paths| > 0 && p.maxSize != ""
    ensures |p.paths| == 0 ==> r == Some(Message("provider " + Quote(name) + ": at least one path is required"))
    ensures |p.paths| > 0 && p.maxSize == "" ==> r == Some(Message("provider " + Quote(name) + ": max_size is required"))
  {
    if |p.paths| == 0 then Some(Message("provider " + Quote(name) + ": at least one path is required"))
    else if p.maxSize == "" then Some(Message("provider " + Quote(name) + ": max_size is required"))
    else None
  }

  /** Every provider, enabled or not, has a path and a `max_size`. */
  predicate Valid(c: Config)
  {
    forall name :: name in c.providers ==> |c.providers[name].paths| > 0 && c.providers[name].maxSize != ""
  }

  /** `Validate`: the problem of whichever offending provider the map
      iteration reaches first, or nothing. */
  method Validate(c: Config) returns (err: Option<Error>)
    ensures err.None? <==> Valid(c)
    ensures err.Some? ==> exists name :: name in c.providers && Problem(name, c.providers[name]) == err
  {
    var left := c.providers.Keys;
    while left != {}
      invariant left <= c.providers.Keys
      invariant forall name :: name in c.providers && name !in left ==> Problem(name, c.providers[name]).None?
      decreases left
    {
      var name :| name in left;
      var problem := Problem(name, c.providers[name]);
      if problem.Some? {
        return problem;
      }
      left := left - {name};
    }
    return None;
  }

  /** The zero `Provider` Go returns with `false` for an absent name. */
  const NoProvider: ProviderConfig := ProviderConfig("", "", "", [], false)

  /** `GetProvider`. */
  function GetProvider(c: Config, name: string): (r: (ProviderConfig, bool))
    ensures r.1 <==> name in c.providers
    ensures r.1 ==> r.0 == c.providers[name]
    ensures !r.1 ==> r.0 == NoProvider
  {
    if name in c.providers then (c.providers[name], true) else (NoProvider, false)
  }

  predicate Distinct(s: seq<string>)
  {
    forall i, j :: 0 <= i < j < |s| ==> s[i] != s[j]
  }

  lemma {:induction false} DistinctCounts(s: seq<string>, x: string)
    requires Distinct(s)
    ensures multiset(s)[x] <= 1
  {
    if s != [] {
      var front := s[..|s| - 1];
      assert s == front + [s[|s| - 1]];
      DistinctCounts(front, x);
      if s[|s| - 1] == x {
        assert x !in front;
      }
    }
  }

  lemma RepeatCounts(s: seq<string>, i: int, j: int)
    requires 0 <= i < j < |s| && s[i] == s[j]
    ensures multiset(s)[s[i]] >= 2
  {
    assert s == s[..i] + [s[i]] + s[i + 1..j] + [s[j]] + s[j + 1..];
  }

  /** A sorted sequence without repeats is strictly sorted. */
  lemma SortedDistinctIsStrict(s: seq<string>)
    requires SortedStrings(s) && Distinct(s)
    ensures StrictlySorted(s)
  {
    forall i, j | 0 <= i < j < |s|
      ensures StrLess(s[i], s[j])
    {
      StrLessTotal(s[i], s[j]);
    }
  }

  /** `sort.Strings` over a list of distinct names. */
  method SortNames(names: seq<string>) returns (sorted: seq<string>)
    requires Distinct(names)
    ensures StrictlySorted(sorted)
    ensures multiset(sorted) == multiset(names)
  {
    var a := new string[|names|](i requires 0 <= i < |names| => names[i]);
    assert a[..] == names;
    SortStrings(a);
    sorted := a[..];
    forall i, j | 0 <= i < j < |sorted|
      ensures sorted[i] != sorted[j]
    {
      if sorted[i] == sorted[j] {
        RepeatCounts(sorted, i, j);
        DistinctCounts(names, sorted[i]);
      }
    }
    SortedDistinctIsStrict(sorted);
  }

  /** The names of the enabled providers, and of those whose paths also exist. */
  ghost function EnabledNames(c: Config): set<string>
  {
    set name | name in c.providers && c.providers[name].enabled
  }

  ghost function UsableNames(c: Config, host: Host): set<string>
  {
    set name | name in c.providers && c.providers[name].enabled && AnyPathExists(c.providers[name].paths, host)
  }

  /** `AllEnabledProviders`. */
  method AllEnabledProviders(c: Config) returns (names: seq<string>)
    ensures StrictlySorted(names)
    ensures forall name :: name in names <==> name in EnabledNames(c)
  {
    var enabled: seq<string> := [];
    var left := c.providers.Keys;
    while left != {}
      invariant left <= c.providers.Keys
      invariant Distinct(enabled)
      invariant forall name :: name in enabled ==> name !in left
      invariant forall name :: name in enabled <==> name in EnabledNames(c) && name !in left
      decreases left
    {
      var name :| name in left;
      if c.providers[name].enabled {
        enabled := enabled + [name];
      }
      left := left - {name};
    }
    names := SortNames(enabled);
    assert forall name :: name in names <==> name in multiset(enabled);
  }

  /** `EnabledProviders`: enabled, and `PathsExist` for its paths. */
  method EnabledProviders(c: Config, host: Host) returns (names: seq<string>)
    ensures StrictlySorted(names)
    ensures forall name :: name in names <==> name in UsableNames(c, host)
  {
    var enabled: seq<string> := [];
    var left := c.providers.Keys;
    while left != {}
      invariant left <= c.providers.Keys
      invariant Distinct(enabled)
      invariant forall name :: name in enabled ==> name !in left
      invariant forall name :: name in enabled <==> name in UsableNames(c, host) && name !in left
      decreases left
    {
      var name :| name in left;
      var p := c.providers[name];
      var exists_ := false;
      if p.enabled {
        exists_ := PathsExist(p.paths, host);
      }
      if p.enabled && exists_ {
        enabled := enabled + [name];
      }
      left := left - {name};
    }
    names := SortNames(enabled);
    assert forall name :: name in names <==> name in multiset(enabled);
  }

  /** Every usable provider is enabled. */
  lemma UsableAreEnabled(c: Config, host: Host)
    ensures UsableNames(c, host) <= EnabledNames(c)
  {
  }

  lemma HeadIsMember(s: seq<string>)
    ensures s != [] ==> s[0] in s
  {
  }

  /** A strictly sorted list is fixed by its elements: both name lists come
      out the same whatever order the map was walked in. */
  lemma {:induction false} StrictlySortedUnique(a: seq<string>, b: seq<string>)
    requires StrictlySorted(a) && StrictlySorted(b)
    requires forall x :: x in a <==> x in b
    ensures a == b
  {
    if a == [] || b == [] {
      HeadIsMember(a);
      HeadIsMember(b);
    } else {
      if a[0] != b[0] {
        assert a[0] in b && b[0] in a;
        StrLessTotal(a[0], b[0]);
      }
      forall x
        ensures x in a[1..] <==> x in b[1..]
      {
        StrLessIrreflexive(a[0]);
        if x in a[1..] {
          assert x in b;
        }
        if x in b[1..] {
          assert x in a;
        }
      }
      StrictlySortedUnique(a[1..], b[1..]);
      assert a == [a[0]] + a[1..] && b == [b[0]] + b[1..];
    }
  }
}
