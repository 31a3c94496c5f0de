/** internal/provider/jetbrains.go, the cleaning half: collect the version
    directories under the configured paths, keep the latest version of every
    product, optionally keep only the old enough ones, and remove the rest
    directory by directory. */
module JetBrains {
  import opened Common
  import opened Text
  import opened Scanner
  import opened Host
  import opened Paths
  import opened ProviderBase
  import opened Versions
  import FilePath

  // ---------------------------------------------------------------------
  // Collecting the version directories

  /** The version directory an entry of `base` stands for, if it is a
      directory whose name matches the pattern. */
  function VersionDirOf(base: string, e: DirEntry): (r: seq<VersionDir>)
    ensures |r| <= 1
  {
    if !e.isDir then []
    else
      match MatchVersionDir(e.name)
      case None => []
      case Some((product, version)) => [VersionDir(product, version, FilePath.Join(base, e.name))]
  }

  /** The version directories of one listing, in listing order. */
  function DirsIn(base: string, entries: seq<DirEntry>): seq<VersionDir>
  {
    if entries == [] then []
    else DirsIn(base, entries[..|entries| - 1]) + VersionDirOf(base, entries[|entries| - 1])
  }

  /** The first loop of `findRemovableDirs`: every listing in path order; a
      path that does not exist is skipped and any other listing error ends
      the search with that error. */
  function Collected(paths: seq<string>, host: Host): Result<seq<VersionDir>, Error>
  {
    if paths == [] then Ok([])
    else
      var base := paths[|paths| - 1];
      match Collected(paths[..|paths| - 1], host)
      case Err(e) => Err(e)
      case Ok(found) =>
        match host.readDir(base)
        case Err(e) => if e.notExist then Ok(found) else Err(Os(e))
        case Ok(entries) => Ok(found + DirsIn(base, entries))
  }

  /** Once a listing fails, the whole search fails with its error. */
  lemma {:induction false} CollectedFailsFrom(paths: seq<string>, k: nat, host: Host)
    requires k <= |paths| && Collected(paths[..k], host).Err?
    ensures Collected(paths, host) == Collected(paths[..k], host)
    decreases |paths| - k
  {
    if k < |paths| {
      assert paths[..k + 1][..k] == paths[..k];
      CollectedFailsFrom(paths, k + 1, host);
    } else {
      assert paths[..k] == paths;
    }
  }

  /** Every collected directory is a matching directory entry of one of the
      listed paths, named by the product and version the pattern found. */
  lemma {:induction false} CollectedAreVersionDirs(paths: seq<string>, host: Host, v: VersionDir)
    requires Collected(paths, host).Ok? && v in Collected(paths, host).value
    ensures ProductName(v.product) && VersionText(v.version)
    ensures exists base :: base in paths && v.path == FilePath.Join(base, v.product + v.version)
  {
    var base := paths[|paths| - 1];
    var front := paths[..|paths| - 1];
    var found := Collected(front, host).value;
    if v in found {
      CollectedAreVersionDirs(front, host, v);
      var b :| b in front && v.path == FilePath.Join(b, v.product + v.version);
      assert b in paths;
    } else {
      var entries := host.readDir(base).value;
      DirsInAreVersionDirs(base, entries, v);
    }
  }

  lemma {:induction false} DirsInAreVersionDirs(base: string, entries: seq<DirEntry>, v: VersionDir)
    requires v in DirsIn(base, entries)
    ensures ProductName(v.product) && VersionText(v.version)
    ensures v.path == FilePath.Join(base, v.product + v.version)
  {
    var e := entries[|entries| - 1];
    if v in DirsIn(base, entries[..|entries| - 1]) {
      DirsInAreVersionDirs(base, entries[..|entries| - 1], v);
    } else {
      MatchVersionDirSound(e.name);
    }
  }

  // ---------------------------------------------------------------------
  // Grouping by product

  function ProductsOf(s: seq<VersionDir>): set<string>
  {
    set v | v in s :: v.product
  }

  /** The directories of `s` whose product is in `ps`, in order. */
  function OfProducts(s: seq<VersionDir>, ps: set<string>): (r: seq<VersionDir>)
    ensures forall v :: v in r <==> v in s && v.product in ps
  {
    if s == [] then []
    else
      var last := s[|s| - 1];
      OfProducts(s[..|s| - 1], ps) + (if last.product in ps then [last] else [])
  }

  /** Selecting products no directory has selects nothing. */
  lemma OfAbsentProducts(s: seq<VersionDir>, ps: set<string>)
    ensures (forall v :: v in s ==> v.product !in ps) ==> OfProducts(s, ps) == []
  {
    if OfProducts(s, ps) != [] {
      assert OfProducts(s, ps)[0] in OfProducts(s, ps);
    }
  }

  lemma OfProductsSnoc(s: seq<VersionDir>, v: VersionDir, ps: set<string>)
    ensures OfProducts(s + [v], ps) == OfProducts(s, ps) + (if v.product in ps then [v] else [])
  {
    assert (s + [v])[..|s|] == s;
  }

  /** Selecting two disjoint sets of products adds up to selecting both. */
  lemma {:induction false} OfProductsUnion(s: seq<VersionDir>, a: set<string>, b: set<string>)
    requires a !! b
    ensures multiset(OfProducts(s, a + b)) == multiset(OfProducts(s, a)) + multiset(OfProducts(s, b))
  {
    if s != [] {
      OfProductsUnion(s[..|s| - 1], a, b);
    }
  }

  /** Selecting every product there is selects everything. */
  lemma {:induction false} OfAllProducts(s: seq<VersionDir>, ps: set<string>)
    requires ProductsOf(s) <= ps
    ensures OfProducts(s, ps) == s
  {
    if s != [] {
      var front := s[..|s| - 1];
      assert ProductsOf(front) <= ProductsOf(s);
      OfAllProducts(front, ps);
      assert s == front + [s[|s| - 1]];
    }
  }

  /** The `products` map of `findRemovableDirs` after the directories
      `found`: one entry per product, holding its directories in the order
      they were found. */
  predicate Grouped(products: map<string, seq<VersionDir>>, found: seq<VersionDir>)
  {
    && products.Keys == ProductsOf(found)
    && forall p :: p in products ==> products[p] == OfProducts(found, {p})
  }

  /** `products[vd.product] = append(products[vd.product], vd)`. */
  method AddVersionDir(products: map<string, seq<VersionDir>>, ghost found: seq<VersionDir>, vd: VersionDir)
    returns (products': map<string, seq<VersionDir>>)
    requires Grouped(products, found)
    ensures Grouped(products', found + [vd])
  {
    var versions := if vd.product in products then products[vd.product] else [];
    products' := products[vd.product := versions + [vd]];
    ProductsOfSnoc(found, vd);
    forall p | p in products'
      ensures products'[p] == OfProducts(found + [vd], {p})
    {
      OfProductsSnoc(found, vd, {p});
      if p == vd.product {
        if p !in products {
          OfAbsentProducts(found, {p});
        }
      } else {
        assert products'[p] == products[p];
      }
    }
  }

  lemma ProductsOfSnoc(s: seq<VersionDir>, v: VersionDir)
    ensures ProductsOf(s + [v]) == ProductsOf(s) + {v.product}
  {
    forall p | p in ProductsOf(s)
      ensures p in ProductsOf(s + [v])
    {
      var w :| w in s && w.product == p;
      assert w in s + [v];
    }
  }

  /** The inner loop of `findRemovableDirs` over one listing. */
  method GroupListing(base: string, entries: seq<DirEntry>, products: map<string, seq<VersionDir>>,
                      ghost found: seq<VersionDir>)
    returns (products': map<string, seq<VersionDir>>, ghost found': seq<VersionDir>)
    requires Grouped(products, found)
    ensures found' == found + DirsIn(base, entries)
    ensures Grouped(products', found')
  {
    products', found' := products, found;
    for j := 0 to |entries|
      invariant found' == found + DirsIn(base, entries[..j])
      invariant Grouped(products', found')
    {
      var entry := entries[j];
      assert entries[..j + 1][..j] == entries[..j];
      if !entry.isDir {
        continue;
      }
      var matches := MatchVersionDir(entry.name);
      if matches.None? {
        continue;
      }
      var vd := VersionDir(matches.value.0, matches.value.1, FilePath.Join(base, entry.name));
      products' := AddVersionDir(products', found', vd);
      found' := found' + [vd];
    }
    assert entries[..|entries|] == entries;
  }

  // ---------------------------------------------------------------------
  // Keeping the latest version of every product

  function PathsOf(s: seq<VersionDir>): (r: seq<string>)
    ensures |r| == |s| && forall i :: 0 <= i < |s| ==> r[i] == s[i].path
  {
    seq(|s|, i requires 0 <= i < |s| => s[i].path)
  }

  lemma PathsOfAppend(a: seq<VersionDir>, b: seq<VersionDir>)
    ensures PathsOf(a + b) == PathsOf(a) + PathsOf(b)
  {
  }

  /** What `findRemovableDirs` promises of the directories it marks for
      removal, given all it collected: with one kept directory per product,
      nothing is lost or invented, and every kept directory is a latest
      version of its product. */
  predicate KeepsLatest(all: seq<VersionDir>, removed: seq<VersionDir>, kept: seq<VersionDir>)
  {
    && multiset(removed) + multiset(kept) == multiset(all)
    && (forall i, j :: 0 <= i < j < |kept| ==> kept[i].product != kept[j].product)
    && ProductsOf(kept) == ProductsOf(all)
    && (forall k, v :: k in kept && v in all && v.product == k.product ==> VersionLe(v, k))
  }

  /** One product's turn in the second loop: its versions sorted by
      `compareVersions`, and all but the last appended to `removable`; a
      product with one version is skipped. */
  method KeepLatest(versions: seq<VersionDir>, removable: seq<string>)
    returns (removable': seq<string>, ghost removed: seq<VersionDir>, ghost kept: VersionDir)
    requires |versions| >= 1
    ensures removable' == removable + PathsOf(removed)
    ensures multiset(removed) + multiset{kept} == multiset(versions)
    ensures forall v :: v in versions ==> VersionLe(v, kept)
  {
    if |versions| <= 1 {
      CompareReflexive(versions[0].version);
      assert removable + PathsOf([]) == removable;
      return removable, [], versions[0];
    }
    var a := new VersionDir[|versions|](i requires 0 <= i < |versions| => versions[i]);
    assert a[..] == versions;
    SortVersions(a);
    var sorted := a[..];
    var n := |sorted|;
    removable' := removable;
    for k := 0 to n - 1
      invariant removable' == removable + PathsOf(sorted[..k])
    {
      removable' := removable' + [sorted[k].path];
      assert PathsOf(sorted[..k + 1]) == PathsOf(sorted[..k]) + [sorted[k].path];
    }
    removed, kept := sorted[..n - 1], sorted[n - 1];
    assert sorted == removed + [kept];
    forall v | v in versions
      ensures VersionLe(v, kept)
    {
      assert v in multiset(sorted);
      var i :| 0 <= i < n && sorted[i] == v;
      if i == n - 1 {
        CompareReflexive(v.version);
      }
    }
  }

  /** The first loop of `findRemovableDirs` (the `products` map it builds). */
  method GroupByProduct(paths: seq<string>, host: Host)
    returns (r: Result<map<string, seq<VersionDir>>, Error>, ghost found: seq<VersionDir>)
    ensures r.Err? <==> Collected(paths, host).Err?
    ensures r.Err? ==> r.error == Collected(paths, host).error
    ensures r.Ok? ==> Collected(paths, host) == Ok(found) && Grouped(r.value, found)
  {
    var products: map<string, seq<VersionDir>> := map[];
    found := [];
    for i := 0 to |paths|
      invariant Collected(paths[..i], host) == Ok(found)
      invariant Grouped(products, found)
    {
      var basePath := paths[i];
      assert paths[..i + 1][..i] == paths[..i];
      var entries := host.readDir(basePath);
      if entries.Err? {
        if entries.error.notExist {
          continue;
        }
        CollectedFailsFrom(paths, i + 1, host);
        return Err(Os(entries.error)), found;
      }
      products, found := GroupListing(basePath, entries.value, products, found);
    }
    assert paths[..|paths|] == paths;
    return Ok(products), found;
  }

  /** `KeepsLatest` for the products in `done` only. */
  predicate KeepsLatestOf(found: seq<VersionDir>, done: set<string>, removed: seq<VersionDir>, kept: seq<VersionDir>)
  {
    && multiset(removed) + multiset(kept) == multiset(OfProducts(found, done))
    && (forall i, j :: 0 <= i < j < |kept| ==> kept[i].product != kept[j].product)
    && ProductsOf(kept) == done
    && (forall k, v :: k in kept && v in found && v.product == k.product ==> VersionLe(v, k))
  }

  /** Handling one more product keeps `KeepsLatestOf` for one more product. */
  lemma KeepsLatestStep(found: seq<VersionDir>, done: set<string>, removed: seq<VersionDir>, kept: seq<VersionDir>,
                        product: string, part: seq<VersionDir>, latest: VersionDir)
    requires KeepsLatestOf(found, done, removed, kept) && product !in done
    requires multiset(part) + multiset{latest} == multiset(OfProducts(found, {product}))
    requires forall v :: v in OfProducts(found, {product}) ==> VersionLe(v, latest)
    ensures KeepsLatestOf(found, done + {product}, removed + part, kept + [latest])
  {
    var sel := OfProducts(found, {product});
    assert latest in multiset(sel);
    assert latest in sel;
    assert latest.product == product;
    OfProductsUnion(found, done, {product});
    assert multiset(removed + part) + multiset(kept + [latest])
        == multiset(removed) + multiset(kept) + (multiset(part) + multiset{latest});
    var kept' := kept + [latest];
    forall i, j | 0 <= i < j < |kept'|
      ensures kept'[i].product != kept'[j].product
    {
      if j == |kept| {
        assert kept[i] in kept;
      }
    }
    assert ProductsOf(kept') == ProductsOf(kept) + {product};
    forall k, v | k in kept' && v in found && v.product == k.product
      ensures VersionLe(v, k)
    {
      if k == latest {
        assert v in sel;
      }
    }
  }

  /** One product's turn in the second loop of `findRemovableDirs`. */
  method KeepLatestOfProduct(products: map<string, seq<VersionDir>>, ghost found: seq<VersionDir>, product: string,
                             removable: seq<string>, ghost done: set<string>,
                             ghost removed: seq<VersionDir>, ghost kept: seq<VersionDir>)
    returns (removable': seq<string>, ghost removed': seq<VersionDir>, ghost kept': seq<VersionDir>)
    requires Grouped(products, found) && product in products && product !in done
    requires removable == PathsOf(removed) && KeepsLatestOf(found, done, removed, kept)
    ensures removable' == PathsOf(removed') && KeepsLatestOf(found, done + {product}, removed', kept')
  {
    var versions := products[product];
    assert versions != [] by {
      var w :| w in found && w.product == product;
      assert w in versions;
    }
    ghost var part: seq<VersionDir>;
    ghost var latest: VersionDir;
    removable', part, latest := KeepLatest(versions, removable);
    PathsOfAppend(removed, part);
    KeepsLatestStep(found, done, removed, kept, product, part, latest);
    removed', kept' := removed + part, kept + [latest];
  }

  /** The second loop of `findRemovableDirs`. Go walks the map in no fixed
      order; the loop picks the next product with `:|`, so the contract
      holds for every order. */
  method AllButLatest(products: map<string, seq<VersionDir>>, ghost found: seq<VersionDir>)
    returns (removable: seq<string>, ghost removed: seq<VersionDir>, ghost kept: seq<VersionDir>)
    requires Grouped(products, found)
    ensures removable == PathsOf(removed) && KeepsLatest(found, removed, kept)
  {
    removable, removed, kept := [], [], [];
    KeepsLatestOfNone(found);
    var left := products.Keys;
    ghost var done: set<string> := {};
    while left != {}
      invariant left <= products.Keys && done == products.Keys - left
      invariant removable == PathsOf(removed)
      invariant KeepsLatestOf(found, done, removed, kept)
      decreases left
    {
      var product :| product in left;
      removable, removed, kept := KeepLatestOfProduct(products, found, product, removable, done, removed, kept);
      left, done := left - {product}, done + {product};
    }
    assert done == products.Keys == ProductsOf(found);
    KeepsLatestOfAll(found, removed, kept);
  }

  lemma KeepsLatestOfNone(found: seq<VersionDir>)
    ensures KeepsLatestOf(found, {}, [], [])
  {
    OfAbsentProducts(found, {});
  }

  lemma KeepsLatestOfAll(found: seq<VersionDir>, removed: seq<VersionDir>, kept: seq<VersionDir>)
    requires KeepsLatestOf(found, ProductsOf(found), removed, kept)
    ensures KeepsLatest(found, removed, kept)
  {
    OfAllProducts(found, ProductsOf(found));
  }

  /** `findRemovableDirs`. The ghost results name what the source leaves
      implicit: the directories behind the returned paths, and the one
      directory kept per product. */
  method FindRemovableDirs(paths: seq<string>, host: Host)
    returns (r: Result<seq<string>, Error>, ghost removed: seq<VersionDir>, ghost kept: seq<VersionDir>)
    ensures r.Err? <==> Collected(paths, host).Err?
    ensures r.Err? ==> r.error == Collected(paths, host).error
    ensures r.Ok? ==> r.value == PathsOf(removed) && KeepsLatest(Collected(paths, host).value, removed, kept)
  {
    ghost var found;
    var products;
    products, found := GroupByProduct(paths, host);
    if products.Err? {
      return Err(products.error), [], [];
    }
    var removable;
    removable, removed, kept := AllButLatest(products.value, found);
    return Ok(removable), removed, kept;
  }

  /** How often a directory occurs among the selected ones. */
  lemma {:induction false} OfProductsCount(s: seq<VersionDir>, ps: set<string>, x: VersionDir)
    ensures multiset(OfProducts(s, ps))[x] == if x.product in ps then multiset(s)[x] else 0
  {
    if s != [] {
      OfProductsCount(s[..|s| - 1], ps, x);
      assert s == s[..|s| - 1] + [s[|s| - 1]];
    }
  }

  /** Every product with a single version directory keeps it: no directory
      of that product is marked for removal. */
  lemma SingleVersionKept(all: seq<VersionDir>, removed: seq<VersionDir>, kept: seq<VersionDir>, p: string)
    requires KeepsLatest(all, removed, kept) && |OfProducts(all, {p})| == 1
    ensures forall v :: v in removed ==> v.product != p
  {
    var selRemoved, selKept, selAll := OfProducts(removed, {p}), OfProducts(kept, {p}), OfProducts(all, {p});
    forall x
      ensures multiset(selRemoved)[x] + multiset(selKept)[x] == multiset(selAll)[x]
    {
      OfProductsCount(removed, {p}, x);
      OfProductsCount(kept, {p}, x);
      OfProductsCount(all, {p}, x);
      assert (multiset(removed) + multiset(kept))[x] == multiset(all)[x];
    }
    assert multiset(selRemoved) + multiset(selKept) == multiset(selAll);
    assert |multiset(selRemoved)| + |multiset(selKept)| == 1;
    assert selAll[0] in all;
    assert p in ProductsOf(kept);
    var k :| k in kept && k.product == p;
    assert k in selKept;
    assert |selRemoved| == 0;
  }

  /** One directory is kept for each product, so exactly as many are marked
      for removal as there are directories beyond one per product. */
  lemma RemovedCount(all: seq<VersionDir>, removed: seq<VersionDir>, kept: seq<VersionDir>)
    requires KeepsLatest(all, removed, kept)
    ensures |removed| == |all| - |ProductsOf(all)|
  {
    DistinctProducts(kept);
    assert |multiset(removed)| + |multiset(kept)| == |multiset(all)|;
  }

  lemma {:induction false} DistinctProducts(kept: seq<VersionDir>)
    requires forall i, j :: 0 <= i < j < |kept| ==> kept[i].product != kept[j].product
    ensures |ProductsOf(kept)| == |kept|
  {
    if kept != [] {
      var front := kept[..|kept| - 1];
      var last := kept[|kept| - 1];
      DistinctProducts(front);
      assert ProductsOf(kept) == ProductsOf(front) + {last.product};
      assert last.product !in ProductsOf(front);
    }
  }

  // ---------------------------------------------------------------------
  // The age filter of smartClean

  /** The directories whose modification time can be read and is strictly
      before `cutoff`, in order; one that cannot be read is dropped. */
  function OldEnough(dirs: seq<string>, host: Host, cutoff: int): (r: seq<string>)
    ensures |r| <= |dirs|
  {
    if dirs == [] then []
    else
      var d := dirs[|dirs| - 1];
      var keep := host.modTime(d).Ok? && host.modTime(d).value < cutoff;
      OldEnough(dirs[..|dirs| - 1], host, cutoff) + (if keep then [d] else [])
  }

  /** A directory survives the filter exactly when it was a candidate and is
      readable and old enough. */
  lemma {:induction false} OldEnoughExact(dirs: seq<string>, host: Host, cutoff: int, x: string)
    ensures x in OldEnough(dirs, host, cutoff) <==>
      x in dirs && host.modTime(x).Ok? && host.modTime(x).value < cutoff
  {
    if dirs != [] {
      OldEnoughExact(dirs[..|dirs| - 1], host, cutoff, x);
      assert dirs == dirs[..|dirs| - 1] + [dirs[|dirs| - 1]];
    }
  }

  /** The `maxAge` loop of `smartClean`. */
  method FilterOld(removable: seq<string>, host: Host, cutoff: int) returns (filtered: seq<string>)
    ensures filtered == OldEnough(removable, host, cutoff)
  {
    filtered := [];
    for i := 0 to |removable|
      invariant filtered == OldEnough(removable[..i], host, cutoff)
    {
      var dir := removable[i];
      assert removable[..i + 1][..i] == removable[..i];
      var info := host.modTime(dir);
      if info.Err? {
        continue;
      }
      if info.value < cutoff {
        filtered := filtered + [dir];
      }
    }
    assert removable[..|removable|] == removable;
  }

  // ---------------------------------------------------------------------
  // cleanDirs

  /** The size the scanner reports for one directory. */
  function DirSize(host: Host, dir: string): nat
  {
    SizeOf(ScanEvents(host.fs, [dir]))
  }

  /** The line one directory adds to the output: what a dry run would
      remove, or the removal error of a real run (nothing when it succeeds). */
  function DirLine(host: Host, dir: string, dryRun: bool): string
  {
    if dryRun then "would remove: " + FilePath.Base(dir) + " (" + FormatSize(host.fmt, DirSize(host, dir)) + ")\n"
    else
      match host.removeAll(dir)
      case None => ""
      case Some(e) => "error removing " + FilePath.Base(dir) + ": " + e.text + "\n"
  }

  /** The size one directory adds to `BytesCleaned`: all of it, unless its
      real removal failed. */
  function DirFreed(host: Host, dir: string, dryRun: bool): nat
  {
    if dryRun || host.removeAll(dir).None? then DirSize(host, dir) else 0
  }

  function Lines(host: Host, dirs: seq<string>, dryRun: bool): string
  {
    if dirs == [] then "" else Lines(host, dirs[..|dirs| - 1], dryRun) + DirLine(host, dirs[|dirs| - 1], dryRun)
  }

  function Freed(host: Host, dirs: seq<string>, dryRun: bool): nat
  {
    if dirs == [] then 0 else Freed(host, dirs[..|dirs| - 1], dryRun) + DirFreed(host, dirs[|dirs| - 1], dryRun)
  }

  /** What `cleanDirs` returns: nothing to do for an empty list; on
      cancellation before directory `n`, the bytes of the first `n`; after a
      dry run the listing; after a real run a count of all the directories,
      or the error lines when some removal failed. No file count is set. */
  function CleanDirsOutcome(host: Host, dirs: seq<string>, dryRun: bool, ctx: Context): (CleanResult, Option<Error>)
  {
    if dirs == [] then (CleanResult("no old versions to clean", 0, 0), None)
    else
      var n := ctx.Reached(|dirs|);
      if n < |dirs| then (CleanResult("interrupted", Freed(host, dirs[..n], dryRun), 0), Some(Canceled))
      else if dryRun then (CleanResult(TrimSpace(Lines(host, dirs, true)), Freed(host, dirs, true), 0), None)
      else
        var report := Lines(host, dirs, false);
        var output := if |report| > 0 then TrimSpace(report)
                      else "removed " + Itoa(|dirs|) + " old version directories";
        (CleanResult(output, Freed(host, dirs, false), 0), None)
  }

  /** One pass of the `cleanDirs` loop over `dir`. */
  method CleanDir(host: Host, dir: string, dryRun: bool, output: string, bytesTotal: nat)
    returns (output': string, bytesTotal': nat)
    ensures output' == output + DirLine(host, dir, dryRun)
    ensures bytesTotal' == bytesTotal + DirFreed(host, dir, dryRun)
  {
    var dirSize := CalculateSize(host.fs, [dir]);
    if dryRun {
      var line := "would remove: " + FilePath.Base(dir) + " (" + FormatSize(host.fmt, dirSize.size) + ")\n";
      output' := output + line;
      bytesTotal' := bytesTotal + dirSize.size;
      return;
    }
    var err := host.removeAll(dir);
    if err.Some? {
      var line := "error removing " + FilePath.Base(dir) + ": " + err.value.text + "\n";
      output' := output + line;
      bytesTotal' := bytesTotal;
      return;
    }
    output', bytesTotal' := output, bytesTotal + dirSize.size;
    assert output' == output + "";
  }

  /** `cleanDirs`. */
  method CleanDirs(host: Host, removable: seq<string>, dryRun: bool, ctx: Context)
    returns (result: CleanResult, err: Option<Error>)
    ensures (result, err) == CleanDirsOutcome(host, removable, dryRun, ctx)
  {
    if |removable| == 0 {
      return CleanResult("no old versions to clean", 0, 0), None;
    }
    var output, bytesTotal, cancelled := CleanDirsLoop(host, removable, dryRun, ctx);
    if cancelled {
      return CleanResult("interrupted", bytesTotal, 0), Some(Canceled);
    }
    assert removable[..|removable|] == removable;
    result := CleanDirsResult(removable, dryRun, output, bytesTotal, host, ctx);
    err := None;
  }

  /** The loop of `cleanDirs`: it stops at the first iteration that finds
      the context done. */
  method CleanDirsLoop(host: Host, removable: seq<string>, dryRun: bool, ctx: Context)
    returns (output: string, bytesTotal: nat, cancelled: bool)
    ensures cancelled <==> ctx.Reached(|removable|) < |removable|
    ensures bytesTotal == Freed(host, removable[..ctx.Reached(|removable|)], dryRun)
    ensures !cancelled ==> output == Lines(host, removable, dryRun)
  {
    bytesTotal, output := 0, "";
    for i := 0 to |removable|
      invariant forall j :: 0 <= j < i ==> !ctx.DoneAt(j)
      invariant output == Lines(host, removable[..i], dryRun)
      invariant bytesTotal == Freed(host, removable[..i], dryRun)
    {
      if ctx.DoneAt(i) {
        assert ctx.Reached(|removable|) == i;
        return output, bytesTotal, true;
      }
      CleanDirsStep(host, removable, i, dryRun);
      output, bytesTotal := CleanDir(host, removable[i], dryRun, output, bytesTotal);
    }
    assert removable[..|removable|] == removable;
    assert ctx.Reached(|removable|) == |removable|;
    cancelled := false;
  }

  /** One more directory adds its line and its bytes. */
  lemma CleanDirsStep(host: Host, dirs: seq<string>, i: nat, dryRun: bool)
    requires i < |dirs|
    ensures Lines(host, dirs[..i + 1], dryRun) == Lines(host, dirs[..i], dryRun) + DirLine(host, dirs[i], dryRun)
    ensures Freed(host, dirs[..i + 1], dryRun) == Freed(host, dirs[..i], dryRun) + DirFreed(host, dirs[i], dryRun)
  {
    assert dirs[..i + 1][..i] == dirs[..i];
  }

  /** The result `cleanDirs` builds after the loop ran to the end. */
  method CleanDirsResult(removable: seq<string>, dryRun: bool, output: string, bytesTotal: nat,
                         ghost host: Host, ghost ctx: Context)
    returns (result: CleanResult)
    requires removable != [] && ctx.Reached(|removable|) == |removable|
    requires output == Lines(host, removable, dryRun) && bytesTotal == Freed(host, removable, dryRun)
    ensures (result, None) == CleanDirsOutcome(host, removable, dryRun, ctx)
  {
    if dryRun {
      return CleanResult(TrimSpace(output), bytesTotal, 0);
    }
    result := CleanResult("removed " + Itoa(|removable|) + " old version directories", bytesTotal, 0);
    if |output| > 0 {
      result := result.(output := TrimSpace(output));
    }
  }

  /** A dry run that runs to the end reports the scanner's total over the
      directories it lists. */
  lemma {:induction false} DryRunFreesScannedSize(host: Host, dirs: seq<string>)
    ensures Freed(host, dirs, true) == SizeOf(ScanEvents(host.fs, dirs))
  {
    if dirs != [] {
      var front, last := dirs[..|dirs| - 1], dirs[|dirs| - 1];
      DryRunFreesScannedSize(host, front);
      ScannedSnoc(host.fs, dirs);
    }
  }

  lemma ScannedSnoc(fs: FileSystem, dirs: seq<string>)
    requires dirs != []
    ensures SizeOf(ScanEvents(fs, dirs)) ==
      SizeOf(ScanEvents(fs, dirs[..|dirs| - 1])) + SizeOf(ScanEvents(fs, [dirs[|dirs| - 1]]))
  {
    var front, last := dirs[..|dirs| - 1], dirs[|dirs| - 1];
    var evs := RootEvents(last, fs(last));
    assert [last][..0] == [];
    assert ScanEvents(fs, [last]) == [] + evs == evs;
    SizeOfAppend(ScanEvents(fs, front), evs);
  }

  /** A real run reports no more than a dry run would, and the same when
      every removal succeeds. */
  lemma {:induction false} RealRunFreesAtMostDryRun(host: Host, dirs: seq<string>)
    ensures Freed(host, dirs, false) <= Freed(host, dirs, true)
    ensures (forall d :: d in dirs ==> host.removeAll(d).None?) ==>
      Freed(host, dirs, false) == Freed(host, dirs, true)
  {
    if dirs != [] {
      RealRunFreesAtMostDryRun(host, dirs[..|dirs| - 1]);
    }
  }

  /** A real run prints error lines exactly when some removal failed. */
  lemma {:induction false} ReportEmptyIffAllRemoved(host: Host, dirs: seq<string>)
    ensures Lines(host, dirs, false) == [] <==> forall d :: d in dirs ==> host.removeAll(d).None?
  {
    if dirs != [] {
      var front := dirs[..|dirs| - 1];
      ReportEmptyIffAllRemoved(host, front);
      assert dirs == front + [dirs[|dirs| - 1]];
    }
  }

  /** So a real run that is not cancelled prints the count of directories
      exactly when every removal succeeded, and then freed what a dry run
      reports. */
  lemma AllRemovedMessage(host: Host, dirs: seq<string>, ctx: Context)
    requires dirs != [] && ctx.Reached(|dirs|) == |dirs|
    requires forall d :: d in dirs ==> host.removeAll(d).None?
    ensures CleanDirsOutcome(host, dirs, false, ctx).0 ==
      CleanResult("removed " + Itoa(|dirs|) + " old version directories", SizeOf(ScanEvents(host.fs, dirs)), 0)
  {
    ReportEmptyIffAllRemoved(host, dirs);
    RealRunFreesAtMostDryRun(host, dirs);
    DryRunFreesScannedSize(host, dirs);
  }

  // ---------------------------------------------------------------------
  // Clean

  /** The directories `Clean` hands to `cleanDirs`: smart mode with a
      positive `maxAge` keeps only those modified before `now - maxAge`. */
  function Selected(p: BaseProvider, host: Host, opts: CleanOptions, removable: seq<string>): seq<string>
  {
    if opts.mode == Smart && p.maxAge > 0 then OldEnough(removable, host, host.now - p.maxAge) else removable
  }

  /** `Clean`, `smartClean` and `fullClean`. */
  method Clean(p: BaseProvider, host: Host, opts: CleanOptions, ctx: Context)
    returns (result: CleanResult, err: Option<Error>, ghost removed: seq<VersionDir>, ghost kept: seq<VersionDir>)
    ensures Collected(p.paths, host).Err? ==> result == NoResult && err == Some(Collected(p.paths, host).error)
    ensures Collected(p.paths, host).Ok? ==>
      && KeepsLatest(Collected(p.paths, host).value, removed, kept)
      && (result, err) == CleanDirsOutcome(host, Selected(p, host, opts, PathsOf(removed)), opts.dryRun, ctx)
  {
    var found;
    found, removed, kept := FindRemovableDirs(p.paths, host);
    if found.Err? {
      return NoResult, Some(found.error), removed, kept;
    }
    var removable := SelectDirs(p, host, opts, found.value);
    result, err := CleanDirs(host, removable, opts.dryRun, ctx);
  }

  /** `smartClean`'s age filter, applied only with a positive `maxAge`. */
  method SelectDirs(p: BaseProvider, host: Host, opts: CleanOptions, removable: seq<string>) returns (selected: seq<string>)
    ensures selected == Selected(p, host, opts, removable)
  {
    selected := removable;
    if opts.mode == Smart && p.maxAge > 0 {
      var cutoff := host.now - p.maxAge;
      selected := FilterOld(removable, host, cutoff);
    }
  }
}
