/** The pieces of Go's `path/filepath` package the program relies on, for
    slash-separated paths: `Clean`, `Join` of two elements and `Base`. */
module FilePath {
  import Text

  /** A path element: not empty and without a separator. */
  predicate Element(e: string)
  {
    e != [] && '/' !in e
  }

  /** An element `Clean` keeps as it is. */
  predicate Plain(e: string)
  {
    Element(e) && e != "." && e != ".."
  }

  predicate AllPlain(es: seq<string>)
  {
    forall i :: 0 <= i < |es| ==> Plain(es[i])
  }

  predicate Rooted(p: string)
  {
    p != [] && p[0] == '/'
  }

  /** The elements separated by single slashes. */
  function Slashed(es: seq<string>): string
  {
    Text.Join(es, "/")
  }

  /** The index of the last slash of `p`, or -1 without one. */
  function LastSlash(p: string): (r: int)
    ensures -1 <= r < |p|
    ensures r >= 0 ==> p[r] == '/'
    ensures forall j :: r < j < |p| ==> p[j] != '/'
  {
    if p == [] then -1 else if p[|p| - 1] == '/' then |p| - 1 else LastSlash(p[..|p| - 1])
  }

  /** The elements of `p` in order: what lies between slashes, empty runs
      left out. */
  function Elements(p: string): (es: seq<string>)
    ensures forall i :: 0 <= i < |es| ==> Element(es[i])
    decreases |p|
  {
    if p == [] then []
    else if p[|p| - 1] == '/' then Elements(p[..|p| - 1])
    else
      var k := LastSlash(p);
      var e := p[k + 1..];
      assert forall j :: 0 <= j < |e| ==> e[j] == p[k + 1 + j];
      Elements(p[..k + 1]) + [e]
  }

  /** `Clean`'s treatment of the next element, given the elements kept so
      far: "." is dropped; ".." removes the last kept element, unless there
      is none or it is ".." itself, in which case it is dropped at the root
      and kept in a relative path; any other element is kept. */
  function Step(kept: seq<string>, e: string, rooted: bool): seq<string>
  {
    if e == "." then kept
    else if e == ".." then
      if kept != [] && kept[|kept| - 1] != ".." then kept[..|kept| - 1]
      else if rooted then kept
      else kept + [".."]
    else kept + [e]
  }

  function Resolve(es: seq<string>, rooted: bool): seq<string>
  {
    if es == [] then [] else Step(Resolve(es[..|es| - 1], rooted), es[|es| - 1], rooted)
  }

  /** Kept elements written back as a path: after a slash at the root,
      bare otherwise. */
  function Joined(kept: seq<string>, rooted: bool): string
  {
    if rooted then "/" + Slashed(kept) else Slashed(kept)
  }

  /** `filepath.Clean`: repeated and trailing slashes, "." elements and
      ".." elements with something to cancel are removed, ".." at the root
      is dropped, and an empty result is "." (or "/" at the root). */
  function Clean(p: string): string
  {
    var kept := Resolve(Elements(p), Rooted(p));
    if !Rooted(p) && kept == [] then "." else Joined(kept, Rooted(p))
  }

  /** `filepath.Join(dir, name)`: the cleaned slash-joined pair; an empty
      `dir` leaves `name` alone (cleaned), and two empty elements join to
      the empty path. */
  function Join(dir: string, name: string): string
  {
    if dir != [] then Clean(dir + "/" + name) else if name != [] then Clean(name) else []
  }

  // ---------------------------------------------------------------------
  // What cleaning does

  /** The elements `Clean` returns: proper elements, no ".", and ".." only
      at the front of a relative path. */
  predicate Resolved(kept: seq<string>, rooted: bool)
  {
    && (forall i :: 0 <= i < |kept| ==> Element(kept[i]) && kept[i] != ".")
    && (forall i :: 0 <= i < |kept| && kept[i] == ".." ==> !rooted)
    && (forall i, j :: 0 <= i < j < |kept| && kept[j] == ".." ==> kept[i] == "..")
  }

  /** A trailing slash adds no element. */
  lemma ElementsSlash(x: string)
    ensures Elements(x + "/") == Elements(x)
  {
    assert (x + "/")[..|x|] == x;
  }

  lemma LastSlashOfSnoc(x: string, e: string)
    requires '/' !in e && (x == [] || x[|x| - 1] == '/')
    ensures LastSlash(x + e) == |x| - 1
  {
    var p := x + e;
    forall j | |x| <= j < |p|
      ensures p[j] != '/'
    {
      assert p[j] == e[j - |x|];
    }
    if x != [] {
      assert p[|x| - 1] == '/';
    }
  }

  /** An element after a slash (or alone) is the last element. */
  lemma ElementsSnoc(x: string, e: string)
    requires Element(e) && (x == [] || x[|x| - 1] == '/')
    ensures Elements(x + e) == Elements(x) + [e]
  {
    var p := x + e;
    assert p[|p| - 1] == e[|e| - 1];
    LastSlashOfSnoc(x, e);
    assert p[..|x|] == x && p[|x|..] == e;
  }

  /** Elements joined by single slashes, after a leading slash or not,
      split back into the same elements. */
  lemma {:induction false} ElementsOfSlashed(pre: string, es: seq<string>)
    requires pre == "" || pre == "/"
    requires forall i :: 0 <= i < |es| ==> Element(es[i])
    ensures Elements(pre + Slashed(es)) == es
  {
    if es == [] {
      assert pre + Slashed(es) == pre;
      if pre == "/" {
        ElementsSlash("");
      }
    } else {
      var front := es[..|es| - 1];
      var e := es[|es| - 1];
      assert es == front + [e];
      if front == [] {
        ElementsSnoc(pre, e);
      } else {
        Text.JoinAppend(front, [e], "/");
        var x := pre + Slashed(front);
        assert pre + Slashed(es) == (x + "/") + e;
        ElementsSnoc(x + "/", e);
        ElementsSlash(x);
        ElementsOfSlashed(pre, front);
      }
    }
  }

  lemma ElementsOfJoined(kept: seq<string>, rooted: bool)
    requires forall i :: 0 <= i < |kept| ==> Element(kept[i])
    ensures Elements(Joined(kept, rooted)) == kept
  {
    if rooted {
      ElementsOfSlashed("/", kept);
    } else {
      ElementsOfSlashed("", kept);
      assert "" + Slashed(kept) == Slashed(kept);
    }
  }

  /** The kept elements are always resolved. */
  lemma {:induction false} ResolveResolved(es: seq<string>, rooted: bool)
    requires forall i :: 0 <= i < |es| ==> Element(es[i])
    ensures Resolved(Resolve(es, rooted), rooted)
  {
    if es != [] {
      var front := es[..|es| - 1];
      ResolveResolved(front, rooted);
      var kept := Resolve(front, rooted);
      var e := es[|es| - 1];
      if e == ".." && kept != [] && kept[|kept| - 1] == ".." {
        assert forall i :: 0 <= i < |kept| ==> kept[i] == "..";
      }
    }
  }

  /** Resolving what is already resolved changes nothing. */
  lemma {:induction false} ResolveFixed(kept: seq<string>, rooted: bool)
    requires Resolved(kept, rooted)
    ensures Resolve(kept, rooted) == kept
  {
    if kept != [] {
      var front := kept[..|kept| - 1];
      assert Resolved(front, rooted);
      ResolveFixed(front, rooted);
      if kept[|kept| - 1] == ".." && front != [] {
        assert front[|front| - 1] == "..";
      }
    }
  }

  /** A slash-joined list of elements starts with its first element. */
  lemma SlashedHead(es: seq<string>)
    requires es != [] && es[0] != []
    ensures Slashed(es) != [] && Slashed(es)[0] == es[0][0]
  {
    if |es| > 1 {
      assert Slashed(es) == es[0] + ("/" + Slashed(es[1..]));
    }
  }

  /** Resolved elements written back as a path come back unchanged from
      cleaning, and the path is rooted exactly when asked to be. */
  lemma CleanResolved(kept: seq<string>, rooted: bool)
    requires Resolved(kept, rooted) && (rooted || kept != [])
    ensures Rooted(Joined(kept, rooted)) == rooted
    ensures Clean(Joined(kept, rooted)) == Joined(kept, rooted)
  {
    ElementsOfJoined(kept, rooted);
    ResolveFixed(kept, rooted);
    if !rooted {
      SlashedHead(kept);
      assert kept[0][0] != '/';
    }
  }

  lemma CleanDot()
    ensures Clean(".") == "."
  {
    ElementsSnoc([], ".");
    assert [] + "." == ".";
  }

  /** Cleaning keeps a path rooted or relative, never returns the empty
      path, and gives a path that is its own cleaning. */
  lemma CleanIdempotent(p: string)
    ensures Clean(p) != []
    ensures Rooted(Clean(p)) <==> Rooted(p)
    ensures Clean(Clean(p)) == Clean(p)
  {
    var rooted := Rooted(p);
    var kept := Resolve(Elements(p), rooted);
    ResolveResolved(Elements(p), rooted);
    if !rooted && kept == [] {
      CleanDot();
    } else {
      CleanResolved(kept, rooted);
    }
  }

  /** Plain elements separated by single slashes, rooted or not, are
      already clean. */
  lemma CleanPlain(es: seq<string>, rooted: bool)
    requires AllPlain(es) && (rooted || es != [])
    ensures Clean(Joined(es, rooted)) == Joined(es, rooted)
  {
    PlainResolved(es);
    CleanResolved(es, rooted);
  }

  /** Joining a plain relative path under a plain absolute one puts a
      single slash between them. */
  lemma JoinPlain(dirElements: seq<string>, nameElements: seq<string>)
    requires AllPlain(dirElements) && AllPlain(nameElements) && dirElements != [] && nameElements != []
    ensures Join("/" + Slashed(dirElements), Slashed(nameElements))
            == "/" + Slashed(dirElements) + "/" + Slashed(nameElements)
  {
    Text.JoinAppend(dirElements, nameElements, "/");
    assert "/" + Slashed(dirElements) + "/" + Slashed(nameElements) == Joined(dirElements + nameElements, true);
    CleanPlain(dirElements + nameElements, true);
  }

  /** Joining under a rooted directory gives a rooted path. */
  lemma JoinRooted(dir: string, name: string)
    requires Rooted(dir)
    ensures Rooted(Join(dir, name))
  {
    var p := dir + "/" + name;
    assert Rooted(p);
    CleanIdempotent(p);
  }

  lemma AppendAssoc<T>(a: seq<T>, b: seq<T>, c: seq<T>)
    ensures a + b + c == a + (b + c)
  {
  }

  lemma NoSlashAfterLast(y: string)
    ensures '/' !in y[LastSlash(y) + 1..]
  {
    var k := LastSlash(y);
    var e := y[k + 1..];
    forall j | 0 <= j < |e|
      ensures e[j] != '/'
    {
      assert e[j] == y[k + 1 + j];
    }
  }

  /** A path ending in an element splits into what precedes it and it. */
  lemma SplitLast(y: string)
    requires y != [] && y[|y| - 1] != '/'
    ensures y == y[..LastSlash(y) + 1] + y[LastSlash(y) + 1..]
    ensures Element(y[LastSlash(y) + 1..])
    ensures LastSlash(y) >= 0 ==> y[..LastSlash(y) + 1][LastSlash(y)] == '/'
  {
    NoSlashAfterLast(y);
  }

  /** The elements on either side of a slash, in order. */
  lemma {:induction false} ElementsAppend(x: string, y: string)
    ensures Elements(x + "/" + y) == Elements(x) + Elements(y)
    decreases |y|, 1
  {
    if y == [] {
      assert x + "/" + y == x + "/";
      ElementsSlash(x);
    } else if y[|y| - 1] == '/' {
      ElementsAppendSlash(x, y);
    } else {
      ElementsAppendSnoc(x, y);
    }
  }

  lemma {:induction false} ElementsAppendSlash(x: string, y: string)
    requires y != [] && y[|y| - 1] == '/'
    ensures Elements(x + "/" + y) == Elements(x) + Elements(y)
    decreases |y|, 0
  {
    var y' := y[..|y| - 1];
    assert y == y' + "/";
    ElementsAppend(x, y');
    AppendAssoc(x + "/", y', "/");
    ElementsSlash(x + "/" + y');
    ElementsSlash(y');
  }

  lemma {:induction false} ElementsAppendSnoc(x: string, y: string)
    requires y != [] && y[|y| - 1] != '/'
    ensures Elements(x + "/" + y) == Elements(x) + Elements(y)
    decreases |y|, 0
  {
    var k := LastSlash(y);
    SplitLast(y);
    var y1 := y[..k + 1];
    var e := y[k + 1..];
    assert y1 == [] || y1[|y1| - 1] == '/';
    ElementsAppend(x, y1);
    ElementsSnoc(y1, e);
    AppendAssoc(x + "/", y1, e);
    ElementsSnoc(x + "/" + y1, e);
    AppendAssoc(Elements(x), Elements(y1), [e]);
  }

  /** The elements of a join: those of the directory, then those of the
      name. */
  lemma JoinElements(dir: string, name: string)
    requires dir != []
    ensures Join(dir, name) == Clean(dir + "/" + name)
    ensures Elements(dir + "/" + name) == Elements(dir) + Elements(name)
    ensures Rooted(dir + "/" + name) == Rooted(dir)
  {
    ElementsAppend(dir, name);
  }

  /** Paths with the same elements, both rooted or both relative, clean
      to the same path. */
  lemma CleanSameElements(p: string, q: string)
    requires Elements(p) == Elements(q) && Rooted(p) == Rooted(q)
    ensures Clean(p) == Clean(q)
  {
  }

  /** A trailing slash on the joined name makes no difference. */
  lemma JoinTrailingSlash(dir: string, name: string)
    requires dir != []
    ensures Join(dir, name + "/") == Join(dir, name)
  {
    JoinElements(dir, name + "/");
    JoinElements(dir, name);
    ElementsSlash(name);
    CleanSameElements(dir + "/" + (name + "/"), dir + "/" + name);
  }

  lemma ElementsLeadingSlash(name: string)
    ensures Elements("/" + name) == Elements(name)
  {
    var empty: string := [];
    ElementsAppend(empty, name);
    assert empty + "/" == "/";
  }

  /** A leading slash on the joined name does not make it absolute: the
      doubled slash collapses. */
  lemma JoinLeadingSlash(dir: string, name: string)
    requires dir != []
    ensures Join(dir, "/" + name) == Join(dir, name)
  {
    JoinElements(dir, "/" + name);
    JoinElements(dir, name);
    ElementsLeadingSlash(name);
    CleanSameElements(dir + "/" + ("/" + name), dir + "/" + name);
  }

  /** A plain name, alone or after "~/", is already clean. */
  lemma CleanPlainName(pre: string, name: string)
    requires Plain(name) && (pre == [] || pre == "~/")
    ensures Clean(pre + name) == pre + name
  {
    if pre == [] {
      assert Joined([name], false) == name == pre + name;
      CleanPlain([name], false);
    } else {
      assert ["~", name][1..] == [name];
      assert Joined(["~", name], false) == "~" + "/" + name == pre + name;
      assert Plain("~") by {
        assert "~"[0] != '/';
      }
      CleanPlain(["~", name], false);
    }
  }

  lemma PlainResolved(es: seq<string>)
    requires AllPlain(es)
    ensures Resolved(es, true) && Resolved(es, false)
  {
  }

  lemma ResolveSnoc(es: seq<string>, e: string, rooted: bool)
    ensures Resolve(es + [e], rooted) == Step(Resolve(es, rooted), e, rooted)
  {
    assert (es + [e])[..|es|] == es;
  }

  lemma ElementsOfParent(name: string)
    requires Plain(name)
    ensures Elements("../" + name) == ["..", name]
  {
    calc {
      Elements("../" + name);
      { assert "../" + name == ".." + "/" + name; }
      Elements(".." + "/" + name);
      { ElementsAppend("..", name); }
      Elements("..") + Elements(name);
      { ElementsSnoc([], ".."); assert [] + ".." == ".."; }
      [".."] + Elements(name);
      { ElementsSnoc([], name); assert [] + name == name; }
      [".."] + [name];
    }
  }

  lemma ResolveParent(dirElements: seq<string>, name: string)
    requires AllPlain(dirElements) && dirElements != [] && Plain(name)
    ensures Resolve(dirElements + ["..", name], true) == dirElements[..|dirElements| - 1] + [name]
  {
    calc {
      Resolve(dirElements + ["..", name], true);
      { AppendAssoc(dirElements, [".."], [name]); assert [".."] + [name] == ["..", name]; }
      Resolve(dirElements + [".."] + [name], true);
      { ResolveSnoc(dirElements + [".."], name, true); }
      Step(Resolve(dirElements + [".."], true), name, true);
      { ResolveSnoc(dirElements, "..", true); }
      Step(Step(Resolve(dirElements, true), "..", true), name, true);
      { PlainResolved(dirElements); ResolveFixed(dirElements, true); }
      Step(Step(dirElements, "..", true), name, true);
      dirElements[..|dirElements| - 1] + [name];
    }
  }

  lemma ElementsOne(e: string)
    requires Element(e)
    ensures Elements(e) == [e]
  {
    var empty: string := [];
    ElementsSnoc(empty, e);
    assert empty + e == e;
  }

  /** Once the elements read so far cancel out, what follows resolves as
      if they were not there. */
  lemma {:induction false} ResolveAfterEmpty(pre: seq<string>, es: seq<string>, rooted: bool)
    requires Resolve(pre, rooted) == []
    ensures Resolve(pre + es, rooted) == Resolve(es, rooted)
  {
    if es == [] {
      assert pre + es == pre;
    } else {
      var front := es[..|es| - 1];
      var e := es[|es| - 1];
      assert es == front + [e];
      AppendAssoc(pre, front, [e]);
      ResolveSnoc(pre + front, e, rooted);
      ResolveSnoc(front, e, rooted);
      ResolveAfterEmpty(pre, front, rooted);
    }
  }

  lemma ElementsOfParentDir(a: string)
    requires Plain(a)
    ensures Elements(a + "/..") == [a, ".."]
  {
    calc {
      Elements(a + "/..");
      { assert a + "/.." == a + "/" + ".."; }
      Elements(a + "/" + "..");
      { ElementsAppend(a, ".."); }
      Elements(a) + Elements("..");
      { ElementsOne(a); ElementsOne(".."); }
      [a] + [".."];
    }
  }

  lemma ResolveCancel(a: string)
    requires Plain(a)
    ensures Resolve([a, ".."], false) == []
  {
    ResolveSnoc([], a, false);
    assert [] + [a] == [a];
    ResolveSnoc([a], "..", false);
    assert [a] + [".."] == [a, ".."];
  }

  /** Paths whose elements resolve alike, both rooted or both relative,
      clean to the same path. */
  lemma CleanSameResolved(p: string, q: string)
    requires Rooted(p) == Rooted(q) && Resolve(Elements(p), Rooted(p)) == Resolve(Elements(q), Rooted(q))
    ensures Clean(p) == Clean(q)
  {
  }

  /** Joining under "a/.." is cleaning the relative name alone. */
  lemma JoinThroughParent(a: string, name: string)
    requires Plain(a) && !Rooted(name)
    ensures Join(a + "/..", name) == Clean(name)
  {
    var dir := a + "/..";
    var p := dir + "/" + name;
    JoinElements(dir, name);
    ElementsOfParentDir(a);
    ResolveCancel(a);
    ResolveAfterEmpty([a, ".."], Elements(name), false);
    assert !Rooted(p) by {
      assert p[0] == a[0];
    }
    CleanSameResolved(p, name);
  }

  /** A ".." at the head of the joined name cancels the last element of a
      plain absolute directory. */
  lemma JoinParent(dirElements: seq<string>, name: string)
    requires AllPlain(dirElements) && dirElements != [] && Plain(name)
    ensures Join(Joined(dirElements, true), "../" + name)
            == Joined(dirElements[..|dirElements| - 1] + [name], true)
  {
    var dir := Joined(dirElements, true);
    JoinElements(dir, "../" + name);
    ElementsOfJoined(dirElements, true);
    ElementsOfParent(name);
    ResolveParent(dirElements, name);
    var kept := dirElements[..|dirElements| - 1] + [name];
    assert AllPlain(kept) by {
      assert forall i :: 0 <= i < |kept| - 1 ==> kept[i] == dirElements[i];
    }
    PlainResolved(kept);
    CleanResolved(kept, true);
  }

  // ---------------------------------------------------------------------
  // filepath.Base

  function DropTrailingSlashes(s: string): (r: string)
    ensures |r| <= |s| && r == s[..|r|]
    ensures r != [] ==> r[|r| - 1] != '/'
  {
    if s != [] && s[|s| - 1] == '/' then DropTrailingSlashes(s[..|s| - 1]) else s
  }

  /** What follows the last slash. */
  function AfterLastSlash(s: string): (r: string)
    ensures '/' !in r
  {
    if s == [] || s[|s| - 1] == '/' then [] else AfterLastSlash(s[..|s| - 1]) + [s[|s| - 1]]
  }

  /** `filepath.Base`: the last element once trailing slashes are dropped;
      "." for the empty path and "/" for a path of slashes only. */
  function Base(path: string): (r: string)
    ensures r != []
  {
    if path == [] then "."
    else
      var t := DropTrailingSlashes(path);
      if t == [] then "/" else AfterLastSlash(t)
  }

  lemma {:induction false} AfterLastSlashOfName(dir: string, name: string)
    requires '/' !in name && (dir == [] || dir[|dir| - 1] == '/')
    ensures AfterLastSlash(dir + name) == name
  {
    if name == [] {
      assert dir + name == dir;
    } else {
      assert (dir + name)[..|dir + name| - 1] == dir + name[..|name| - 1];
      AfterLastSlashOfName(dir, name[..|name| - 1]);
    }
  }

  /** A plain last element stays last when the path is cleaned. */
  lemma {:induction false} CleanLastPlain(pre: string, name: string)
    requires Plain(name) && (pre == [] || pre[|pre| - 1] == '/')
    ensures Clean(pre + name) == Joined(Resolve(Elements(pre), Rooted(pre + name)) + [name], Rooted(pre + name))
  {
    ElementsSnoc(pre, name);
    var es := Elements(pre) + [name];
    assert es[..|es| - 1] == Elements(pre);
  }

  /** What precedes the last element when elements are written back: a
      path ending in a slash, or nothing. */
  function JoinedFront(kept: seq<string>, rooted: bool): (r: string)
    ensures r == [] || r[|r| - 1] == '/'
  {
    if kept == [] then (if rooted then "/" else "") else Joined(kept, rooted) + "/"
  }

  lemma JoinedSnoc(kept: seq<string>, name: string, rooted: bool)
    ensures Joined(kept + [name], rooted) == JoinedFront(kept, rooted) + name
  {
    if kept == [] {
      assert kept + [name] == [name];
      assert "" + name == name;
    } else {
      Text.JoinAppend(kept, [name], "/");
      if rooted {
        AppendAssoc("/", Slashed(kept) + "/", name);
        AppendAssoc("/", Slashed(kept), "/");
      }
    }
  }

  /** The last of the written-back elements is the base. */
  lemma BaseOfJoined(kept: seq<string>, name: string, rooted: bool)
    requires Plain(name)
    ensures Base(Joined(kept + [name], rooted)) == name
  {
    JoinedSnoc(kept, name, rooted);
    var front := JoinedFront(kept, rooted);
    var p := front + name;
    assert p[|p| - 1] == name[|name| - 1];
    AfterLastSlashOfName(front, name);
  }

  /** The base of a directory entry's joined path is the entry's name. */
  lemma BaseOfJoin(dir: string, name: string)
    requires Plain(name)
    ensures Base(Join(dir, name)) == name
  {
    if dir != [] {
      var pre := dir + "/";
      assert dir + "/" + name == pre + name;
      CleanLastPlain(pre, name);
      BaseOfJoined(Resolve(Elements(pre), Rooted(pre + name)), name, Rooted(pre + name));
    } else {
      assert [] + name == name;
      CleanLastPlain([], name);
      BaseOfJoined(Resolve(Elements([]), Rooted(name)), name, Rooted(name));
    }
  }
}
