/** internal/provider/jetbrains.go, the version half: the pattern that picks
    out version directories, `compareVersions` over dotted numbers, and the
    `sort.Slice` that orders one product's versions. The `strings.Split` and
    `strconv.Atoi` it relies on are modelled here too. */
module Versions {
  import opened Common
  import opened Text

  // ---------------------------------------------------------------------
  // strings.Split(s, ".")

  /** `strings.Split(s, ".")`: the pieces between dots, one more than there
      are dots (so `[""]` for the empty string). */
  function SplitDot(s: string): (r: seq<string>)
    ensures |r| >= 1
    ensures forall k :: 0 <= k < |r| ==> '.' !in r[k]
  {
    if s == [] then [""] else Extend(SplitDot(s[..|s| - 1]), s[|s| - 1])
  }

  /** The pieces of a string one character longer: a dot starts a new,
      empty piece, any other character extends the last piece. */
  function Extend(parts: seq<string>, c: char): (r: seq<string>)
    requires parts != []
    requires forall k :: 0 <= k < |parts| ==> '.' !in parts[k]
    ensures |r| >= 1
    ensures forall k :: 0 <= k < |r| ==> '.' !in r[k]
  {
    if c == '.' then parts + [""] else parts[..|parts| - 1] + [parts[|parts| - 1] + [c]]
  }

  /** A string without a dot is one piece. */
  lemma {:induction false} SplitNoDot(s: string)
    requires '.' !in s
    ensures SplitDot(s) == [s]
  {
    if s != [] {
      SplitNoDot(s[..|s| - 1]);
      assert s == s[..|s| - 1] + [s[|s| - 1]];
    }
  }

  lemma SplitDotSnoc(s: string, c: char)
    ensures SplitDot(s + [c]) == Extend(SplitDot(s), c)
  {
    assert (s + [c])[..|s|] == s;
  }

  /** Extending pieces that follow others leaves those others alone. */
  lemma ExtendAfter(x: seq<string>, y: seq<string>, c: char)
    requires y != []
    requires forall k :: 0 <= k < |x| ==> '.' !in x[k]
    requires forall k :: 0 <= k < |y| ==> '.' !in y[k]
    ensures Extend(x + y, c) == x + Extend(y, c)
  {
    if c != '.' {
      var xy := x + y;
      var l, r := xy[..|xy| - 1], x + y[..|y| - 1];
      assert xy[|xy| - 1] == y[|y| - 1];
      forall k | 0 <= k < |l|
        ensures l[k] == r[k]
      {
        if k < |x| {
          assert r[k] == x[k];
        }
      }
      assert l == r;
    }
  }

  /** Splitting at a dot splits the two sides separately. */
  lemma {:induction false} SplitAtDot(a: string, b: string)
    ensures SplitDot(a + "." + b) == SplitDot(a) + SplitDot(b)
  {
    if b == [] {
      assert a + "." + b == a + ['.'];
      SplitDotSnoc(a, '.');
    } else {
      var b' := b[..|b| - 1];
      var c := b[|b| - 1];
      SplitAtDot(a, b');
      var w := a + "." + b';
      assert a + "." + b == w + [c];
      assert b == b' + [c];
      SplitDotSnoc(w, c);
      SplitDotSnoc(b', c);
      ExtendAfter(SplitDot(a), SplitDot(b'), c);
    }
  }

  // ---------------------------------------------------------------------
  // strconv.Atoi on a 64-bit platform

  const MaxInt64: int := 0x7FFF_FFFF_FFFF_FFFF
  const MaxUint64: int := 0xFFFF_FFFF_FFFF_FFFF

  /** `ParseUint`'s overflow guard: a value at or above it cannot take one more digit. */
  const Cutoff: int := MaxUint64 / 10 + 1

  datatype NumError = Syntax | Range

  /** `strconv.ParseUint(s, 10, 64)` from index `i` on, with `n` read so
      far: a non-digit is a syntax error, and an overflow is a range error
      as soon as it happens, before any later character is looked at. */
  function ScanUint(s: string, i: nat, n: nat): (r: Result<nat, NumError>)
    requires i <= |s|
    ensures r.Ok? ==> r.value <= MaxUint64 || (i == |s| && r.value == n)
    decreases |s| - i
  {
    if i == |s| then Ok(n)
    else if !IsDigit(s[i]) then Err(Syntax)
    else if n >= Cutoff then Err(Range)
    else
      var n1 := n * 10 + DigitValue(s[i]);
      if n1 > MaxUint64 then Err(Range) else ScanUint(s, i + 1, n1)
  }

  function ParseUint(s: string): Result<nat, NumError>
  {
    if s == [] then Err(Syntax) else ScanUint(s, 0, 0)
  }

  /** `strconv.ParseInt(s, 10, 64)`'s value: an optional sign, then the
      unsigned part; a syntax error gives 0 and a range error the bound of
      the sign's side. */
  function ParseIntValue(s: string): int
  {
    if s == [] then 0
    else
      var neg := s[0] == '-';
      var digits := if s[0] == '-' || s[0] == '+' then s[1..] else s;
      match ParseUint(digits)
      case Err(Syntax) => 0
      case Err(Range) => if neg then -MaxInt64 - 1 else MaxInt64
      case Ok(un) =>
        if !neg && un > MaxInt64 then MaxInt64
        else if neg && un > MaxInt64 + 1 then -MaxInt64 - 1
        else
          var v: int := un;
          if neg then -v else v
  }

  /** The value `strconv.Atoi(s)` returns, whatever its error. Strings
      shorter than 19 take the fast path: an optional sign and at least one
      digit, else 0. Longer ones go through `ParseInt`. Go measures that
      length in bytes; a string whose byte and character lengths fall on
      different sides of 19 holds a non-ASCII character and too few digits
      before it to overflow, so both paths give 0 for it. */
  function Atoi(s: string): int
  {
    if 0 < |s| < 19 then
      var digits := if s[0] == '-' || s[0] == '+' then s[1..] else s;
      if digits == [] || !AllDigits(digits) then 0
      else
        var v: int := DigitsValue(digits);
        if s[0] == '-' then -v else v
    else ParseIntValue(s)
  }

  lemma {:induction false} DigitsPrefixBound(s: string, k: nat)
    requires AllDigits(s) && k <= |s|
    ensures DigitsValue(s[..k]) <= DigitsValue(s)
    decreases |s| - k
  {
    if k < |s| {
      DigitsPrefixBound(s, k + 1);
      assert s[..k + 1][..k] == s[..k];
    } else {
      assert s[..k] == s;
    }
  }

  /** Scanning a digit string either reads its whole value or stops on an
      overflow, and a value that fits is always read whole. */
  lemma {:induction false} ScanUintDigits(s: string, i: nat)
    requires AllDigits(s) && i <= |s|
    ensures ScanUint(s, i, DigitsValue(s[..i])) in {Ok(DigitsValue(s)), Err(Range)}
    ensures DigitsValue(s) <= MaxUint64 ==> ScanUint(s, i, DigitsValue(s[..i])) == Ok(DigitsValue(s))
    decreases |s| - i
  {
    if i == |s| {
      assert s[..i] == s;
    } else {
      DigitsPrefixBound(s, i + 1);
      assert s[..i + 1][..i] == s[..i];
      ScanUintDigits(s, i + 1);
    }
  }

  /** `Atoi` reads back the decimal digits of any non-negative int64. */
  lemma AtoiItoa(n: nat)
    requires n <= MaxInt64
    ensures Atoi(Itoa(n)) == n
  {
    var s := Itoa(n);
    assert s[0] != '-' && s[0] != '+' by {
      assert IsDigit(s[0]);
    }
    if |s| >= 19 {
      ScanUintDigits(s, 0);
      assert s[..0] == [];
    }
  }

  /** A long digit string too large for int64 reads as `MaxInt64`, whether
      or not it also overflows 64 unsigned bits. */
  lemma AtoiClamps(s: string)
    requires |s| >= 19 && AllDigits(s) && DigitsValue(s) > MaxInt64
    ensures Atoi(s) == MaxInt64
  {
    assert IsDigit(s[0]);
    ScanUintDigits(s, 0);
    assert s[..0] == [];
  }

  // ---------------------------------------------------------------------
  // compareVersions

  /** The numeric value of segment `i`; a missing segment counts as 0. */
  function Segment(parts: seq<string>, i: nat): int
  {
    if i < |parts| then Atoi(parts[i]) else 0
  }

  function Max(a: int, b: int): int
  {
    if a >= b then a else b
  }

  /** The loop of `compareVersions` from segment `i` on: the first segment
      that differs decides, and equal segments to the end give 0. */
  function CompareFrom(p1: seq<string>, p2: seq<string>, i: nat): (c: int)
    ensures -1 <= c <= 1
    decreases Max(|p1|, |p2|) - i
  {
    if i >= Max(|p1|, |p2|) then 0
    else if Segment(p1, i) < Segment(p2, i) then -1
    else if Segment(p1, i) > Segment(p2, i) then 1
    else CompareFrom(p1, p2, i + 1)
  }

  /** `compareVersions(v1, v2)`: -1, 0 or 1 as `v1` is below, equal to or
      above `v2`, segment by segment. */
  function CompareVersions(v1: string, v2: string): (c: int)
    ensures -1 <= c <= 1
  {
    CompareFrom(SplitDot(v1), SplitDot(v2), 0)
  }

  /** Past the longer list the comparison is over; before it, one step of
      the loop. Either way: decide on segment `i`, or look further. */
  lemma CompareStep(p1: seq<string>, p2: seq<string>, i: nat)
    ensures CompareFrom(p1, p2, i) ==
      if Segment(p1, i) < Segment(p2, i) then -1
      else if Segment(p1, i) > Segment(p2, i) then 1
      else CompareFrom(p1, p2, i + 1)
  {
  }

  lemma {:induction false} CompareFromReflexive(p: seq<string>, i: nat)
    ensures CompareFrom(p, p, i) == 0
    decreases |p| - i
  {
    if i < |p| {
      CompareFromReflexive(p, i + 1);
    }
  }

  lemma {:induction false} CompareFromAntisymmetric(p1: seq<string>, p2: seq<string>, i: nat)
    ensures CompareFrom(p1, p2, i) == -CompareFrom(p2, p1, i)
    decreases Max(|p1|, |p2|) - i
  {
    if i < Max(|p1|, |p2|) {
      CompareFromAntisymmetric(p1, p2, i + 1);
    }
  }

  lemma {:induction false} CompareFromTransitive(p1: seq<string>, p2: seq<string>, p3: seq<string>, i: nat)
    requires CompareFrom(p1, p2, i) <= 0 && CompareFrom(p2, p3, i) <= 0
    ensures CompareFrom(p1, p3, i) <= 0
    decreases Max(Max(|p1|, |p2|), |p3|) - i
  {
    if i < Max(Max(|p1|, |p2|), |p3|) {
      CompareStep(p1, p2, i);
      CompareStep(p2, p3, i);
      CompareStep(p1, p3, i);
      if Segment(p1, i) == Segment(p2, i) && Segment(p2, i) == Segment(p3, i) {
        CompareFromTransitive(p1, p2, p3, i + 1);
      }
    }
  }

  /** Every version equals itself. */
  lemma CompareReflexive(v: string)
    ensures CompareVersions(v, v) == 0
  {
    CompareFromReflexive(SplitDot(v), 0);
  }

  /** Swapping the arguments negates the answer. */
  lemma CompareAntisymmetric(v1: string, v2: string)
    ensures CompareVersions(v1, v2) == -CompareVersions(v2, v1)
  {
    CompareFromAntisymmetric(SplitDot(v1), SplitDot(v2), 0);
  }

  /** "Not above" is transitive, so the order can sort. */
  lemma CompareTransitive(v1: string, v2: string, v3: string)
    requires CompareVersions(v1, v2) <= 0 && CompareVersions(v2, v3) <= 0
    ensures CompareVersions(v1, v3) <= 0
  {
    CompareFromTransitive(SplitDot(v1), SplitDot(v2), SplitDot(v3), 0);
  }

  /** Segments compare as numbers, not as text: `y.a` is below `y.b`
      exactly when `a < b` (so 2024.10 is above 2024.9 and 2024.1). */
  lemma MinorVersionsNumeric(y: nat, a: nat, b: nat)
    requires y <= MaxInt64 && a <= MaxInt64 && b <= MaxInt64
    ensures CompareVersions(Itoa(y) + "." + Itoa(a), Itoa(y) + "." + Itoa(b))
      == (if a < b then -1 else if a > b then 1 else 0)
  {
    NoDotInNumber(y);
    NoDotInNumber(a);
    NoDotInNumber(b);
    AtoiItoa(a);
    AtoiItoa(b);
    SecondSegmentDecides(Itoa(y), Itoa(a), Itoa(b));
  }

  /** Two versions with the same first segment compare as the numbers in
      their second segments. */
  lemma SecondSegmentDecides(u: string, s: string, t: string)
    requires '.' !in u && '.' !in s && '.' !in t
    ensures CompareVersions(u + "." + s, u + "." + t)
      == (if Atoi(s) < Atoi(t) then -1 else if Atoi(s) > Atoi(t) then 1 else 0)
  {
    SplitNoDot(u);
    SplitNoDot(s);
    SplitNoDot(t);
    SplitAtDot(u, s);
    SplitAtDot(u, t);
    var p1, p2 := [u, s], [u, t];
    assert SplitDot(u + "." + s) == [u] + [s] == p1;
    assert SplitDot(u + "." + t) == [u] + [t] == p2;
    assert Segment(p1, 1) == Atoi(s) && Segment(p2, 1) == Atoi(t);
    CompareStep(p1, p2, 0);
    CompareStep(p1, p2, 1);
    assert CompareFrom(p1, p2, 2) == 0;
  }

  /** A missing segment counts as 0: `y` and `y.0` are equal. */
  lemma MissingSegmentIsZero(y: nat)
    requires y <= MaxInt64
    ensures CompareVersions(Itoa(y), Itoa(y) + "." + Itoa(0)) == 0
  {
    NoDotInNumber(y);
    NoDotInNumber(0);
    AtoiItoa(0);
    ZeroSegmentAppended(Itoa(y), Itoa(0));
  }

  /** Appending a segment worth 0 leaves a version equal to itself. */
  lemma ZeroSegmentAppended(u: string, z: string)
    requires '.' !in u && '.' !in z && Atoi(z) == 0
    ensures CompareVersions(u, u + "." + z) == 0
  {
    SplitNoDot(u);
    SplitNoDot(z);
    SplitAtDot(u, z);
    var p1, p2 := [u], [u, z];
    assert SplitDot(u + "." + z) == [u] + [z] == p2;
    assert Segment(p1, 1) == 0 && Segment(p2, 1) == 0;
    CompareStep(p1, p2, 0);
    CompareStep(p1, p2, 1);
    assert CompareFrom(p1, p2, 2) == 0;
  }

  /** A segment that is not a number counts as 0 too. */
  lemma UnparsableSegmentIsZero(v: string, junk: string)
    requires '.' !in v && '.' !in junk && Atoi(v) == 0 && Atoi(junk) == 0
    ensures CompareVersions(v, junk) == 0
  {
    SplitNoDot(v);
    SplitNoDot(junk);
    CompareStep([v], [junk], 0);
  }

  lemma NoDotInNumber(n: nat)
    ensures '.' !in Itoa(n) && SplitDot(Itoa(n)) == [Itoa(n)]
  {
    var s := Itoa(n);
    forall k | 0 <= k < |s|
      ensures s[k] != '.'
    {
      assert IsDigit(s[k]);
    }
    SplitNoDot(s);
  }

  // ---------------------------------------------------------------------
  // versionDirPattern: ^([A-Za-z][A-Za-z0-9]*)(\d{4}\.\d+)$

  predicate IsLetter(c: char)
  {
    ('A' <= c <= 'Z') || ('a' <= c <= 'z')
  }

  predicate IsAlnum(c: char)
  {
    IsLetter(c) || IsDigit(c)
  }

  /** What the first group accepts: a letter, then letters and digits. */
  predicate ProductName(p: string)
  {
    |p| >= 1 && IsLetter(p[0]) && forall k :: 0 <= k < |p| ==> IsAlnum(p[k])
  }

  /** What the second group accepts: four digits, a dot, one or more digits. */
  predicate VersionText(v: string)
  {
    |v| >= 6 && AllDigits(v[..4]) && v[4] == '.' && AllDigits(v[5..])
  }

  /** How many digits end the string. */
  function TrailingDigits(s: string): (t: nat)
    ensures t <= |s|
    ensures forall k :: |s| - t <= k < |s| ==> IsDigit(s[k])
    ensures t < |s| ==> !IsDigit(s[|s| - t - 1])
  {
    if s != [] && IsDigit(s[|s| - 1]) then
      TrailingDigits(s[..|s| - 1]) + 1
    else 0
  }

  lemma {:induction false} TrailingDigitsAfter(x: string, tail: string)
    requires x != [] && !IsDigit(x[|x| - 1]) && AllDigits(tail)
    ensures TrailingDigits(x + tail) == |tail|
  {
    if tail == [] {
      assert x + tail == x;
    } else {
      assert (x + tail)[..|x + tail| - 1] == x + tail[..|tail| - 1];
      TrailingDigitsAfter(x, tail[..|tail| - 1]);
    }
  }

  /** `versionDirPattern.FindStringSubmatch(name)`: the product and the
      version, or nothing. The version is the trailing digits, the dot
      before them and the four characters before that; the product is all
      that precedes. */
  function MatchVersionDir(name: string): (r: Option<(string, string)>)
  {
    var t := TrailingDigits(name);
    var dot := |name| - t - 1;
    if t >= 1 && dot >= 5 && name[dot] == '.' && ProductName(name[..dot - 4]) && AllDigits(name[dot - 4..dot])
    then Some((name[..dot - 4], name[dot - 4..]))
    else None
  }

  /** What the pattern matches is a product name followed by a version,
      and its two groups are those parts. */
  lemma MatchVersionDirSound(name: string)
    ensures MatchVersionDir(name).Some? ==>
      var (p, v) := MatchVersionDir(name).value;
      name == p + v && ProductName(p) && VersionText(v)
  {
    var t := TrailingDigits(name);
    var dot := |name| - t - 1;
    if MatchVersionDir(name).Some? {
      var v := name[dot - 4..];
      assert v[..4] == name[dot - 4..dot];
      assert v[5..] == name[|name| - t..];
      assert name == name[..dot - 4] + v;
    }
  }

  /** Every product name followed by a version matches, with those groups. */
  lemma MatchVersionDirComplete(p: string, v: string)
    requires ProductName(p) && VersionText(v)
    ensures MatchVersionDir(p + v) == Some((p, v))
  {
    var name := p + v;
    var x := p + v[..5];
    assert name == x + v[5..];
    assert x[|x| - 1] == '.';
    TrailingDigitsAfter(x, v[5..]);
    var dot := |name| - TrailingDigits(name) - 1;
    assert dot == |p| + 4;
    assert name[dot] == '.';
    assert name[..dot - 4] == p;
    assert name[dot - 4..] == v;
    assert name[dot - 4..dot] == v[..4];
  }

  // ---------------------------------------------------------------------
  // One product's versions, sorted.

  /** A directory that matched the pattern. */
  datatype VersionDir = VersionDir(product: string, version: string, path: string)

  /** `x` is not above `y`. */
  predicate VersionLe(x: VersionDir, y: VersionDir)
  {
    CompareVersions(x.version, y.version) <= 0
  }

  predicate SortedByVersion(s: seq<VersionDir>)
  {
    forall i, j :: 0 <= i < j < |s| ==> VersionLe(s[i], s[j])
  }

  /** `sort.Slice(versions, func(i, j) { compareVersions(...) < 0 })`. */
  method SortVersions(a: array<VersionDir>)
    modifies a
    ensures SortedByVersion(a[..])
    ensures multiset(a[..]) == old(multiset(a[..]))
  {
    for i := 0 to a.Length
      invariant forall p, q :: 0 <= p < q < i ==> VersionLe(a[p], a[q])
      invariant multiset(a[..]) == old(multiset(a[..]))
    {
      InsertVersion(a, i);
    }
  }

  /** Moves `a[i]` down past every later version, after a sorted prefix. */
  method InsertVersion(a: array<VersionDir>, i: int)
    requires 0 <= i < a.Length
    requires forall p, q :: 0 <= p < q < i ==> VersionLe(a[p], a[q])
    modifies a
    ensures forall p, q :: 0 <= p < q <= i ==> VersionLe(a[p], a[q])
    ensures multiset(a[..]) == old(multiset(a[..]))
  {
    var j := i;
    while j > 0 && CompareVersions(a[j].version, a[j - 1].version) < 0
      invariant 0 <= j <= i
      invariant forall p, q :: 0 <= p < q <= i && p != j && q != j ==> VersionLe(a[p], a[q])
      invariant forall q :: j < q <= i ==> VersionLe(a[j], a[q])
      invariant multiset(a[..]) == old(multiset(a[..]))
    {
      SwapVersions(a, j, i);
      j := j - 1;
    }
    if j > 0 {
      SettledAt(a[..], j, i);
    }
  }

  /** Where the insertion stops, `s[j]` is not below `s[j-1]`, and so the
      whole prefix up to `i` is in order. */
  lemma SettledAt(s: seq<VersionDir>, j: int, i: int)
    requires 0 < j <= i < |s|
    requires CompareVersions(s[j].version, s[j - 1].version) >= 0
    requires forall p, q :: 0 <= p < q <= i && p != j && q != j ==> VersionLe(s[p], s[q])
    requires forall q :: j < q <= i ==> VersionLe(s[j], s[q])
    ensures forall p, q :: 0 <= p < q <= i ==> VersionLe(s[p], s[q])
  {
    CompareAntisymmetric(s[j].version, s[j - 1].version);
    forall p, q | 0 <= p < q <= i
      ensures VersionLe(s[p], s[q])
    {
      if q == j && p < j - 1 {
        CompareTransitive(s[p].version, s[j - 1].version, s[j].version);
      }
    }
  }

  /** One step of the insertion: `a[j]` is below `a[j-1]`, so they swap. */
  method SwapVersions(a: array<VersionDir>, j: int, i: int)
    requires 0 < j <= i < a.Length
    requires CompareVersions(a[j].version, a[j - 1].version) < 0
    requires forall p, q :: 0 <= p < q <= i && p != j && q != j ==> VersionLe(a[p], a[q])
    requires forall q :: j < q <= i ==> VersionLe(a[j], a[q])
    modifies a
    ensures multiset(a[..]) == old(multiset(a[..]))
    ensures forall p, q :: 0 <= p < q <= i && p != j - 1 && q != j - 1 ==> VersionLe(a[p], a[q])
    ensures forall q :: j - 1 < q <= i ==> VersionLe(a[j - 1], a[q])
  {
    var x, y := a[j - 1], a[j];
    a[j - 1], a[j] := y, x;
    forall q | j - 1 < q <= i
      ensures VersionLe(a[j - 1], a[q])
    {
      if q > j {
        CompareTransitive(y.version, x.version, a[q].version);
      }
    }
  }
}
