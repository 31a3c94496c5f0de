/** The two in-place sorts the program calls: `sort.Slice` over file listings
    by modification time (internal/cache/trimmer.go, internal/provider/file.go)
    and `sort.Strings` over provider names (internal/config/config.go). Both
    are insertion sorts by adjacent swaps; since `sort.Slice` is not stable,
    their contracts fix only sortedness and the multiset, never a tie order. */
module Sorting {
  import opened Scanner

  predicate SortedByModTime(s: seq<FileInfo>)
  {
    forall i, j :: 0 <= i < j < |s| ==> s[i].modTime <= s[j].modTime
  }

  /** `sort.Slice(files, func(i, j) { files[i].ModTime.Before(files[j].ModTime) })`. */
  method SortByModTime(a: array<FileInfo>)
    modifies a
    ensures SortedByModTime(a[..])
    ensures multiset(a[..]) == old(multiset(a[..]))
  {
    for i := 0 to a.Length
      invariant SortedByModTime(a[..i])
      invariant multiset(a[..]) == old(multiset(a[..]))
    {
      var j := i;
      while j > 0 && a[j].modTime < a[j - 1].modTime
        invariant 0 <= j <= i
        invariant forall p, q :: 0 <= p < q <= i && p != j && q != j ==> a[p].modTime <= a[q].modTime
        invariant forall q :: j < q <= i ==> a[j].modTime <= a[q].modTime
        invariant multiset(a[..]) == old(multiset(a[..]))
      {
        SwapEarlier(a, j, i);
        j := j - 1;
      }
    }
  }

  /** One step of the insertion: swap `a[j]` below `a[j-1]`, which is newer. */
  method SwapEarlier(a: array<FileInfo>, j: int, i: int)
    requires 0 < j <= i < a.Length
    requires a[j].modTime < a[j - 1].modTime
    requires forall p, q :: 0 <= p < q <= i && p != j && q != j ==> a[p].modTime <= a[q].modTime
    requires forall q :: j < q <= i ==> a[j].modTime <= a[q].modTime
    modifies a
    ensures multiset(a[..]) == old(multiset(a[..]))
    ensures forall p, q :: 0 <= p < q <= i && p != j - 1 && q != j - 1 ==> a[p].modTime <= a[q].modTime
    ensures forall q :: j - 1 < q <= i ==> a[j - 1].modTime <= a[q].modTime
  {
    a[j - 1], a[j] := a[j], a[j - 1];
  }

  /** Go's string order: byte-wise lexicographic on UTF-8, which is the
      code-point order on the characters. */
  predicate StrLess(a: string, b: string)
  {
    if a == [] then b != []
    else if b == [] then false
    else if a[0] != b[0] then a[0] < b[0]
    else StrLess(a[1..], b[1..])
  }

  lemma {:induction false} StrLessIrreflexive(a: string)
    ensures !StrLess(a, a)
  {
    if a != [] {
      StrLessIrreflexive(a[1..]);
    }
  }

  lemma {:induction false} StrLessTransitive(a: string, b: string, c: string)
    requires StrLess(a, b) && StrLess(b, c)
    ensures StrLess(a, c)
  {
    if a != [] && b != [] && c != [] && a[0] == b[0] && b[0] == c[0] {
      StrLessTransitive(a[1..], b[1..], c[1..]);
    }
  }

  lemma {:induction false} StrLessTotal(a: string, b: string)
    ensures a == b || StrLess(a, b) || StrLess(b, a)
    ensures !(StrLess(a, b) && StrLess(b, a))
  {
    if a != [] && b != [] && a[0] == b[0] {
      StrLessTotal(a[1..], b[1..]);
      if a[1..] == b[1..] {
        assert a == [a[0]] + a[1..] && b == [b[0]] + b[1..];
      }
    }
  }

  predicate StrictlySorted(s: seq<string>)
  {
    forall i, j :: 0 <= i < j < |s| ==> StrLess(s[i], s[j])
  }

  predicate SortedStrings(s: seq<string>)
  {
    forall i, j :: 0 <= i < j < |s| ==> !StrLess(s[j], s[i])
  }

  /** `sort.Strings`. */
  method SortStrings(a: array<string>)
    modifies a
    ensures SortedStrings(a[..])
    ensures multiset(a[..]) == old(multiset(a[..]))
  {
    for i := 0 to a.Length
      invariant SortedStrings(a[..i])
      invariant multiset(a[..]) == old(multiset(a[..]))
    {
      var j := i;
      while j > 0 && StrLess(a[j], a[j - 1])
        invariant 0 <= j <= i
        invariant forall p, q :: 0 <= p < q <= i && p != j && q != j ==> !StrLess(a[q], a[p])
        invariant forall q :: j < q <= i ==> !StrLess(a[q], a[j])
        invariant multiset(a[..]) == old(multiset(a[..]))
      {
        SwapDown(a, j, i);
        j := j - 1;
      }
      if j > 0 {
        forall p, q | 0 <= p < q <= i
          ensures !StrLess(a[q], a[p])
        {
          if q == j && p < j - 1 {
            StrLessTotal(a[j - 1], a[j]);
            if StrLess(a[j], a[p]) {
              StrLessTotal(a[p], a[j - 1]);
              if StrLess(a[j], a[j - 1]) {
              } else if a[j] == a[j - 1] {
              } else {
                StrLessTransitive(a[j - 1], a[j], a[p]);
              }
            }
          }
        }
      }
    }
  }

  /** One step of the insertion: swap `a[j]` below `a[j-1]`, which it precedes. */
  method SwapDown(a: array<string>, j: int, i: int)
    requires 0 < j <= i < a.Length
    requires StrLess(a[j], a[j - 1])
    requires forall p, q :: 0 <= p < q <= i && p != j && q != j ==> !StrLess(a[q], a[p])
    requires forall q :: j < q <= i ==> !StrLess(a[q], a[j])
    modifies a
    ensures multiset(a[..]) == old(multiset(a[..]))
    ensures forall p, q :: 0 <= p < q <= i && p != j - 1 && q != j - 1 ==> !StrLess(a[q], a[p])
    ensures forall q :: j - 1 < q <= i ==> !StrLess(a[q], a[j - 1])
  {
    var x, y := a[j - 1], a[j];
    StrLessTotal(x, y);
    a[j - 1], a[j] := y, x;
    forall q | j - 1 < q <= i
      ensures !StrLess(a[q], a[j - 1])
    {
      if q > j {
        StrLessTotal(a[q], y);
      }
    }
    forall p, q | 0 <= p < q <= i && p != j - 1 && q != j - 1
      ensures !StrLess(a[q], a[p])
    {
      if q == j {
        // a[q] is the old a[j - 1], which no earlier element exceeds.
      }
    }
  }
}
