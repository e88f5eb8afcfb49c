/**
  `qsort` of tcc_10/libc_min.c. The last element is the pivot; the second recursive call
  keeps the pivot and may be as long as the call itself, and an element equal to the pivot
  is counted into the left part without being moved there.
 */
module QuickSort {

  /** What C asks of a comparison function: the signs are those of a total preorder. */
  ghost predicate Preorder<T(!new)>(compare: (T, T) -> int) {
    && (forall x, y :: compare(x, y) < 0 <==> compare(y, x) > 0)
    && (forall x, y, z :: compare(x, y) <= 0 && compare(y, z) <= 0 ==> compare(x, z) <= 0)
  }

  ghost predicate Sorted<T>(s: seq<T>, compare: (T, T) -> int) {
    forall i, j :: 0 <= i < j < |s| ==> compare(s[i], s[j]) <= 0
  }

  /** No key occurs twice. */
  ghost predicate DistinctKeys<T(!new)>(m: multiset<T>, compare: (T, T) -> int) {
    && (forall x :: x in m ==> m[x] == 1)
    && (forall x, y :: x in m && y in m && x != y ==> compare(x, y) != 0)
  }

  /** Nothing greater than the last element precedes something equal to it. */
  ghost predicate Clean<T>(s: seq<T>, n: nat, compare: (T, T) -> int)
    requires n < |s|
  {
    forall x, y :: 0 <= x < y < n && compare(s[x], s[|s| - 1]) > 0 ==> compare(s[y], s[|s| - 1]) != 0
  }

  /** The last element is less than every other one. */
  ghost predicate LastLeast<T>(s: seq<T>, compare: (T, T) -> int) {
    s != [] && forall x :: 0 <= x < |s| - 1 ==> compare(s[x], s[|s| - 1]) > 0
  }

  /** Everything before place p is at most everything from p on. */
  ghost predicate Split<T>(s: seq<T>, p: nat, compare: (T, T) -> int) {
    p <= |s| && forall x, y :: 0 <= x < p <= y < |s| ==> compare(s[x], s[y]) <= 0
  }

  function Swapped<T>(s: seq<T>, i: nat, j: nat): (t: seq<T>)
    requires i < |s| && j < |s|
    ensures |t| == |s| && multiset(t) == multiset(s)
  {
    s[i := s[j]][j := s[i]]
  }

  /** The elements [lo, lo + n) of the array. */
  function Part<T>(a: array<T>, lo: nat, n: nat): (s: seq<T>)
    requires lo + n <= a.Length
    reads a
    ensures |s| == n && forall k :: 0 <= k < n ==> s[k] == a[lo + k]
  {
    a[lo..lo + n]
  }

  /** Only [lo, lo + n) has changed. */
  twostate predicate OnlyPart<T>(a: array<T>, lo: nat, n: nat)
    reads a
  {
    forall k :: 0 <= k < a.Length && !(lo <= k < lo + n) ==> a[k] == old(a[k])
  }

  /** The exchange byte by byte: two elements of the same size, or one with itself. */
  method SwapBytes<B>(mem: array<B>, a: nat, b: nat, size: nat)
    requires size > 0 && a + size <= mem.Length && b + size <= mem.Length
    requires a == b || a + size <= b || b + size <= a
    modifies mem
    ensures mem[a..a + size] == old(mem[b..b + size]) && mem[b..b + size] == old(mem[a..a + size])
    ensures forall k :: 0 <= k < mem.Length && !(a <= k < a + size) && !(b <= k < b + size) ==> mem[k] == old(mem[k])
  {
    var pa, pb, left := a, b, size;
    while left > 0
      invariant left <= size && pa == a + size - left && pb == b + size - left
      invariant forall k :: a <= k < pa ==> mem[k] == old(mem[k - a + b])
      invariant forall k :: b <= k < pb ==> mem[k] == old(mem[k - b + a])
      invariant forall k :: 0 <= k < mem.Length && !(a <= k < pa) && !(b <= k < pb) ==> mem[k] == old(mem[k])
    {
      var tmp := mem[pa];
      mem[pa] := mem[pb];
      mem[pb] := tmp;
      pa, pb := pa + 1, pb + 1;
      left := left - 1;
    }
  }

  method QSwap<T>(a: array<T>, lo: nat, ghost n: nat, i: nat, j: nat)
    requires lo + n <= a.Length && i < n && j < n
    modifies a
    ensures Part(a, lo, n) == Swapped(old(Part(a, lo, n)), i, j) && OnlyPart(a, lo, n)
  {
    a[lo + i], a[lo + j] := a[lo + j], a[lo + i];
  }

  lemma Transitive<T(!new)>(x: T, y: T, z: T, compare: (T, T) -> int)
    requires Preorder(compare) && compare(x, y) <= 0 && compare(y, z) <= 0
    ensures compare(x, z) <= 0
  {
  }

  lemma Signs<T(!new)>(x: T, y: T, compare: (T, T) -> int)
    requires Preorder(compare)
    ensures compare(x, y) < 0 <==> compare(y, x) > 0
    ensures compare(y, x) < 0 <==> compare(x, y) > 0
    ensures compare(x, x) == 0
  {
  }

  // ----- the partition -----

  /** The loop of `qpart` from element j on, with i elements counted into the left part. */
  function Scan<T>(now: seq<T>, i: nat, j: nat, compare: (T, T) -> int): (r: (seq<T>, nat))
    requires i <= j < |now|
    ensures |r.0| == |now| && r.1 < |now|
    decreases |now| - j
  {
    if j == |now| - 1 then (now, i)
    else
      var c := compare(now[j], now[|now| - 1]);
      if c < 0 then Scan(Swapped(now, i, j), i + 1, j + 1, compare)
      else Scan(now, if c == 0 then i + 1 else i, j + 1, compare)
  }

  /** What `qpart` makes of the elements, and the place that it returns. */
  function Parted<T>(s: seq<T>, compare: (T, T) -> int): (r: (seq<T>, nat))
    requires s != []
    ensures |r.0| == |s| && r.1 < |s|
  {
    var (now, i) := Scan(s, 0, 0, compare);
    (if compare(now[|s| - 1], now[i]) < 0 then Swapped(now, i, |s| - 1) else now, i)
  }

  method QPart<T>(a: array<T>, lo: nat, count: nat, compare: (T, T) -> int) returns (i: nat)
    requires lo + count < a.Length
    modifies a
    ensures OnlyPart(a, lo, count + 1)
    ensures (Part(a, lo, count + 1), i) == Parted(old(Part(a, lo, count + 1)), compare)
  {
    hide Part, Swapped, Scan;
    ghost var s := Part(a, lo, count + 1);
    i := 0;
    var j := 0;
    while j < count
      invariant i <= j <= count && OnlyPart(a, lo, count + 1)
      invariant Scan(Part(a, lo, count + 1), i, j, compare) == Scan(s, 0, 0, compare)
    {
      var c := compare(a[lo + j], a[lo + count]);
      ScanUnfold(Part(a, lo, count + 1), i, j, compare);
      if c < 0 {
        QSwap(a, lo, count + 1, i, j);
        i := i + 1;
      } else if c == 0 {
        i := i + 1;
      }
      j := j + 1;
    }
    ScanUnfold(Part(a, lo, count + 1), i, j, compare);
    if compare(a[lo + count], a[lo + i]) < 0 {
      QSwap(a, lo, count + 1, i, count);
    }
  }

  lemma ScanUnfold<T>(now: seq<T>, i: nat, j: nat, compare: (T, T) -> int)
    requires i <= j < |now|
    ensures Scan(now, i, j, compare) ==
      if j == |now| - 1 then (now, i)
      else
        var c := compare(now[j], now[|now| - 1]);
        if c < 0 then Scan(Swapped(now, i, j), i + 1, j + 1, compare)
        else Scan(now, if c == 0 then i + 1 else i, j + 1, compare)
  {
  }

  lemma SwappedAt<T>(s: seq<T>, i: nat, j: nat)
    requires i < |s| && j < |s|
    ensures forall k :: 0 <= k < |s| && k != i && k != j ==> Swapped(s, i, j)[k] == s[k]
  {
  }

  ghost predicate AllGreater<T>(s: seq<T>, j: nat, compare: (T, T) -> int)
    requires j < |s|
  {
    forall x :: 0 <= x < j ==> compare(s[x], s[|s| - 1]) > 0
  }

  lemma GreaterStep<T>(s: seq<T>, j: nat, compare: (T, T) -> int)
    requires j + 1 < |s|
    ensures AllGreater(s, j + 1, compare) <==> AllGreater(s, j, compare) && compare(s[j], s[|s| - 1]) > 0
  {
  }

  /** After j elements: parted around the pivot while it is clean, and broken for good after that. */
  ghost predicate Scanned<T>(now: seq<T>, s: seq<T>, i: nat, j: nat, compare: (T, T) -> int)
    requires i <= j < |now| == |s|
  {
    var pivot := s[|s| - 1];
    if Clean(s, j, compare) then
      && (forall x :: 0 <= x < i ==> compare(now[x], pivot) <= 0)
      && (forall x :: i <= x < j ==> compare(now[x], pivot) > 0)
      && (i < j <==> SomeGreater(s, j, compare))
    else
      SomeGreater(now[..i] + [pivot], i, compare)
  }

  ghost predicate SomeGreater<T>(s: seq<T>, j: nat, compare: (T, T) -> int)
    requires j < |s|
  {
    exists x :: 0 <= x < j && compare(s[x], s[|s| - 1]) > 0
  }

  lemma ScanStart<T>(s: seq<T>, compare: (T, T) -> int)
    requires s != []
    ensures Scanned(s, s, 0, 0, compare) && AllGreater(s, 0, compare)
  {
  }

  lemma CleanStep<T>(s: seq<T>, j: nat, compare: (T, T) -> int)
    requires j + 1 < |s|
    ensures Clean(s, j + 1, compare) <==>
      Clean(s, j, compare) && !(SomeGreater(s, j, compare) && compare(s[j], s[|s| - 1]) == 0)
    ensures SomeGreater(s, j + 1, compare) <==> SomeGreater(s, j, compare) || compare(s[j], s[|s| - 1]) > 0
  {
    var pivot := s[|s| - 1];
    if SomeGreater(s, j, compare) && compare(s[j], pivot) == 0 {
      var x :| 0 <= x < j && compare(s[x], pivot) > 0;
      assert compare(s[x], pivot) > 0 && compare(s[j], pivot) == 0;
    }
  }

  /** One element of the scan, in each of the three cases. */
  lemma ScanStep<T>(now: seq<T>, s: seq<T>, i: nat, j: nat, compare: (T, T) -> int)
    requires i <= j < |s| - 1 && |now| == |s|
    requires Scanned(now, s, i, j, compare) && now[j] == s[j]
    ensures var c := compare(s[j], s[|s| - 1]);
      && (c < 0 ==> Scanned(Swapped(now, i, j), s, i + 1, j + 1, compare))
      && (c == 0 ==> Scanned(now, s, i + 1, j + 1, compare))
      && (c > 0 ==> Scanned(now, s, i, j + 1, compare))
  {
    hide Clean;
    var pivot, c := s[|s| - 1], compare(s[j], s[|s| - 1]);
    CleanStep(s, j, compare);
    if !Clean(s, j, compare) {
      var x :| 0 <= x < i && compare((now[..i] + [pivot])[x], pivot) > 0;
      StillGreater(now, i, x, pivot, compare);
      if c < 0 { StillGreater(Swapped(now, i, j), i + 1, x, pivot, compare); }
      if c == 0 { StillGreater(now, i + 1, x, pivot, compare); }
    } else if c == 0 && i < j {
      StillGreater(now, i + 1, i, pivot, compare);
    }
  }

  lemma StillGreater<T>(now: seq<T>, i: nat, x: nat, pivot: T, compare: (T, T) -> int)
    requires x < i <= |now| && compare(now[x], pivot) > 0
    ensures SomeGreater(now[..i] + [pivot], i, compare)
  {
    assert (now[..i] + [pivot])[x] == now[x];
  }

  lemma ScanEnd<T(!new)>(now: seq<T>, s: seq<T>, i: nat, compare: (T, T) -> int)
    requires Preorder(compare) && i < |s| == |now| && now[|s| - 1] == s[|s| - 1]
    requires Scanned(now, s, i, |s| - 1, compare)
    requires i == 0 <==> AllGreater(s, |s| - 1, compare)
    ensures var n := |s| - 1; var end := if compare(now[n], now[i]) < 0 then Swapped(now, i, n) else now;
      && (Split(end, i, compare) <==> Clean(s, n, compare))
      && (i == 0 && n > 0 ==> !LastLeast(end, compare))
      && (i == 0 <==> n == 0 || LastLeast(s, compare))
  {
    hide Preorder, Clean;
    var n, pivot := |s| - 1, s[|s| - 1];
    var end := if compare(now[n], now[i]) < 0 then Swapped(now, i, n) else now;
    Signs(pivot, now[i], compare);
    if Clean(s, n, compare) {
      forall x, y | 0 <= x < i <= y < |end| ensures compare(end[x], end[y]) <= 0 {
        Signs(end[y], pivot, compare);
        Transitive(end[x], pivot, end[y], compare);
      }
      if i == 0 && n > 0 { Signs(end[0], end[n], compare); }
    } else {
      var x :| 0 <= x < i && compare((now[..i] + [pivot])[x], pivot) > 0;
      var y := if compare(now[n], now[i]) < 0 then i else n;
      assert end[x] == now[x] && end[y] == pivot;
      assert compare(end[x], end[y]) > 0;
    }
  }

  /** The loop from a state that is scanned up to j. */
  lemma {:induction false} ScanFacts<T>(now: seq<T>, s: seq<T>, i: nat, j: nat, compare: (T, T) -> int)
    requires i <= j < |s| == |now| && multiset(now) == multiset(s)
    requires forall k :: j <= k < |s| ==> now[k] == s[k]
    requires Scanned(now, s, i, j, compare) && (i == 0 <==> AllGreater(s, j, compare))
    ensures var (end, p) := Scan(now, i, j, compare);
      && multiset(end) == multiset(s) && end[|s| - 1] == s[|s| - 1]
      && Scanned(end, s, p, |s| - 1, compare) && (p == 0 <==> AllGreater(s, |s| - 1, compare))
    decreases |s| - j
  {
    hide Scanned, AllGreater, Swapped;
    if j < |s| - 1 {
      ScanStep(now, s, i, j, compare);
      GreaterStep(s, j, compare);
      var c := compare(s[j], s[|s| - 1]);
      if c < 0 {
        SwappedAt(now, i, j);
        ScanFacts(Swapped(now, i, j), s, i + 1, j + 1, compare);
      } else {
        ScanFacts(now, s, if c == 0 then i + 1 else i, j + 1, compare);
      }
    }
  }

  /**
    The parts are split exactly when the elements are clean, and the left one is empty exactly
    when the pivot is the least of all, which then comes first.
   */
  lemma PartedFacts<T(!new)>(s: seq<T>, compare: (T, T) -> int)
    requires Preorder(compare) && |s| > 1
    ensures var (t, p) := Parted(s, compare);
      && multiset(t) == multiset(s)
      && (Split(t, p, compare) <==> Clean(s, |s| - 1, compare))
      && (p == 0 <==> LastLeast(s, compare))
      && (p == 0 ==> !LastLeast(t, compare))
  {
    hide Preorder, Clean, Split, LastLeast, Scanned, AllGreater, Scan;
    ScanStart(s, compare);
    ScanFacts(s, s, 0, 0, compare);
    var (now, i) := Scan(s, 0, 0, compare);
    ScanEnd(now, s, i, compare);
  }

  // ----- the sort -----

  /** What `qsort` makes of the elements. The recursion ends although the right part may be everything. */
  ghost function Sorting<T(!new)>(s: seq<T>, compare: (T, T) -> int): (t: seq<T>)
    requires Preorder(compare)
    decreases |s|, if LastLeast(s, compare) then 1 else 0
  {
    if |s| <= 1 then s
    else
      PartedFacts(s, compare);
      var (t, p) := Parted(s, compare);
      assert p == 0 ==> t[p..] == t;
      Sorting(t[..p], compare) + Sorting(t[p..], compare)
  }

  /** In no call of the recursion does an element greater than the pivot precede one equal to it. */
  ghost predicate CleanThroughout<T(!new)>(s: seq<T>, compare: (T, T) -> int)
    requires Preorder(compare)
    decreases |s|, if LastLeast(s, compare) then 1 else 0
  {
    |s| <= 1 ||
      (PartedFacts(s, compare);
      var (t, p) := Parted(s, compare);
      assert p == 0 ==> t[p..] == t;
      Clean(s, |s| - 1, compare) && CleanThroughout(t[..p], compare) && CleanThroughout(t[p..], compare))
  }

  method QSort<T(!new)>(a: array<T>, lo: nat, count: nat, compare: (T, T) -> int)
    requires lo + count <= a.Length && Preorder(compare)
    modifies a
    ensures OnlyPart(a, lo, count)
    ensures Part(a, lo, count) == Sorting(old(Part(a, lo, count)), compare)
    decreases count, if LastLeast(Part(a, lo, count), compare) then 1 else 0
  {
    hide Preorder, LastLeast, Part, Parted, Split, Clean;
    if count > 1 {
      ghost var s := Part(a, lo, count);
      PartedFacts(s, compare);
      var p := QPart(a, lo, count - 1, compare);
      ghost var t := Part(a, lo, count);
      PartSplit(a, lo, count, p);
      QSort(a, lo, p, compare);
      ghost var u := Part(a, lo, count);
      PartSplit(a, lo, count, p);
      SameTail(u, t, p);
      QSort(a, lo + p, count - p, compare);
      ghost var v := Part(a, lo, count);
      PartSplit(a, lo, count, p);
      SameHead(v, u, p);
      assert v == v[..p] + v[p..];
    }
  }

  lemma SameTail<T>(u: seq<T>, t: seq<T>, p: nat)
    requires p <= |u| == |t| && forall k :: p <= k < |u| ==> u[k] == t[k]
    ensures u[p..] == t[p..]
  {
  }

  lemma SameHead<T>(u: seq<T>, t: seq<T>, p: nat)
    requires p <= |u| == |t| && forall k :: 0 <= k < p ==> u[k] == t[k]
    ensures u[..p] == t[..p]
  {
  }

  lemma PartSplit<T>(a: array<T>, lo: nat, n: nat, p: nat)
    requires lo + n <= a.Length && p <= n
    ensures Part(a, lo, p) == Part(a, lo, n)[..p] && Part(a, lo + p, n - p) == Part(a, lo, n)[p..]
  {
  }

  lemma {:induction false} SortingPermutes<T(!new)>(s: seq<T>, compare: (T, T) -> int)
    requires Preorder(compare)
    ensures multiset(Sorting(s, compare)) == multiset(s)
    decreases |s|, if LastLeast(s, compare) then 1 else 0
  {
    hide Preorder, Parted, Split, Clean, LastLeast;
    if |s| > 1 {
      PartedFacts(s, compare);
      var (t, p) := Parted(s, compare);
      assert t == t[..p] + t[p..];
      assert p == 0 ==> t[p..] == t;
      SortingPermutes(t[..p], compare);
      SortingPermutes(t[p..], compare);
    }
  }

  /** The result is sorted exactly if every call is clean. */
  lemma {:induction false} SortedExactly<T(!new)>(s: seq<T>, compare: (T, T) -> int)
    requires Preorder(compare)
    ensures Sorted(Sorting(s, compare), compare) <==> CleanThroughout(s, compare)
    decreases |s|, if LastLeast(s, compare) then 1 else 0
  {
    hide Preorder, Parted, Split, Clean, LastLeast;
    if |s| > 1 {
      PartedFacts(s, compare);
      var (t, p) := Parted(s, compare);
      assert p == 0 ==> t[p..] == t;
      SortedExactly(t[..p], compare);
      SortedExactly(t[p..], compare);
      SortingPermutes(t[..p], compare);
      SortingPermutes(t[p..], compare);
      JoinedSorted(t[..p], t[p..], Sorting(t[..p], compare), Sorting(t[p..], compare), compare);
      assert t == t[..p] + t[p..];
    }
  }

  /** An input with a greater element before one equal to the last is never sorted. */
  lemma UncleanUnsorted<T(!new)>(s: seq<T>, compare: (T, T) -> int)
    requires Preorder(compare) && |s| > 1 && !Clean(s, |s| - 1, compare)
    ensures !Sorted(Sorting(s, compare), compare)
  {
    hide Sorted, Sorting, Clean;
    SortedExactly(s, compare);
  }

  /** Permuted halves are sorted together exactly if each is and they were split. */
  lemma JoinedSorted<T(!new)>(a: seq<T>, b: seq<T>, c: seq<T>, d: seq<T>, compare: (T, T) -> int)
    requires multiset(a) == multiset(c) && multiset(b) == multiset(d)
    ensures Sorted(c + d, compare) <==> Sorted(c, compare) && Sorted(d, compare) && Split(a + b, |a|, compare)
  {
    hide Sorted, Split;
    assert |multiset(a)| == |multiset(c)| && |multiset(b)| == |multiset(d)|;
    var v := c + d;
    assert v[..|c|] == c && v[|c|..] == d;
    assert (a + b)[..|a|] == a && (a + b)[|a|..] == b;
    SplitOneWay(a + b, v, |a|, compare);
    SplitOneWay(v, a + b, |a|, compare);
    SortedParts(v, |c|, compare);
    if Sorted(c, compare) && Sorted(d, compare) && Split(v, |c|, compare) { SortedJoin(v, |c|, compare); }
  }

  lemma SortedParts<T>(v: seq<T>, p: nat, compare: (T, T) -> int)
    requires p <= |v|
    ensures Sorted(v, compare) ==> Sorted(v[..p], compare) && Sorted(v[p..], compare) && Split(v, p, compare)
  {
  }

  // ----- inputs that are sorted -----

  /** Nothing greater stands before place j, nothing less behind place i. */
  ghost predicate InPlace<T>(s: seq<T>, i: nat, j: nat, compare: (T, T) -> int)
    requires i < |s| && j < |s|
  {
    && (forall k :: 0 <= k < j ==> compare(s[k], s[j]) <= 0)
    && (forall k :: i < k < |s| ==> compare(s[i], s[k]) <= 0)
  }

  ghost predicate Greatest<T>(s: seq<T>, i: nat, compare: (T, T) -> int)
    requires i < |s|
  {
    forall k :: 0 <= k < |s| ==> compare(s[k], s[i]) <= 0
  }

  /** A key that occurs twice is the greatest one, or its occurrences stand where they belong. */
  ghost predicate RepeatsInPlace<T>(s: seq<T>, compare: (T, T) -> int) {
    forall i, j :: 0 <= i < j < |s| && compare(s[i], s[j]) == 0 ==> Greatest(s, i, compare) || InPlace(s, i, j, compare)
  }

  lemma RepeatsClean<T(!new)>(s: seq<T>, compare: (T, T) -> int)
    requires Preorder(compare) && s != [] && RepeatsInPlace(s, compare)
    ensures Clean(s, |s| - 1, compare)
  {
    hide Preorder;
    var n := |s| - 1;
    forall x, y | 0 <= x < y < n && compare(s[x], s[n]) > 0 ensures compare(s[y], s[n]) != 0 {
      if compare(s[y], s[n]) == 0 && Greatest(s, y, compare) { Transitive(s[x], s[y], s[n], compare); }
    }
  }

  /** The elements that are at most the pivot, in order. */
  function AtMost<T>(s: seq<T>, pivot: T, compare: (T, T) -> int): (r: seq<T>)
    ensures |r| <= |s|
  {
    if s == [] then []
    else AtMost(s[..|s| - 1], pivot, compare) + if compare(s[|s| - 1], pivot) <= 0 then [s[|s| - 1]] else []
  }

  /** Where the i-th of them comes from. */
  function Origin<T>(s: seq<T>, pivot: T, compare: (T, T) -> int, i: nat): (k: nat)
    requires i < |AtMost(s, pivot, compare)|
    ensures k < |s| && s[k] == AtMost(s, pivot, compare)[i]
  {
    var r := s[..|s| - 1];
    if i < |AtMost(r, pivot, compare)| then Origin(r, pivot, compare, i) else |s| - 1
  }

  lemma {:induction false} OriginRises<T>(s: seq<T>, pivot: T, compare: (T, T) -> int, i: nat, j: nat)
    requires i < j < |AtMost(s, pivot, compare)|
    ensures Origin(s, pivot, compare, i) < Origin(s, pivot, compare, j)
  {
    var r := s[..|s| - 1];
    if j < |AtMost(r, pivot, compare)| { OriginRises(r, pivot, compare, i, j); }
  }

  /** While the elements are clean, the left part keeps its order. */
  lemma {:induction false} ScanLeft<T>(now: seq<T>, s: seq<T>, i: nat, j: nat, compare: (T, T) -> int)
    requires i <= j < |s| == |now| && now[|s| - 1] == s[|s| - 1] && Clean(s, |s| - 1, compare)
    requires forall k :: j <= k < |s| ==> now[k] == s[k]
    requires Scanned(now, s, i, j, compare) && now[..i] == AtMost(s[..j], s[|s| - 1], compare)
    ensures var (end, p) := Scan(now, i, j, compare); end[..p] == AtMost(s[..|s| - 1], s[|s| - 1], compare)
    decreases |s| - j
  {
    hide Scanned, Clean, Swapped;
    if j < |s| - 1 {
      var c, pivot := compare(s[j], s[|s| - 1]), s[|s| - 1];
      assert s[..j + 1][..j] == s[..j];
      ScanStep(now, s, i, j, compare);
      if c < 0 {
        SwappedAt(now, i, j);
        SwappedLeft(now, i, j);
        ScanLeft(Swapped(now, i, j), s, i + 1, j + 1, compare);
      } else if c == 0 {
        NoneGreater(now, s, i, j, compare);
        assert now[..i + 1] == now[..i] + [s[j]];
        ScanLeft(now, s, i + 1, j + 1, compare);
      } else {
        ScanLeft(now, s, i, j + 1, compare);
      }
    }
  }

  lemma SwappedLeft<T>(now: seq<T>, i: nat, j: nat)
    requires i <= j < |now|
    ensures Swapped(now, i, j)[..i + 1] == now[..i] + [now[j]]
  {
  }

  lemma NoneGreater<T>(now: seq<T>, s: seq<T>, i: nat, j: nat, compare: (T, T) -> int)
    requires i <= j < |s| - 1 && |now| == |s| && Scanned(now, s, i, j, compare) && Clean(s, |s| - 1, compare)
    requires compare(s[j], s[|s| - 1]) == 0
    ensures i == j
  {
    assert Clean(s, j, compare) && !SomeGreater(s, j, compare);
  }

  /** A clean partition: the elements at most the pivot in order, the pivot, and greater ones. */
  lemma PartedClean<T(!new)>(s: seq<T>, compare: (T, T) -> int)
    requires Preorder(compare) && |s| > 1 && Clean(s, |s| - 1, compare)
    ensures var (t, p) := Parted(s, compare);
      && t[..p] == AtMost(s[..|s| - 1], s[|s| - 1], compare) && t[p] == s[|s| - 1]
      && forall k :: p < k < |s| ==> compare(t[k], s[|s| - 1]) > 0
  {
    hide Preorder, Clean, AllGreater, Scan;
    var n := |s| - 1;
    ScanStart(s, compare);
    assert s[..0] == [];
    ScanFacts(s, s, 0, 0, compare);
    ScanLeft(s, s, 0, 0, compare);
    var (now, i) := Scan(s, 0, 0, compare);
    Signs(s[n], now[i], compare);
    Signs(s[n], s[n], compare);
    assert forall x :: i <= x < n ==> compare(now[x], s[n]) > 0;
  }

  lemma LeftRepeats<T(!new)>(s: seq<T>, compare: (T, T) -> int)
    requires s != [] && RepeatsInPlace(s, compare)
    ensures RepeatsInPlace(AtMost(s[..|s| - 1], s[|s| - 1], compare), compare)
  {
    hide AtMost, Origin;
    var r, pivot := s[..|s| - 1], s[|s| - 1];
    var left := AtMost(r, pivot, compare);
    forall i, j | 0 <= i < j < |left| && compare(left[i], left[j]) == 0
      ensures Greatest(left, i, compare) || InPlace(left, i, j, compare)
    {
      var a, b := Origin(r, pivot, compare, i), Origin(r, pivot, compare, j);
      OriginRises(r, pivot, compare, i, j);
      assert s[a] == left[i] && s[b] == left[j];
      forall k | 0 <= k < |left|
        ensures Greatest(s, a, compare) ==> compare(left[k], left[i]) <= 0
        ensures InPlace(s, a, b, compare) && k < j ==> compare(left[k], left[j]) <= 0
        ensures InPlace(s, a, b, compare) && k > i ==> compare(left[i], left[k]) <= 0
      {
        var c := Origin(r, pivot, compare, k);
        assert s[c] == left[k];
        if k < j { OriginRises(r, pivot, compare, k, j); }
        if k > i { OriginRises(r, pivot, compare, i, k); }
      }
    }
  }

  /** Two places of a permutation come from two places. */
  lemma TwoPlaces<T>(s: seq<T>, t: seq<T>, i: nat, j: nat) returns (a: nat, b: nat)
    requires multiset(s) == multiset(t) && i < j < |t|
    ensures a < b < |s| && ((s[a] == t[i] && s[b] == t[j]) || (s[a] == t[j] && s[b] == t[i]))
  {
    assert t[i] in multiset(t) && t[j] in multiset(t);
    var c :| 0 <= c < |s| && s[c] == t[i];
    var d;
    if t[i] != t[j] {
      d :| 0 <= d < |s| && s[d] == t[j];
    } else {
      Twice(t, i, j);
      d := Another(s, c);
    }
    a, b := if c < d then c else d, if c < d then d else c;
  }

  lemma Twice<T>(t: seq<T>, i: nat, j: nat)
    requires i < j < |t| && t[i] == t[j]
    ensures multiset(t)[t[i]] >= 2
  {
    assert t == t[..j] + t[j..] && t[..j][i] == t[i] && t[j..][0] == t[j];
    assert t[i] in multiset(t[..j]) && t[i] in multiset(t[j..]);
  }

  lemma Another<T>(s: seq<T>, c: nat) returns (d: nat)
    requires c < |s| && multiset(s)[s[c]] >= 2
    ensures d < |s| && d != c && s[d] == s[c]
  {
    assert s == s[..c] + [s[c]] + s[c + 1..];
    assert s[c] in multiset(s[..c]) || s[c] in multiset(s[c + 1..]);
    if s[c] in s[..c] {
      d :| 0 <= d < c && s[..c][d] == s[c];
    } else {
      var e :| 0 <= e < |s[c + 1..]| && s[c + 1..][e] == s[c];
      d := c + 1 + e;
    }
  }

  /** Behind the pivot only the greatest key can repeat. */
  lemma RightRepeats<T(!new)>(s: seq<T>, t: seq<T>, p: nat, compare: (T, T) -> int)
    requires Preorder(compare) && RepeatsInPlace(s, compare) && multiset(s) == multiset(t) && p < |t| == |s|
    requires t[p] == s[|s| - 1] && forall k :: p < k < |s| ==> compare(t[k], s[|s| - 1]) > 0
    ensures RepeatsInPlace(t[p..], compare)
  {
    hide Preorder;
    var right, n := t[p..], |s| - 1;
    forall i, j | 0 <= i < j < |right| && compare(right[i], right[j]) == 0 ensures Greatest(right, i, compare) {
      Signs(right[i], right[j], compare);
      Signs(t[p + i], s[n], compare);
      var a, b := TwoPlaces(s, t, p + i, p + j);
      Signs(s[a], s[b], compare);
      Signs(s[a], s[n], compare);
      assert i > 0 && compare(s[a], s[n]) > 0 && compare(s[b], s[n]) > 0;
      Signs(s[n], s[n], compare);
      assert b != n && !InPlace(s, a, b, compare);
      forall k | 0 <= k < |right| ensures compare(right[k], right[i]) <= 0 {
        assert right[k] in multiset(t);
        var c :| 0 <= c < |s| && s[c] == right[k];
        assert compare(s[c], s[a]) <= 0;
        Transitive(s[c], s[a], right[i], compare);
      }
    }
  }

  /** Inputs whose repeated keys are the greatest one or stand where they belong are sorted. */
  lemma {:induction false} RepeatsSorted<T(!new)>(s: seq<T>, compare: (T, T) -> int)
    requires Preorder(compare) && RepeatsInPlace(s, compare)
    ensures CleanThroughout(s, compare) && Sorted(Sorting(s, compare), compare)
    decreases |s|, if LastLeast(s, compare) then 1 else 0
  {
    hide Preorder, Parted, Split, Clean, LastLeast, RepeatsInPlace, Sorting, Sorted, AtMost;
    if |s| > 1 {
      PartedFacts(s, compare);
      var (t, p) := Parted(s, compare);
      RepeatsClean(s, compare);
      PartedClean(s, compare);
      LeftRepeats(s, compare);
      RightRepeats(s, t, p, compare);
      assert p == 0 ==> t[p..] == t;
      RepeatsSorted(t[..p], compare);
      RepeatsSorted(t[p..], compare);
    }
    SortedExactly(s, compare);
  }

  /** Distinct keys are always sorted, and so is what is sorted already, with any keys. */
  lemma DistinctSorted<T(!new)>(s: seq<T>, compare: (T, T) -> int)
    requires Preorder(compare) && (DistinctKeys(multiset(s), compare) || Sorted(s, compare))
    ensures RepeatsInPlace(s, compare) && Sorted(Sorting(s, compare), compare)
  {
    hide Preorder, CleanThroughout, Sorting;
    forall i, j | 0 <= i < j < |s| && compare(s[i], s[j]) == 0 ensures InPlace(s, i, j, compare) {
      if DistinctKeys(multiset(s), compare) { DistinctPlaces(s, i, j, compare); }
    }
    RepeatsSorted(s, compare);
  }

  lemma DistinctPlaces<T(!new)>(s: seq<T>, i: nat, j: nat, compare: (T, T) -> int)
    requires i < j < |s| && DistinctKeys(multiset(s), compare)
    ensures compare(s[i], s[j]) != 0
  {
    assert s[i] in multiset(s) && s[j] in multiset(s);
    if s[i] == s[j] { Twice(s, i, j); }
  }

  lemma SortedJoin<T>(v: seq<T>, p: nat, compare: (T, T) -> int)
    requires p <= |v| && Split(v, p, compare) && Sorted(v[..p], compare) && Sorted(v[p..], compare)
    ensures Sorted(v, compare)
  {
    forall x, y | 0 <= x < y < |v| ensures compare(v[x], v[y]) <= 0 {
      if y < p {
        assert v[x] == v[..p][x] && v[y] == v[..p][y];
      } else if p <= x {
        assert v[x] == v[p..][x - p] && v[y] == v[p..][y - p];
      }
    }
  }

  lemma SplitOneWay<T(!new)>(t: seq<T>, v: seq<T>, p: nat, compare: (T, T) -> int)
    requires p <= |t| == |v|
    requires multiset(t[..p]) == multiset(v[..p]) && multiset(t[p..]) == multiset(v[p..])
    ensures Split(t, p, compare) ==> Split(v, p, compare)
  {
    if Split(t, p, compare) {
      forall x, y | 0 <= x < p <= y < |v| ensures compare(v[x], v[y]) <= 0 {
        assert v[..p][x] in multiset(t[..p]) && v[p..][y - p] in multiset(t[p..]);
        var i :| 0 <= i < p && t[..p][i] == v[x];
        var j :| 0 <= j < |t| - p && t[p..][j] == v[y];
        assert t[i] == v[x] && t[p + j] == v[y];
      }
    }
  }

  function ByValue(): (int, int) -> int { (x, y) => x - y }

  /** Three elements that are not sorted: the key 5 occurs twice, after a greater one. */
  lemma UnsortedExample()
    ensures Preorder(ByValue()) && !Sorted(Sorting([9, 5, 5], ByValue()), ByValue())
  {
    var s := [9, 5, 5];
    assert s[0] == 9 && s[1] == 5 && s[2] == 5;
    assert ByValue()(s[0], s[2]) > 0 && ByValue()(s[1], s[2]) == 0;
    assert !Clean(s, 2, ByValue());
    SortedExactly(s, ByValue());
  }
}
