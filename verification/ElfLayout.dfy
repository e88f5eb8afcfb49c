/**
  The layout and the write loop of `tcc_output_file` in tcc_10/tccelf.c: sections are
  ordered by segment and kind, each gets a file offset and an address, and the file is
  written by appending them in that order.
 */
module ElfAlign {
  import opened M2Word
  import opened DoubleWord

  /** `(x + a - 1) & ~(a - 1)` on words. */
  function AlignUp(x: nat, a: nat): nat
    requires a > 0
  {
    var y := (x + a - 1) % B;
    Bits(LAnd, y, (B - a) % B, 32)
  }

  predicate IsPower(a: nat) { exists k :: 0 <= k < 32 && a == Pow2(k) }

  /** Clearing the low k bits with a mask. */
  lemma {:induction false} MaskLow(y: nat, k: nat, n: nat)
    requires k <= n && y < Pow2(n)
    ensures Pow2(k) <= Pow2(n)
    ensures Bits(LAnd, y, Pow2(n) - Pow2(k), n) == y - y % Pow2(k)
  {
    hide Pow2, Bits;
    PowMonotone(k, n);
    if k > 0 {
      PowStep(k);
      PowStep(n);
      PowMonotone(k - 1, n - 1);
      MaskLow(y / 2, k - 1, n - 1);
      MaskStep(y, Pow2(k - 1));
      AndEven(y, Pow2(n - 1) - Pow2(k - 1), n);
    } else {
      PowZero();
      MaskAll(y, n);
    }
  }

  lemma MaskStep(y: nat, p: nat)
    requires p > 0
    ensures 2 * (y / 2 - y / 2 % p) == y - y % (2 * p)
  {
    HalfMod(y, p);
  }

  lemma AndEven(y: nat, m: nat, n: nat)
    requires n > 0
    ensures Bits(LAnd, y, 2 * m, n) == 2 * Bits(LAnd, y / 2, m, n - 1)
  {
    assert (2 * m) % 2 == 0 && (2 * m) / 2 == m;
  }

  lemma HalfMod(y: nat, p: nat)
    requires p > 0
    ensures y % (2 * p) == 2 * (y / 2 % p) + y % 2
  {
    var q, r := y / 2 / p, y / 2 % p;
    assert y / 2 == p * q + r;
    assert y == (2 * p) * q + (2 * r + y % 2) by { assert 2 * (p * q) == (2 * p) * q; }
    Remainder(y, 2 * p, q, 2 * r + y % 2);
  }

  lemma Remainder(y: nat, m: nat, q: nat, r: nat)
    requires y == m * q + r && r < m
    ensures y % m == r
  {
    var x: int := y / m - q;
    assert y == m * (y / m) + y % m;
    assert m * x == r - y % m by { assert m * (y / m) - m * q == m * x; }
    if x > 0 { MulMonotone(1, x, m); }
    if x < 0 { MulMonotone(1, -x, m); }
  }

  lemma {:induction false} MaskAll(y: nat, n: nat)
    requires y < Pow2(n)
    ensures Bits(LAnd, y, Pow2(n) - 1, n) == y
  {
    if n > 0 {
      assert (Pow2(n) - 1) % 2 == 1 && (Pow2(n) - 1) / 2 == Pow2(n - 1) - 1;
      MaskAll(y / 2, n - 1);
    }
  }

  lemma PowerFour()
    ensures IsPower(4)
  {
    assert Pow2(2) == 4;
  }

  /** For a power of two the mask rounds up. */
  lemma AlignUpRounds(x: nat, a: nat)
    requires IsPower(a) && x + a <= B
    ensures a > 0 && AlignUp(x, a) == x + a - 1 - (x + a - 1) % a
  {
    hide Pow2, Bits;
    var k :| 0 <= k < 32 && a == Pow2(k);
    PowerOfTwo32();
    MaskLow(x + a - 1, k, 32);
  }

  /** The least multiple that is not below x. */
  lemma AlignUpLeast(x: nat, a: nat)
    requires IsPower(a) && x + a <= B
    ensures a > 0 && x <= AlignUp(x, a) < x + a && AlignUp(x, a) % a == 0
  {
    hide Pow2, Bits;
    AlignUpRounds(x, a);
    Rounded(x + a - 1, a);
  }

  /** The same on unbounded numbers. */
  function RoundUp(x: nat, a: nat): nat
    requires a > 0
  {
    x + a - 1 - (x + a - 1) % a
  }

  lemma RoundUpLeast(x: nat, a: nat)
    requires a > 0
    ensures x <= RoundUp(x, a) < x + a && RoundUp(x, a) % a == 0
    ensures IsPower(a) && x + a <= B ==> RoundUp(x, a) == AlignUp(x, a)
  {
    Rounded(x + a - 1, a);
    if IsPower(a) && x + a <= B { AlignUpRounds(x, a); }
  }

  lemma Rounded(y: nat, a: nat)
    requires a > 0
    ensures (y - y % a) % a == 0 && y - a < y - y % a <= y
  {
    var q := y / a;
    assert y == a * q + y % a;
    Remainder(a * q, a, q, 0);
  }
}

module ElfLayout {
  import opened Memory
  import opened ElfAlign

  const SHT_STRTAB := 3
  const SHT_HASH := 5
  const SHT_NOBITS := 8
  const SHT_REL := 9
  const SHT_DYNSYM := 11
  const PAGE: nat := 0x1000
  const FILE_LIMIT: nat := 0x1_0000_0000

  datatype Section = Section(
    typ: int, alloc: bool, write: bool, align: nat, size: nat, interp: bool, data: seq<Octet>, offset: nat, addr: int)

  function Kind(s: Section): (k: nat)
    ensures k < 5
  {
    if s.interp then 0
    else if s.typ == SHT_DYNSYM || s.typ == SHT_STRTAB || s.typ == SHT_HASH then 1
    else if s.typ == SHT_REL then 2
    else if s.typ == SHT_NOBITS then 4
    else 3
  }

  /** The pass that places a section: segment and kind, or the last pass for what is not loaded. */
  function Rank(s: Section, segments: bool): (r: nat)
    ensures r <= 10
  {
    if segments && s.alloc then (if s.write then 5 else 0) + Kind(s) else 10
  }

  /** Section numbers below i that one pass places, in order. */
  function Pass(ss: seq<Section>, segments: bool, r: nat, i: nat): seq<nat>
    requires i <= |ss|
  {
    if i <= 1 then [] else Pass(ss, segments, r, i - 1) + if Rank(ss[i - 1], segments) == r then [i - 1] else []
  }

  function Passes(ss: seq<Section>, segments: bool, r: nat): seq<nat> {
    if r == 0 then [] else Passes(ss, segments, r - 1) + Pass(ss, segments, r - 1, |ss|)
  }

  function Order(ss: seq<Section>, segments: bool): seq<nat> { Passes(ss, segments, 11) }

  predicate Precedes(ss: seq<Section>, segments: bool, i: nat, j: nat)
    requires i < |ss| && j < |ss|
  {
    Rank(ss[i], segments) < Rank(ss[j], segments) || (Rank(ss[i], segments) == Rank(ss[j], segments) && i < j)
  }

  ghost predicate Sorted(ss: seq<Section>, segments: bool, order: seq<nat>) {
    && (forall p :: 0 <= p < |order| ==> 1 <= order[p] < |ss|)
    && (forall p, q :: 0 <= p < q < |order| ==> Precedes(ss, segments, order[p], order[q]))
  }

  /** What has been placed after the passes below r and the first i sections of pass r. */
  function Placed(ss: seq<Section>, segments: bool, r: nat, i: nat): seq<nat>
    requires i <= |ss|
  {
    Passes(ss, segments, r) + Pass(ss, segments, r, i)
  }

  lemma {:induction false} PassMembers(ss: seq<Section>, segments: bool, r: nat, i: nat)
    requires i <= |ss|
    ensures forall x :: x in Pass(ss, segments, r, i) <==> 1 <= x < i && Rank(ss[x], segments) == r
    ensures Sorted(ss, segments, Pass(ss, segments, r, i))
  {
    hide Rank, Precedes, Sorted;
    if i <= 1 {
      EmptySorted(ss, segments);
    } else {
      PassMembers(ss, segments, r, i - 1);
      var before := Pass(ss, segments, r, i - 1);
      assert before + [] == before;
      if Rank(ss[i - 1], segments) == r { PassSorted(ss, segments, r, i - 1); }
    }
  }

  lemma PassSorted(ss: seq<Section>, segments: bool, r: nat, j: nat)
    requires 1 <= j < |ss| && Rank(ss[j], segments) == r && Sorted(ss, segments, Pass(ss, segments, r, j))
    requires forall x :: x in Pass(ss, segments, r, j) <==> 1 <= x < j && Rank(ss[x], segments) == r
    ensures Sorted(ss, segments, Pass(ss, segments, r, j) + [j])
  {
    hide Rank, Precedes, Pass;
    var before := Pass(ss, segments, r, j);
    assert forall p :: 0 <= p < |before| ==> before[p] in before;
    SameRankPrecedes(ss, segments, r, j);
  }

  lemma SameRankPrecedes(ss: seq<Section>, segments: bool, r: nat, j: nat)
    requires j < |ss| && Rank(ss[j], segments) == r
    ensures forall i :: 0 <= i < j && Rank(ss[i], segments) == r ==> Precedes(ss, segments, i, j)
  {
  }

  lemma {:induction false} PassesMembers(ss: seq<Section>, segments: bool, r: nat)
    ensures forall x :: x in Passes(ss, segments, r) <==> 1 <= x < |ss| && Rank(ss[x], segments) < r
    ensures Sorted(ss, segments, Passes(ss, segments, r))
  {
    hide Rank, Pass, Sorted;
    if r == 0 {
      EmptySorted(ss, segments);
    } else {
      PassesMembers(ss, segments, r - 1);
      PassMembers(ss, segments, r - 1, |ss|);
      SortedJoin(ss, segments, Passes(ss, segments, r - 1), Pass(ss, segments, r - 1, |ss|));
    }
  }

  lemma EmptySorted(ss: seq<Section>, segments: bool)
    ensures Sorted(ss, segments, [])
  {
  }

  lemma SortedJoin(ss: seq<Section>, segments: bool, a: seq<nat>, b: seq<nat>)
    requires Sorted(ss, segments, a) && Sorted(ss, segments, b)
    requires forall x, y :: x in a && y in b ==> x < |ss| && y < |ss| && Precedes(ss, segments, x, y)
    ensures Sorted(ss, segments, a + b)
  {
    hide Precedes;
    forall p, q | 0 <= p < q < |a + b| ensures Precedes(ss, segments, (a + b)[p], (a + b)[q]) {
      if p < |a| <= q { assert a[p] in a && b[q - |a|] in b; }
    }
  }

  /** Every section is placed exactly once, in an order that is sorted by pass and stable. */
  lemma OrderPermutes(ss: seq<Section>, segments: bool)
    ensures Sorted(ss, segments, Order(ss, segments))
    ensures forall x :: x in Order(ss, segments) <==> 1 <= x < |ss|
    ensures forall p, q :: 0 <= p < q < |Order(ss, segments)| ==> Order(ss, segments)[p] != Order(ss, segments)[q]
  {
    PassesMembers(ss, segments, 11);
  }

  /** Two sections of one segment: both loaded and writable alike, or both not loaded. */
  predicate Together(s: Section, t: Section, segments: bool) {
    if segments && (s.alloc || t.alloc) then s.alloc && t.alloc && s.write == t.write else true
  }

  predicate Symbolic(s: Section) { s.typ == 11 || s.typ == 3 || s.typ == 5 }

  /** s may stand before t: first what is loaded, what is only read first; in a segment the interpreter's name, tables of
      symbols, strings and hashes, relocations, contents, and what has none (type 8) at the end. */
  predicate MayPrecede(s: Section, t: Section, segments: bool) {
    && (segments && t.alloc ==> s.alloc && (s.write ==> t.write))
    && (segments && s.alloc && Together(s, t, segments) ==>
      if s.interp || t.interp then s.interp
      else
        && (Symbolic(t) ==> Symbolic(s))
        && (t.typ == 9 ==> Symbolic(s) || s.typ == 9)
        && (s.typ == 8 ==> t.typ == 8))
  }

  /** The order of the sections, and that equals keep the order of their numbers. */
  ghost predicate Arranged(ss: seq<Section>, segments: bool, order: seq<nat>) {
    forall p, q :: 0 <= p < q < |order| ==>
      && order[p] < |ss| && order[q] < |ss|
      && MayPrecede(ss[order[p]], ss[order[q]], segments)
      && (MayPrecede(ss[order[q]], ss[order[p]], segments) ==> order[p] < order[q])
  }

  lemma OrderArranged(ss: seq<Section>, segments: bool)
    ensures Arranged(ss, segments, Order(ss, segments))
  {
    hide Rank, Order, MayPrecede;
    OrderPermutes(ss, segments);
    var order := Order(ss, segments);
    forall p, q | 0 <= p < q < |order|
      ensures MayPrecede(ss[order[p]], ss[order[q]], segments)
      ensures MayPrecede(ss[order[q]], ss[order[p]], segments) ==> order[p] < order[q]
    {
      assert Precedes(ss, segments, order[p], order[q]);
      RankMeans(ss[order[p]], ss[order[q]], segments);
      RankMeans(ss[order[q]], ss[order[p]], segments);
    }
  }

  lemma RankMeans(s: Section, t: Section, segments: bool)
    ensures Rank(s, segments) <= Rank(t, segments) <==> MayPrecede(s, t, segments)
  {
  }

  /** What a pass is about to place has not been placed yet. */
  lemma PlacedFresh(ss: seq<Section>, segments: bool, r: nat, i: nat)
    requires 1 <= i < |ss| && Rank(ss[i], segments) == r
    ensures i !in Placed(ss, segments, r, i)
    ensures forall x :: x in Placed(ss, segments, r, i) ==> 1 <= x < |ss|
    ensures Placed(ss, segments, r, i + 1) == Placed(ss, segments, r, i) + [i]
  {
    PassesMembers(ss, segments, r);
    PassMembers(ss, segments, r, i);
  }

  /** File offset and address, as the loops advance them. */
  datatype Cursor = Cursor(file: nat, addr: int)

  function Aligned(c: Cursor, s: Section): Cursor
    requires s.align > 0
  {
    var f := AlignUp(c.file, s.align);
    Cursor(f, c.addr + f - c.file)
  }

  function Advance(c: Cursor, s: Section): Cursor
    requires s.align > 0
  {
    var a := Aligned(c, s);
    Cursor(a.file + if s.typ != SHT_NOBITS then s.size else 0, a.addr + s.size)
  }

  ghost predicate Alignments(ss: seq<Section>) { forall i :: 0 <= i < |ss| ==> IsPower(ss[i].align) && ss[i].align > 0 }

  ghost predicate Numbers(ss: seq<Section>, order: seq<nat>) { forall p :: 0 <= p < |order| ==> order[p] < |ss| }

  ghost function After(ss: seq<Section>, start: Cursor, order: seq<nat>): Cursor
    requires Alignments(ss) && Numbers(ss, order)
  {
    if order == [] then start
    else
      assert Numbers(ss, order[..|order| - 1]);
      Advance(After(ss, start, order[..|order| - 1]), ss[order[|order| - 1]])
  }

  /** Where the section in place p goes. */
  ghost function PlaceOf(ss: seq<Section>, start: Cursor, order: seq<nat>, p: nat): Cursor
    requires Alignments(ss) && Numbers(ss, order) && p < |order|
  {
    assert Numbers(ss, order[..p]);
    Aligned(After(ss, start, order[..p]), ss[order[p]])
  }

  predicate SameShape(s: Section, t: Section) { s == t.(offset := s.offset, addr := s.addr) }

  /** The sections in order have their offsets and, if they are loaded, their addresses. */
  ghost predicate LaidOut(ss: seq<Section>, was: seq<Section>, segments: bool, start: Cursor, order: seq<nat>) {
    && |ss| == |was| && Alignments(was) && Numbers(was, order)
    && (forall i :: 0 <= i < |ss| ==> SameShape(ss[i], was[i]))
    && (forall p :: 0 <= p < |order| ==> ss[order[p]].offset == PlaceOf(was, start, order, p).file)
    && (forall p :: 0 <= p < |order| && Rank(was[order[p]], segments) < 10 ==>
      ss[order[p]].addr == PlaceOf(was, start, order, p).addr)
  }

  lemma AfterSnoc(ss: seq<Section>, start: Cursor, order: seq<nat>, i: nat)
    requires Alignments(ss) && Numbers(ss, order) && i < |ss|
    ensures Numbers(ss, order + [i])
    ensures After(ss, start, order + [i]) == Advance(After(ss, start, order), ss[i])
    ensures PlaceOf(ss, start, order + [i], |order|) == Aligned(After(ss, start, order), ss[i])
    ensures forall p :: 0 <= p < |order| ==> PlaceOf(ss, start, order + [i], p) == PlaceOf(ss, start, order, p)
  {
    hide After, AlignUp;
    var more := order + [i];
    assert more[..|order|] == order;
    AfterUnfold(ss, start, more);
    forall p | 0 <= p < |order| ensures more[..p] == order[..p] {
    }
  }

  lemma AfterUnfold(ss: seq<Section>, start: Cursor, order: seq<nat>)
    requires Alignments(ss) && Numbers(ss, order) && order != []
    ensures Numbers(ss, order[..|order| - 1])
    ensures After(ss, start, order) == Advance(After(ss, start, order[..|order| - 1]), ss[order[|order| - 1]])
  {
  }

  lemma LaidOutSnoc(ss: seq<Section>, was: seq<Section>, segments: bool, start: Cursor, order: seq<nat>, i: nat, s: Section)
    requires LaidOut(ss, was, segments, start, order) && i < |was| && i !in order
    requires SameShape(s, was[i]) && s.offset == Aligned(After(was, start, order), was[i]).file
    requires Rank(was[i], segments) < 10 ==> s.addr == Aligned(After(was, start, order), was[i]).addr
    ensures LaidOut(ss[i := s], was, segments, start, order + [i])
  {
    hide After, AlignUp, Rank, PlaceOf, Aligned;
    AfterSnoc(was, start, order, i);
    assert forall p :: 0 <= p < |order| ==> order[p] in order;
  }

  class Layout {
    var sections: seq<Section>
    var order: seq<nat>
    var cursor: Cursor

    constructor (sections: seq<Section>)
      ensures this.sections == sections && order == []
    {
      this.sections := sections;
      order := [];
      cursor := Cursor(0, 0);
    }

    /** Aligns, records and advances, for one section. */
    method Put(i: nat, ghost was: seq<Section>, ghost segments: bool, ghost start: Cursor, loaded: bool)
      requires LaidOut(sections, was, segments, start, order) && cursor == After(was, start, order)
      requires i < |was| && i !in order && loaded == (Rank(was[i], segments) < 10)
      modifies this
      ensures order == old(order) + [i] && LaidOut(sections, was, segments, start, order)
      ensures cursor == After(was, start, order)
    {
      hide After, AlignUp, Rank, PlaceOf;
      assert SameShape(sections[i], was[i]);
      AfterSnoc(was, start, order, i);
      var s := sections[i];
      var fileOffset, addr := cursor.file, cursor.addr;
      var tmp := fileOffset;
      fileOffset := AlignUp(fileOffset, s.align);
      s := s.(offset := fileOffset);
      addr := addr + fileOffset - tmp;
      if loaded {
        s := s.(addr := addr);
      }
      addr := addr + s.size;
      if s.typ != SHT_NOBITS {
        fileOffset := fileOffset + s.size;
      }
      LaidOutSnoc(sections, was, segments, start, order, i, s);
      order := order + [i];
      cursor := Cursor(fileOffset, addr);
      sections := sections[i := s];
    }

    /** The three loops over segment, kind and section, and the loop for what is not loaded. */
    method Run(headers: nat, base: int, segments: bool)
      requires order == [] && Alignments(sections) && |sections| > 0
      modifies this
      ensures Alignments(old(sections))
      ensures order == Order(old(sections), segments) && Arranged(old(sections), segments, order)
      ensures LaidOut(sections, old(sections), segments, Cursor(headers, base + headers % 0x1000), order)
      ensures cursor == After(old(sections), Cursor(headers, base + headers % 0x1000), order)
    {
      hide After, AlignUp, Rank, PlaceOf, Pass, Passes, Kind, Arranged, Sorted;
      ghost var was := sections;
      ghost var start := Cursor(headers, base + headers % 0x1000);
      cursor := Cursor(headers, base + headers % 0x1000);
      StartLaidOut(was, segments, start);
      if segments {
        for j := 0 to 2
          invariant order == Passes(was, segments, 5 * j)
          invariant LaidOut(sections, was, segments, start, order) && cursor == After(was, start, order)
        {
          for k := 0 to 5
            invariant order == Passes(was, segments, 5 * j + k)
            invariant LaidOut(sections, was, segments, start, order) && cursor == After(was, start, order)
          {
            PassStart(was, segments, 5 * j + k);
            for i := 1 to |sections|
              invariant 1 <= i <= |sections| == |was|
              invariant order == Placed(was, segments, 5 * j + k, i)
              invariant LaidOut(sections, was, segments, start, order) && cursor == After(was, start, order)
            {
              var s := sections[i];
              assert SameShape(s, was[i]);
              var included := s.alloc && s.write == (j == 1);
              if s.interp {
                included := included && k == 0;
              } else if s.typ == SHT_DYNSYM || s.typ == SHT_STRTAB || s.typ == SHT_HASH {
                included := included && k == 1;
              } else if s.typ == SHT_REL {
                included := included && k == 2;
              } else if s.typ == SHT_NOBITS {
                included := included && k == 4;
              } else {
                included := included && k == 3;
              }
              RankIncluded(s, was[i], j, k);
              if included {
                PlacedFresh(was, segments, 5 * j + k, i);
                Put(i, was, segments, start, true);
              } else {
                PlacedSkips(was, segments, 5 * j + k, i);
              }
            }
            PassDone(was, segments, 5 * j + k);
          }
        }
      } else {
        NothingLoaded(was, 10);
      }
      PassStart(was, segments, 10);
      for i := 1 to |sections|
        invariant 1 <= i <= |sections| == |was|
        invariant order == Placed(was, segments, 10, i)
        invariant LaidOut(sections, was, segments, start, order) && cursor == After(was, start, order)
      {
        assert SameShape(sections[i], was[i]);
        RankLoaded(sections[i], was[i], segments);
        if segments && sections[i].alloc {
          PlacedSkips(was, segments, 10, i);
        } else {
          PlacedFresh(was, segments, 10, i);
          Put(i, was, segments, start, false);
        }
      }
      PassDone(was, segments, 10);
      OrderArranged(was, segments);
    }
  }

  lemma StartLaidOut(was: seq<Section>, segments: bool, start: Cursor)
    requires Alignments(was)
    ensures LaidOut(was, was, segments, start, []) && After(was, start, []) == start && Passes(was, segments, 0) == []
  {
  }

  lemma RankIncluded(s: Section, w: Section, j: nat, k: nat)
    requires SameShape(s, w) && j < 2 && k < 5
    ensures Rank(w, true) == 5 * j + k <==> s.alloc && s.write == (j == 1) && Kind(s) == k
    ensures Kind(s) == if s.interp then 0 else if s.typ == SHT_DYNSYM || s.typ == SHT_STRTAB || s.typ == SHT_HASH then 1
      else if s.typ == SHT_REL then 2 else if s.typ == SHT_NOBITS then 4 else 3
    ensures 5 * j + k < 10
  {
  }

  lemma RankLoaded(s: Section, w: Section, segments: bool)
    requires SameShape(s, w)
    ensures Rank(w, segments) == 10 <==> !(segments && s.alloc)
  {
  }

  lemma PassStart(was: seq<Section>, segments: bool, r: nat)
    requires |was| > 0
    ensures Placed(was, segments, r, 1) == Passes(was, segments, r)
  {
  }

  lemma PassDone(was: seq<Section>, segments: bool, r: nat)
    ensures Placed(was, segments, r, |was|) == Passes(was, segments, r + 1)
  {
  }

  lemma PlacedSkips(was: seq<Section>, segments: bool, r: nat, i: nat)
    requires 1 <= i < |was| && Rank(was[i], segments) != r
    ensures Placed(was, segments, r, i + 1) == Placed(was, segments, r, i)
  {
  }

  lemma {:induction false} NothingLoaded(was: seq<Section>, r: nat)
    requires r <= 10
    ensures Passes(was, false, r) == []
  {
    if r > 0 {
      NothingLoaded(was, r - 1);
      NothingPassed(was, r - 1, |was|);
    }
  }

  lemma {:induction false} NothingPassed(was: seq<Section>, r: nat, i: nat)
    requires r < 10 && i <= |was|
    ensures Pass(was, false, r, i) == []
  {
    if i > 1 { NothingPassed(was, r, i - 1); }
  }

  /** The file stays below 4 GiB, so that alignment does not wrap around. */
  ghost predicate Within(ss: seq<Section>, start: Cursor, order: seq<nat>)
    requires Alignments(ss) && Numbers(ss, order)
  {
    && (forall p :: 0 <= p < |order| ==> Numbers(ss, order[..p]))
    && (forall p :: 0 <= p < |order| ==> After(ss, start, order[..p]).file + ss[order[p]].align <= FILE_LIMIT)
  }

  function FileSize(s: Section): nat { if s.typ == SHT_NOBITS then 0 else s.size }

  lemma NumbersPrefix(ss: seq<Section>, order: seq<nat>, p: nat)
    requires Numbers(ss, order) && p <= |order|
    ensures Numbers(ss, order[..p])
  {
  }

  /** One placement: aligned, not before the cursor, and the cursor ends right after it. */
  lemma PlaceStep(ss: seq<Section>, start: Cursor, order: seq<nat>, p: nat)
    requires Alignments(ss) && Numbers(ss, order) && Within(ss, start, order) && p < |order|
    ensures Numbers(ss, order[..p]) && Numbers(ss, order[..p + 1])
    ensures var before, place, s := After(ss, start, order[..p]), PlaceOf(ss, start, order, p), ss[order[p]];
      && place.file % s.align == 0 && before.file <= place.file
      && place.addr - place.file == before.addr - before.file
      && After(ss, start, order[..p + 1]) == Cursor(place.file + FileSize(s), place.addr + s.size)
  {
    hide After, AlignUp;
    NumbersPrefix(ss, order, p);
    NumbersPrefix(ss, order, p + 1);
    assert order[..p + 1][..p] == order[..p];
    AfterUnfold(ss, start, order[..p + 1]);
    AlignUpLeast(After(ss, start, order[..p]).file, ss[order[p]].align);
  }

  lemma {:induction false} CursorMonotone(ss: seq<Section>, start: Cursor, order: seq<nat>, p: nat, q: nat)
    requires Alignments(ss) && Numbers(ss, order) && Within(ss, start, order) && p <= q <= |order|
    ensures Numbers(ss, order[..p]) && Numbers(ss, order[..q])
    ensures After(ss, start, order[..p]).file <= After(ss, start, order[..q]).file
    decreases q
  {
    hide After, AlignUp, PlaceOf;
    NumbersPrefix(ss, order, p);
    NumbersPrefix(ss, order, q);
    if p < q {
      CursorMonotone(ss, start, order, p, q - 1);
      PlaceStep(ss, start, order, q - 1);
    }
  }

  /** File ranges are aligned, and ascend without overlap in section order, after the headers. */
  lemma FileRanges(ss: seq<Section>, was: seq<Section>, segments: bool, start: Cursor, order: seq<nat>, p: nat, q: nat)
    requires LaidOut(ss, was, segments, start, order) && Within(was, start, order) && p < q < |order|
    ensures ss[order[p]].offset % ss[order[p]].align == 0
    ensures start.file <= ss[order[p]].offset
    ensures ss[order[p]].offset + FileSize(ss[order[p]]) <= ss[order[q]].offset
  {
    hide After, AlignUp, PlaceOf, Rank;
    assert SameShape(ss[order[p]], was[order[p]]);
    PlaceStep(was, start, order, p);
    PlaceStep(was, start, order, q);
    CursorMonotone(was, start, order, p + 1, q);
    CursorMonotone(was, start, order, 0, p);
    assert order[..0] == [] && After(was, start, []) == start by { AfterEmpty(was, start); }
  }

  lemma AfterEmpty(ss: seq<Section>, start: Cursor)
    requires Alignments(ss)
    ensures After(ss, start, []) == start
  {
  }

  /** The bytes that the sections without file contents take in memory. */
  function NobitsSize(ss: seq<Section>, order: seq<nat>): nat
    requires forall p :: 0 <= p < |order| ==> order[p] < |ss|
  {
    if order == [] then 0
    else
      var s := ss[order[|order| - 1]];
      NobitsSize(ss, order[..|order| - 1]) + if s.typ == SHT_NOBITS then s.size else 0
  }

  lemma {:induction false} AddressLead(ss: seq<Section>, start: Cursor, order: seq<nat>, p: nat)
    requires Alignments(ss) && Numbers(ss, order) && Within(ss, start, order) && p <= |order|
    ensures Numbers(ss, order[..p])
    ensures After(ss, start, order[..p]).addr - After(ss, start, order[..p]).file
      == start.addr - start.file + NobitsSize(ss, order[..p])
    decreases p
  {
    hide After, AlignUp, PlaceOf;
    NumbersPrefix(ss, order, p);
    AfterEmpty(ss, start);
    assert order[..0] == [];
    if p > 0 {
      AddressLead(ss, start, order, p - 1);
      PlaceStep(ss, start, order, p - 1);
      assert order[..p][..p - 1] == order[..p - 1];
    }
  }

  /**
    A loaded section's address is congruent to its offset modulo the page size exactly when
    the sections without contents that precede it fill whole pages, in particular up to and
    including the first one that is not empty.
   */
  lemma CongruentExactly(ss: seq<Section>, was: seq<Section>, headers: nat, base: int, order: seq<nat>, p: nat)
    requires base % PAGE == 0 && p < |order|
    requires var start := Cursor(headers, base + headers % 0x1000);
      LaidOut(ss, was, true, start, order) && Within(was, start, order)
    requires Rank(was[order[p]], true) < 10
    ensures Numbers(was, order[..p])
    ensures (ss[order[p]].addr - ss[order[p]].offset) % PAGE == 0 <==> NobitsSize(was, order[..p]) % PAGE == 0
  {
    hide After, AlignUp, PlaceOf, Rank;
    var start := Cursor(headers, base + headers % 0x1000);
    AddressLead(was, start, order, p);
    PlaceStep(was, start, order, p);
    assert start.addr - start.file == base - headers / PAGE * PAGE;
    PageMod(base - headers / PAGE * PAGE, NobitsSize(was, order[..p]));
  }

  lemma PageMod(x: int, y: int)
    requires x % PAGE == 0
    ensures (x + y) % PAGE == y % PAGE
  {
  }

  /** Where the lead is zero: nothing but empty sections among those without contents. */
  lemma {:induction false} NoNobits(ss: seq<Section>, order: seq<nat>)
    requires forall p :: 0 <= p < |order| ==> order[p] < |ss| && (ss[order[p]].typ == SHT_NOBITS ==> ss[order[p]].size == 0)
    ensures NobitsSize(ss, order) == 0
  {
    if order != [] { NoNobits(ss, order[..|order| - 1]); }
  }

  function Zeros(n: nat): (z: seq<Octet>)
    ensures |z| == n
  {
    seq(n, i => 0)
  }

  predicate InFile(file: seq<Octet>, s: Section) {
    && 0 <= s.offset && s.offset + s.size <= |file| && s.size <= |s.data|
    && file[s.offset..s.offset + s.size] == s.data[..s.size]
  }

  /** The sections placed so far are in the file, each at its offset. */
  ghost predicate Written(file: seq<Octet>, ss: seq<Section>, order: seq<nat>, p: nat)
    requires p <= |order| && forall k :: 0 <= k < |order| ==> order[k] < |ss|
  {
    forall k :: 0 <= k < p && ss[order[k]].typ != SHT_NOBITS ==> InFile(file, ss[order[k]])
  }

  lemma WrittenMore(file: seq<Octet>, more: seq<Octet>, ss: seq<Section>, order: seq<nat>, p: nat)
    requires p <= |order| && forall k :: 0 <= k < |order| ==> order[k] < |ss|
    requires Written(file, ss, order, p)
    ensures Written(file + more, ss, order, p)
  {
    forall k | 0 <= k < p && ss[order[k]].typ != SHT_NOBITS
      ensures InFile(file + more, ss[order[k]])
    {
      var s := ss[order[k]];
      assert (file + more)[s.offset..s.offset + s.size] == file[s.offset..s.offset + s.size];
    }
  }

  /** The write loop: padding, then contents; the section headers start at a multiple of 4 behind. */
  method WriteFile(headers: seq<Octet>, ss: seq<Section>, order: seq<nat>, fileOffset: nat,
      ghost was: seq<Section>, ghost segments: bool, ghost start: Cursor) returns (file: seq<Octet>)
    requires LaidOut(ss, was, segments, start, order) && Within(was, start, order)
    requires start.file == |headers| && fileOffset == After(was, start, order).file <= FILE_LIMIT - 4
    requires forall i :: 0 <= i < |ss| ==> FileSize(ss[i]) <= |ss[i].data|
    ensures headers <= file && |file| % 4 == 0 && fileOffset <= |file| < fileOffset + 4
    ensures Written(file, ss, order, |order|)
  {
    hide After, AlignUp, PlaceOf, Rank, Written;
    file := headers;
    var i := 0;
    AfterEmpty(was, start);
    assert order[..0] == [];
    WrittenNone(file, ss, order);
    while i < |order|
      invariant i <= |order| && headers <= file
      invariant Numbers(was, order[..i]) && |file| <= After(was, start, order[..i]).file
      invariant Written(file, ss, order, i)
    {
      PlaceStep(was, start, order, i);
      var s := ss[order[i]];
      assert SameShape(s, was[order[i]]);
      if s.typ != SHT_NOBITS {
        WrittenMore(file, Zeros(s.offset - |file|), ss, order, i);
        file := file + Zeros(s.offset - |file|);
        WrittenMore(file, s.data[..s.size], ss, order, i);
        file := file + s.data[..s.size];
      }
      WrittenStep(file, ss, order, i);
      i := i + 1;
    }
    assert order[..i] == order;
    FourAligned(fileOffset);
    var shoff := AlignUp(fileOffset, 4);
    WrittenMore(file, Zeros(shoff - |file|), ss, order, |order|);
    file := file + Zeros(shoff - |file|);
  }

  lemma FourAligned(x: nat)
    requires x <= FILE_LIMIT - 4
    ensures x <= AlignUp(x, 4) < x + 4 && AlignUp(x, 4) % 4 == 0
  {
    PowerFour();
    AlignUpLeast(x, 4);
  }

  lemma WrittenNone(file: seq<Octet>, ss: seq<Section>, order: seq<nat>)
    requires forall k :: 0 <= k < |order| ==> order[k] < |ss|
    ensures Written(file, ss, order, 0)
  {
  }

  lemma WrittenStep(file: seq<Octet>, ss: seq<Section>, order: seq<nat>, i: nat)
    requires i < |order| && forall k :: 0 <= k < |order| ==> order[k] < |ss|
    requires Written(file, ss, order, i)
    requires var s := ss[order[i]]; s.typ != SHT_NOBITS ==>
      0 <= s.offset && s.size <= |s.data| && s.offset + s.size == |file| && file[s.offset..] == s.data[..s.size]
    ensures Written(file, ss, order, i + 1)
  {
  }
}
