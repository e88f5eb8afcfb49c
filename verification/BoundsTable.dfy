/**
  The bounds table of tcc_10/bcheck.c: a two-level page table of 256-byte granules, each
  with a chain of the regions that meet it, against the set of live regions it stands for.

  A region is closed: a pointer may reach its end. Addresses are 32-bit words.
 */
module BoundsChain {

  const SPACE: nat := 0x1_0000_0000
  const EMPTY_SIZE: Addr := 0xffff_ffff
  const GRANULE: nat := 256
  const SLOTS: nat := 2048
  const PAGES: nat := 8192

  type Addr = x: nat | x < SPACE

  datatype Region = Region(start: Addr, size: Addr)

  /** The contents of an entry that holds no region. */
  const NONE := Region(0, EMPTY_SIZE)

  function End(r: Region): nat { r.start + r.size }

  predicate Proper(r: Region) { 0 < r.start && End(r) < SPACE }

  /** The test of the code, in wrapping arithmetic. */
  predicate Hit(r: Region, p: Addr) { (p - r.start) % SPACE <= r.size }

  lemma HitInside(r: Region, p: Addr)
    requires Proper(r)
    ensures Hit(r, p) <==> r.start <= p <= End(r)
  {
  }

  lemma HitNone(p: Addr)
    ensures Hit(NONE, p)
  {
  }

  /** The granules a region meets. */
  predicate Meets(r: Region, g: nat) { r.start / GRANULE <= g <= End(r) / GRANULE }

  predicate Disjoint(r: Region, s: Region) { End(r) < s.start || End(s) < r.start }

  ghost predicate WellFormed(live: set<Region>) {
    && (forall r :: r in live ==> Proper(r))
    && (forall r, s :: r in live && s in live && r != s ==> Disjoint(r, s))
  }

  /** A chain is the head entry of a granule and what hangs behind it. */
  type Chain = seq<Region>

  predicate NoDuplicates(c: Chain) { forall i, j :: 0 <= i < j < |c| ==> c[i] != c[j] }

  /** The chain lists exactly the live regions that meet the granule. */
  ghost predicate Lists(c: Chain, g: nat, live: set<Region>) {
    if c == [NONE] then forall r :: r in live ==> !Meets(r, g)
    else
      && c != [] && NoDuplicates(c)
      && forall r :: r in c <==> r in live && Meets(r, g)
  }

  function AddRegion(c: Chain, r: Region): Chain
    requires c != []
  {
    if c[0].start == 0 then [r] + c[1..] else [r] + c
  }

  lemma AddStep(c: Chain, g: nat, live: set<Region>, r: Region)
    requires WellFormed(live) && Lists(c, g, live) && r !in live && Meets(r, g) && Proper(r)
    ensures Lists(AddRegion(c, r), g, live + {r})
  {
    if c == [NONE] {
      assert AddRegion(c, r) == [r];
    } else {
      assert c[0] in c && c[0].start > 0;
      assert forall s :: s in [r] + c <==> s == r || s in c;
    }
  }

  /** A granule inside a new region is empty before. */
  lemma InteriorEmpty(c: Chain, g: nat, live: set<Region>, r: Region)
    requires WellFormed(live) && Lists(c, g, live)
    requires forall s :: s in live ==> Disjoint(r, s)
    requires Proper(r) && r.start / GRANULE < g < End(r) / GRANULE
    ensures c == [NONE]
  {
    assert forall s :: s in live ==> !Meets(s, g);
    assert c[0] in c;
  }

  lemma InteriorStep(c: Chain, g: nat, live: set<Region>, r: Region)
    requires WellFormed(live) && Lists(c, g, live)
    requires forall s :: s in live ==> Disjoint(r, s)
    requires Proper(r) && r.start / GRANULE < g < End(r) / GRANULE
    ensures c != [] && Lists([r] + c[1..], g, live + {r})
  {
    InteriorEmpty(c, g, live, r);
    assert [r] + c[1..] == [r];
    forall s | s in live ensures !Meets(s, g) {
    }
  }

  /** Inside a live region its chain is that region alone. */
  lemma InteriorAlone(c: Chain, g: nat, live: set<Region>, r: Region)
    requires WellFormed(live) && Lists(c, g, live) && r in live
    requires r.start / GRANULE < g < End(r) / GRANULE
    ensures c == [r] && Lists([NONE] + c[1..], g, live - {r})
  {
    forall s | s in live && s != r ensures !Meets(s, g) {
      assert Disjoint(r, s);
    }
    assert Meets(r, g);
    assert r in c;
    forall i | 0 <= i < |c| ensures c[i] == r {
      assert c[i] in c;
    }
    OneElement(c, r);
  }

  lemma OneElement(c: Chain, r: Region)
    requires c != [] && forall i :: 0 <= i < |c| ==> c[i] == r
    requires |c| < 2 || c[0] != c[1]
    ensures c == [r] && [NONE] + c[1..] == [NONE]
  {
  }

  /** `delete_region`: drops the first entry that p hits; a head that goes is replaced by the next. */
  function Remove(c: Chain, p: Addr): Chain
    requires c != []
  {
    if Hit(c[0], p) then (if |c| == 1 then [NONE] else c[1..])
    else [c[0]] + RemoveLater(c[1..], p)
  }

  function RemoveLater(c: Chain, p: Addr): Chain {
    if c == [] then []
    else if Hit(c[0], p) then c[1..]
    else [c[0]] + RemoveLater(c[1..], p)
  }

  lemma {:induction false} RemoveLaterAt(c: Chain, p: Addr, i: nat)
    requires i < |c| && Hit(c[i], p) && forall j :: 0 <= j < i ==> !Hit(c[j], p)
    ensures RemoveLater(c, p) == c[..i] + c[i + 1..]
  {
    if i > 0 {
      RemoveLaterAt(c[1..], p, i - 1);
      assert c[..i] == [c[0]] + c[1..][..i - 1];
    }
  }

  lemma {:induction false} RemoveLaterNone(c: Chain, p: Addr)
    requires forall j :: 0 <= j < |c| ==> !Hit(c[j], p)
    ensures RemoveLater(c, p) == c
  {
    if c != [] { RemoveLaterNone(c[1..], p); }
  }

  lemma RemoveStep(c: Chain, g: nat, live: set<Region>, r: Region)
    requires WellFormed(live) && Lists(c, g, live) && r in live && Meets(r, g)
    ensures c != [] && Lists(Remove(c, r.start), g, live - {r})
  {
    hide Hit, Remove, RemoveLater;
    var i :| 0 <= i < |c| && c[i] == r;
    forall j | 0 <= j < |c| ensures Hit(c[j], r.start) <==> j == i {
      assert c[j] in c && c[i] in c;
      HitInside(c[j], r.start);
      if j != i { assert Disjoint(c[j], c[i]); }
    }
    RemoveAtOnly(c, r.start, i);
    if |c| > 1 {
      var d := Remove(c, r.start);
      DropOne(c, i);
      assert d != [NONE] by { assert d[0] in c; }
    } else {
      assert forall s :: s in c ==> s == r;
    }
  }

  /** The only entry that is hit is the one that goes. */
  lemma RemoveAtOnly(c: Chain, p: Addr, i: nat)
    requires i < |c| && forall j :: 0 <= j < |c| ==> (Hit(c[j], p) <==> j == i)
    ensures Remove(c, p) == if |c| == 1 then [NONE] else c[..i] + c[i + 1..]
  {
    hide Hit, RemoveLater;
    if i == 0 {
      assert c[..0] + c[1..] == c[1..];
    } else {
      RemoveLaterAt(c[1..], p, i - 1);
      Regroup(c, i);
    }
  }

  lemma Regroup(c: Chain, i: nat)
    requires 0 < i < |c|
    ensures [c[0]] + (c[1..][..i - 1] + c[1..][i..]) == c[..i] + c[i + 1..]
  {
    assert [c[0]] + c[1..][..i - 1] == c[..i];
    assert c[1..][i..] == c[i + 1..];
  }

  lemma DropOne(c: Chain, i: nat)
    requires i < |c| && NoDuplicates(c)
    ensures NoDuplicates(c[..i] + c[i + 1..])
    ensures forall s :: s in c[..i] + c[i + 1..] <==> s in c && s != c[i]
  {
    var d := c[..i] + c[i + 1..];
    forall s | s in c && s != c[i] ensures s in d {
      var j :| 0 <= j < |c| && c[j] == s;
      assert d[if j < i then j else j - 1] == s;
    }
  }

  /** `__bound_find_region` exchanges the head with the entry that is hit. */
  function Swapped(c: Chain, i: nat): Chain
    requires i < |c|
  {
    c[0 := c[i]][i := c[0]]
  }

  lemma SwapLists(c: Chain, i: nat, g: nat, live: set<Region>)
    requires i < |c| && Lists(c, g, live)
    ensures Lists(Swapped(c, i), g, live)
  {
    var d := Swapped(c, i);
    if |c| > 1 {
      assert d != [NONE];
      forall r ensures r in d <==> r in c {
        if r in c {
          var j :| 0 <= j < |c| && c[j] == r;
          assert d[if j == 0 then i else if j == i then 0 else j] == r;
        }
      }
    } else {
      assert d == c;
    }
  }

  /** At most one live region is hit, and its granule's chain has it. */
  lemma HitUnique(c: Chain, live: set<Region>, p: Addr, i: nat, r: Region)
    requires WellFormed(live) && Lists(c, p / GRANULE, live)
    requires i < |c| && Hit(c[i], p) && r in live && r.start <= p <= End(r)
    ensures c[i] == r
  {
    assert Meets(r, p / GRANULE);
    assert c != [NONE] && r in c;
    assert c[i] in c;
    HitInside(c[i], p);
  }

  lemma NoHitNoRegion(c: Chain, live: set<Region>, p: Addr, r: Region)
    requires WellFormed(live) && Lists(c, p / GRANULE, live)
    requires forall i :: 0 <= i < |c| ==> !Hit(c[i], p)
    requires r in live
    ensures !(r.start <= p <= End(r))
  {
    HitNone(p);
    if r.start <= p <= End(r) {
      assert Meets(r, p / GRANULE);
      assert r in c;
      HitInside(r, p);
    }
  }
}

module BoundsTable {
  import opened Options
  import opened BoundsChain

  type Page = seq<Chain>

  /** Unused entries of the first level share one empty page. */
  type Table = seq<Option<Page>>

  predicate Shaped(t: Table) {
    |t| == PAGES && forall i :: 0 <= i < PAGES && t[i].Some? ==> |t[i].value| == SLOTS
  }

  function At(t: Table, g: nat): Chain
    requires Shaped(t) && g < PAGES * SLOTS
  {
    var page := t[g / SLOTS];
    if page.None? then [NONE] else page.value[g % SLOTS]
  }

  function Stored(t: Table, g: nat, c: Chain): Table
    requires Shaped(t) && g < PAGES * SLOTS && t[g / SLOTS].Some?
  {
    t[g / SLOTS := Some(t[g / SLOTS].value[g % SLOTS := c])]
  }

  lemma StoredAt(t: Table, g: nat, c: Chain)
    requires Shaped(t) && g < PAGES * SLOTS && t[g / SLOTS].Some?
    ensures Shaped(Stored(t, g, c))
    ensures forall h :: 0 <= h < PAGES * SLOTS ==> At(Stored(t, g, c), h) == if h == g then c else At(t, h)
  {
    forall h | 0 <= h < PAGES * SLOTS ensures At(Stored(t, g, c), h) == if h == g then c else At(t, h) {
      assert h / SLOTS == g / SLOTS && h % SLOTS == g % SLOTS ==> h == g;
    }
  }

  /** Granules in [a, b) already stand for the new set of regions, the others for the old one. */
  ghost predicate Between(t: Table, before: set<Region>, after: set<Region>, a: nat, b: nat)
    requires Shaped(t)
  {
    forall g :: 0 <= g < PAGES * SLOTS ==> Lists(At(t, g), g, if a <= g < b then after else before)
  }

  ghost predicate Represents(t: Table, live: set<Region>)
    requires Shaped(t)
  {
    forall g :: 0 <= g < PAGES * SLOTS ==> Lists(At(t, g), g, live)
  }

  lemma BetweenStep(t: Table, before: set<Region>, after: set<Region>, a: nat, b: nat, c: Chain)
    requires Shaped(t) && Between(t, before, after, a, b) && a <= b < PAGES * SLOTS
    requires t[b / SLOTS].Some? && Lists(c, b, after)
    ensures Shaped(Stored(t, b, c)) && Between(Stored(t, b, c), before, after, a, b + 1)
  {
    StoredAt(t, b, c);
  }

  /** Granules that the region does not meet do not see it come or go. */
  lemma ListsUnmet(c: Chain, g: nat, live: set<Region>, r: Region)
    requires !Meets(r, g)
    ensures Lists(c, g, live) <==> Lists(c, g, live + {r})
    ensures Lists(c, g, live) <==> Lists(c, g, live - {r})
  {
  }

  function First(r: Region): nat { r.start / GRANULE }

  function LastGranule(r: Region): nat { End(r) / GRANULE }

  lemma Finish(t: Table, before: set<Region>, after: set<Region>, r: Region)
    requires Shaped(t) && Proper(r) && (after == before + {r} || after == before - {r})
    requires Between(t, before, after, First(r), LastGranule(r) + 1)
    ensures Represents(t, after)
  {
    hide Lists;
    forall g | 0 <= g < PAGES * SLOTS ensures Lists(At(t, g), g, after) {
      if !Meets(r, g) { ListsUnmet(At(t, g), g, before, r); }
    }
  }

  /** What the code computes for the entry of an address in its page. */
  lemma GranuleOf(p: nat)
    requires p < SPACE
    ensures p / GRANULE < PAGES * SLOTS
    ensures p / (GRANULE * SLOTS) == p / GRANULE / SLOTS
    ensures p / GRANULE == p / (GRANULE * SLOTS) * SLOTS + p / GRANULE % SLOTS
  {
  }

  const INVALID_POINTER: Addr := 0xffff_fffe

  datatype Deletion = Deleted | NotFound | OutOfTable

  ghost predicate StartsAt(live: set<Region>, p: Addr) { exists r :: r in live && r.start == p }

  /** The byte offset of the last granule's entry in its page. */
  function LastOffset(r: Region): nat { LastGranule(r) % SLOTS * 16 }

  /** Which regions `__bound_delete_region` removes entirely: see line 640, which takes a byte offset for a page number. */
  predicate Deletable(r: Region) {
    First(r) / SLOTS == LastGranule(r) / SLOTS || LastOffset(r) == LastGranule(r) / SLOTS
  }

  class Bounds {
    var table: Table
    ghost var live: set<Region>

    ghost predicate Valid()
      reads this
    {
      Shaped(table) && WellFormed(live) && Represents(table, live)
    }

    constructor ()
      ensures Valid() && live == {}
    {
      table := seq(PAGES, i => None);
      live := {};
    }

    /** Copies the shared empty page on demand; no granule changes. */
    method GetPage(index: nat)
      requires Shaped(table) && index < PAGES
      modifies this`table
      ensures Shaped(table) && table[index].Some?
      ensures forall g :: 0 <= g < PAGES * SLOTS ==> At(table, g) == At(old(table), g)
      ensures forall i :: 0 <= i < PAGES && old(table)[i].Some? ==> table[i].Some?
    {
      if table[index].None? {
        table := table[index := Some(seq(SLOTS, i => [NONE]))];
      }
    }

    /** Searches a chain and brings the region that is hit to its head. */
    method FindRegion(g: nat, p: Addr) returns (found: Region)
      requires Valid() && g == p / GRANULE && !Hit(At(table, g)[0], p)
      modifies this`table
      ensures Valid() && Answers(live, p, found)
      ensures found != NONE ==> table[g / SLOTS].Some? && At(table, g)[0] == found
      ensures forall k :: 0 <= k < PAGES && old(table)[k].Some? ==> table[k].Some?
    {
      hide Meets, NoDuplicates;
      var c := At(table, g);
      var i := 0;
      while i < |c|
        invariant i <= |c| && table == old(table)
        invariant forall j :: 0 <= j < i ==> !Hit(c[j], p)
      {
        if Hit(c[i], p) {
          HitAnswers(c, live, p, i);
          SwapLists(c, i, g, live);
          StoredAt(table, g, Swapped(c, i));
          table := Stored(table, g, Swapped(c, i));
          return c[i];
        }
        i := i + 1;
      }
      forall r | r in live ensures !(r.start <= p <= End(r)) {
        NoHitNoRegion(c, live, p, r);
      }
      found := NONE;
    }

    /** The common beginning of every checked operation: the region an address is in. */
    method Lookup(p: Addr) returns (e: Region)
      requires Valid()
      modifies this`table
      ensures Valid() && Answers(live, p, e)
      ensures e != NONE ==> table[p / GRANULE / SLOTS].Some? && At(table, p / GRANULE)[0] == e
      ensures forall k :: 0 <= k < PAGES && old(table)[k].Some? ==> table[k].Some?
    {
      hide Meets, NoDuplicates;
      GranuleOf(p);
      var g := p / GRANULE;
      var c := At(table, g);
      e := c[0];
      if !Hit(e, p) {
        e := FindRegion(g, p);
      } else {
        HitAnswers(c, live, p, 0);
      }
    }

    /** Pointer arithmetic from inside a region may reach the region's end but not pass it. */
    method PtrAdd(p: Addr, offset: int) returns (q: Addr)
      requires Valid() && -0x8000_0000 <= offset < 0x8000_0000
      modifies this`table
      ensures Valid()
      ensures forall r :: r in live && r.start <= p <= End(r) ==>
        q == if (p + offset - r.start) % 0x1_0000_0000 <= r.size then (p + offset) % 0x1_0000_0000 else 0xffff_fffe
      ensures (forall r :: r in live ==> !(r.start <= p <= End(r))) ==> q == (p + offset) % 0x1_0000_0000
    {
      var e := Lookup(p);
      AnswerOnly(live, p, e);
      var addr := (p - e.start) % SPACE;
      addr := (addr + offset) % SPACE;
      if addr > e.size {
        return INVALID_POINTER;
      }
      q := (p + offset) % SPACE;
    }

    /** An access of dsize bytes has to lie inside the region. */
    method PtrIndir(p: Addr, offset: int, dsize: nat) returns (q: Addr)
      requires Valid() && -0x8000_0000 <= offset < 0x8000_0000
      modifies this`table
      ensures Valid()
      ensures forall r :: r in live && r.start <= p <= End(r) ==>
        q == if (p + offset + dsize - r.start) % 0x1_0000_0000 <= r.size then (p + offset) % 0x1_0000_0000 else 0xffff_fffe
      ensures (forall r :: r in live ==> !(r.start <= p <= End(r))) ==> q == (p + offset) % 0x1_0000_0000
    {
      var e := Lookup(p);
      AnswerOnly(live, p, e);
      var addr := (p - e.start) % SPACE;
      addr := (addr + offset + dsize) % SPACE;
      if addr > e.size {
        return INVALID_POINTER;
      }
      q := (p + offset) % SPACE;
    }

    method GetRegionSize(p: Addr) returns (size: Addr)
      requires Valid()
      modifies this`table
      ensures Valid()
      ensures forall r :: r in live && r.start == p ==> size == r.size
      ensures !StartsAt(live, p) ==> size == 0xffff_ffff
    {
      var e := Lookup(p);
      AnswerOnly(live, p, e);
      if e.start != p {
        return EMPTY_SIZE;
      }
      size := e.size;
    }

    /** Overwrites the head entries of the granules in [from, to), all in one page. */
    method WriteHeads(from: nat, to: nat, head: Region)
      requires Shaped(table) && from <= to <= PAGES * SLOTS
      requires from < to ==> table[from / SLOTS].Some? && from / SLOTS == (to - 1) / SLOTS
      requires forall g :: from <= g < to ==> At(table, g) != []
      modifies this`table
      ensures Shaped(table)
      ensures forall g :: 0 <= g < PAGES * SLOTS ==> At(table, g) == if from <= g < to then [head] + At(old(table), g)[1..] else At(old(table), g)
      ensures forall k :: 0 <= k < PAGES && old(table)[k].Some? ==> table[k].Some?
    {
      hide At, Stored;
      var g := from;
      while g < to
        invariant from <= g <= to && Shaped(table)
        invariant from < to ==> table[from / SLOTS].Some?
        invariant forall h :: 0 <= h < PAGES * SLOTS ==> At(table, h) == if from <= h < g then [head] + At(old(table), h)[1..] else At(old(table), h)
        invariant forall k :: 0 <= k < PAGES && old(table)[k].Some? ==> table[k].Some?
      {
        SamePage(from, g, to);
        var c := At(table, g);
        StoredAt(table, g, [head] + c[1..]);
        StoredPages(table, g, [head] + c[1..]);
        table := Stored(table, g, [head] + c[1..]);
        g := g + 1;
      }
    }

    /** The same, where the new heads are right for the new set of regions. */
    method FillHeads(from: nat, to: nat, head: Region, ghost before: set<Region>, ghost after: set<Region>, ghost a: nat)
      requires Shaped(table) && a <= from <= to <= PAGES * SLOTS
      requires from < to ==> table[from / SLOTS].Some? && from / SLOTS == (to - 1) / SLOTS
      requires Between(table, before, after, a, from)
      requires forall g: nat, c: Chain {:trigger Lists(c, g, before)} :: from <= g < to && Lists(c, g, before) ==>
        c != [] && Lists([head] + c[1..], g, after)
      modifies this`table
      ensures Shaped(table) && Between(table, before, after, a, to)
      ensures forall k :: 0 <= k < PAGES && old(table)[k].Some? ==> table[k].Some?
    {
      hide Lists, Meets, At;
      assert forall g :: from <= g < to ==> Lists(At(table, g), g, before);
      WriteHeads(from, to, head);
    }

    /** Whole pages between the first and the last one. */
    method FillPages(from: nat, to: nat, head: Region, ghost before: set<Region>, ghost after: set<Region>, ghost a: nat)
      requires Shaped(table) && from <= to <= PAGES && a <= from * SLOTS
      requires Between(table, before, after, a, from * SLOTS)
      requires forall g: nat, c: Chain {:trigger Lists(c, g, before)} :: from * SLOTS <= g < to * SLOTS && Lists(c, g, before) ==>
        c != [] && Lists([head] + c[1..], g, after)
      modifies this`table
      ensures Shaped(table) && Between(table, before, after, a, to * SLOTS)
    {
      hide Lists, Between, At;
      var i := from;
      while i < to
        invariant from <= i <= to && Shaped(table) && Between(table, before, after, a, i * SLOTS)
      {
        PageFor(i, before, after, a, i * SLOTS);
        FillHeads(i * SLOTS, (i + 1) * SLOTS, head, before, after, a);
        i := i + 1;
      }
    }

    /** `add_region` on one granule. */
    method AddAt(g: nat, r: Region, ghost before: set<Region>, ghost after: set<Region>, ghost a: nat)
      requires Shaped(table) && a <= g < PAGES * SLOTS && table[g / SLOTS].Some?
      requires Between(table, before, after, a, g)
      requires forall c: Chain :: Lists(c, g, before) ==> c != [] && Lists(AddRegion(c, r), g, after)
      modifies this`table
      ensures Shaped(table) && Between(table, before, after, a, g + 1) && table[g / SLOTS].Some?
    {
      hide Lists, Meets, AddRegion;
      var c := At(table, g);
      assert Lists(c, g, before);
      BetweenStep(table, before, after, a, g, AddRegion(c, r));
      table := Stored(table, g, AddRegion(c, r));
    }

    /** Enters a region; it must not be there already, not even in part. */
    method NewRegion(p: Addr, size: Addr)
      requires Valid() && 0 < p && p + size < SPACE
      requires forall r :: r in live ==> Disjoint(Region(p, size), r)
      modifies this
      ensures Valid() && live == old(live) + {Region(p, size)}
    {
      hide Lists, Meets, NoDuplicates, AddRegion, Between, Represents, At, WellFormed;
      var r := Region(p, size);
      var end := p + size;
      GranuleOf(p);
      GranuleOf(end);
      ghost var before, after := live, live + {r};
      var g1, g2 := p / GRANULE, end / GRANULE;
      var t1Start, t1End := p / (GRANULE * SLOTS), end / (GRANULE * SLOTS);
      NewAtEnds(before, r);
      NewInside(before, r);
      BetweenStart(table, before, after, g1);
      PageFor(t1Start, before, after, g1, g1);
      AddAt(g1, r, before, after, g1);
      if t1End == t1Start {
        if g2 > g1 {
          FillHeads(g1 + 1, g2, r, before, after, g1);
          AddAt(g2, r, before, after, g1);
        }
      } else {
        FillHeads(g1 + 1, (t1Start + 1) * SLOTS, r, before, after, g1);
        FillPages(t1Start + 1, t1End, r, before, after, g1);
        PageFor(t1End, before, after, g1, t1End * SLOTS);
        FillHeads(t1End * SLOTS, g2, r, before, after, g1);
        AddAt(g2, r, before, after, g1);
      }
      Finish(table, before, after, r);
      live := after;
    }

    /** `delete_region`: walks a chain to the entry that p hits and unlinks it. */
    method RemoveEntry(c: Chain, p: Addr) returns (d: Chain)
      requires c != []
      ensures d == Remove(c, p)
    {
      hide Hit, RemoveLater;
      if Hit(c[0], p) {
        return if |c| == 1 then [NONE] else c[1..];
      }
      var e := 1;
      while e < |c|
        invariant 1 <= e <= |c|
        invariant forall j :: 1 <= j < e ==> !Hit(c[j], p)
      {
        if Hit(c[e], p) {
          RemoveLaterAt(c[1..], p, e - 1);
          assert [c[0]] + (c[1..][..e - 1] + c[1..][e..]) == c[..e] + c[e + 1..];
          return c[..e] + c[e + 1..];
        }
        e := e + 1;
      }
      RemoveLaterNone(c[1..], p);
      assert [c[0]] + c[1..] == c;
      d := c;
    }

    method DeleteAt(g: nat, p: Addr)
      requires Shaped(table) && g < PAGES * SLOTS && table[g / SLOTS].Some? && At(table, g) != []
      modifies this`table
      ensures Shaped(table)
      ensures forall h :: 0 <= h < PAGES * SLOTS ==> At(table, h) == if h == g then Remove(At(old(table), g), p) else At(old(table), h)
      ensures forall k :: 0 <= k < PAGES && old(table)[k].Some? ==> table[k].Some?
    {
      hide At, Stored;
      var d := RemoveEntry(At(table, g), p);
      StoredAt(table, g, d);
      StoredPages(table, g, d);
      table := Stored(table, g, d);
    }

    /** The same inside a deletion that has reached granule g. */
    method RemoveAt(g: nat, r: Region, ghost before: set<Region>, ghost a: nat)
      requires Shaped(table) && a <= g < PAGES * SLOTS && table[g / SLOTS].Some?
      requires WellFormed(before) && r in before && Meets(r, g)
      requires Between(table, before, before - {r}, a, g)
      modifies this`table
      ensures Shaped(table) && Between(table, before, before - {r}, a, g + 1)
      ensures forall k :: 0 <= k < PAGES && old(table)[k].Some? ==> table[k].Some?
    {
      hide Lists, Meets, At, Remove, WellFormed;
      assert Lists(At(table, g), g, before);
      RemoveStep(At(table, g), g, before, r);
      DeleteAt(g, r.start);
    }

    /** The end of a deletion that spans pages, with the byte offset t2End taken for a page number. */
    method DeleteLastPage(r: Region, ghost before: set<Region>, t1End: nat, t2End: nat) returns (status: Deletion)
      requires Shaped(table) && WellFormed(before) && r in before && Proper(r)
      requires First(r) / SLOTS < t1End == LastGranule(r) / SLOTS < PAGES && t2End == LastOffset(r)
      requires Between(table, before, before - {r}, First(r), t1End * SLOTS)
      modifies this`table
      ensures Shaped(table) && status != NotFound
      ensures t2End == t1End ==> status == Deleted && Between(table, before, before - {r}, First(r), LastGranule(r) + 1)
      ensures t2End != t1End ==> !Represents(table, before - {r})
    {
      hide Lists, NoDuplicates, Between, Represents, At, WellFormed;
      ghost var after, g1 := before - {r}, First(r);
      var slot := t2End / 16;
      PageBounds(r, t1End);
      StillListed(table, before, r, g1, t1End * SLOTS);
      if t2End >= PAGES {
        return OutOfTable;
      }
      PageFor(t2End, before, after, g1, t1End * SLOTS);
      BetweenNonempty(table, before, after, g1, t1End * SLOTS);
      if t2End == t1End {
        DeleteInside(before, r);
        FillHeads(t1End * SLOTS, t1End * SLOTS + slot, NONE, before, after, g1);
        RemoveAt(t1End * SLOTS + slot, r, before, g1);
      } else {
        StillListed(table, before, r, g1, t1End * SLOTS);
        OtherPage(t2End, t1End, slot);
        WriteHeads(t2End * SLOTS, t2End * SLOTS + slot, NONE);
        DeleteAt(t2End * SLOTS + slot, r.start);
        StaleStays(table, after, t1End * SLOTS);
      }
      status := Deleted;
    }

    /** Deletes the region that starts at p, except for what the last page keeps of it when it is not `Deletable`. */
    method DeleteRegion(p: Addr) returns (status: Deletion)
      requires Valid()
      modifies this
      ensures Shaped(table) && (status == NotFound <==> !StartsAt(old(live), p))
      ensures status == NotFound ==> Valid() && live == old(live)
      ensures forall r :: r in old(live) && r.start == p ==>
        live == old(live) - {r} && (Valid() <==> Deletable(r))
      ensures status == OutOfTable ==> exists r :: r in old(live) && r.start == p && !Deletable(r)
    {
      hide Lists, Meets, NoDuplicates, Between, Represents, At, WellFormed, Answers;
      var r := Lookup(p);
      LookupExact(live, p, r);
      if r.size == EMPTY_SIZE || p != r.start {
        return NotFound;
      }
      var end := p + r.size;
      GranuleOf(p);
      GranuleOf(end);
      ghost var before, after := live, live - {r};
      var g1, g2 := p / GRANULE, end / GRANULE;
      var t1Start, t1End := p / (GRANULE * SLOTS), end / (GRANULE * SLOTS);
      var t2End := g2 % SLOTS * 16;
      live := after;
      DeleteInside(before, r);
      BetweenStart(table, before, after, g1);
      status := Deleted;
      RemoveAt(g1, r, before, g1);
      if t1End == t1Start {
        if g2 > g1 {
          FillHeads(g1 + 1, g2, NONE, before, after, g1);
          RemoveAt(g2, r, before, g1);
        }
      } else {
        FillHeads(g1 + 1, (t1Start + 1) * SLOTS, NONE, before, after, g1);
        FillPages(t1Start + 1, t1End, NONE, before, after, g1);
        status := DeleteLastPage(r, before, t1End, t2End);
        if t2End != t1End {
          return;
        }
      }
      Finish(table, before, after, r);
    }

    /** A page that may have to be created first. */
    method PageFor(index: nat, ghost before: set<Region>, ghost after: set<Region>, ghost a: nat, ghost b: nat)
      requires Shaped(table) && index < PAGES && Between(table, before, after, a, b)
      modifies this`table
      ensures Shaped(table) && table[index].Some? && Between(table, before, after, a, b)
    {
      hide Lists;
      GetPage(index);
    }
  }

  /** The answer of a lookup: the live region that has p, or nothing. */
  ghost predicate Answers(live: set<Region>, p: Addr, e: Region) {
    if e == NONE then forall r :: r in live ==> !(r.start <= p <= End(r))
    else e in live && e.start <= p <= End(e)
  }

  lemma AnswerOnly(live: set<Region>, p: Addr, e: Region)
    requires WellFormed(live) && Answers(live, p, e)
    ensures forall r :: r in live && r.start <= p <= End(r) ==> r == e
    ensures forall r :: r in live && r.start == p ==> r == e
    ensures e.start == p && e != NONE ==> e in live
  {
    forall r | r in live && r.start == p ensures r.start <= p <= End(r) {
    }
  }

  lemma HitAnswers(c: Chain, live: set<Region>, p: Addr, i: nat)
    requires WellFormed(live) && Lists(c, p / GRANULE, live) && i < |c| && Hit(c[i], p)
    ensures Answers(live, p, c[i])
  {
    if c == [NONE] {
      forall r | r in live ensures !(r.start <= p <= End(r)) {
      }
    } else {
      assert c[i] in c;
      HitInside(c[i], p);
    }
  }

  lemma SamePage(from: nat, g: nat, to: nat)
    requires from <= g < to && from / SLOTS == (to - 1) / SLOTS
    ensures g / SLOTS == from / SLOTS
  {
  }

  lemma BetweenStart(t: Table, before: set<Region>, after: set<Region>, a: nat)
    requires Shaped(t) && Represents(t, before)
    ensures Between(t, before, after, a, a)
  {
  }

  lemma NewAtEnds(live: set<Region>, r: Region)
    requires WellFormed(live) && Proper(r) && forall s :: s in live ==> Disjoint(r, s)
    ensures r !in live && WellFormed(live + {r})
    ensures forall g: nat, c: Chain {:trigger Lists(c, g, live)} :: Lists(c, g, live) && (g == First(r) || g == LastGranule(r)) ==>
      c != [] && Lists(AddRegion(c, r), g, live + {r})
  {
    forall g: nat, c: Chain {:trigger Lists(c, g, live)} | Lists(c, g, live) && (g == First(r) || g == LastGranule(r))
      ensures c != [] && Lists(AddRegion(c, r), g, live + {r})
    {
      AddStep(c, g, live, r);
    }
  }

  lemma NewInside(live: set<Region>, r: Region)
    requires WellFormed(live) && Proper(r) && forall s :: s in live ==> Disjoint(r, s)
    ensures forall g: nat, c: Chain {:trigger Lists(c, g, live)} :: Lists(c, g, live) && First(r) < g < LastGranule(r) ==>
      c != [] && Lists([r] + c[1..], g, live + {r})
  {
    forall g: nat, c: Chain {:trigger Lists(c, g, live)} | Lists(c, g, live) && First(r) < g < LastGranule(r)
      ensures c != [] && Lists([r] + c[1..], g, live + {r})
    {
      InteriorStep(c, g, live, r);
    }
  }

  lemma StoredPages(t: Table, g: nat, c: Chain)
    requires Shaped(t) && g < PAGES * SLOTS && t[g / SLOTS].Some?
    ensures forall k :: 0 <= k < PAGES ==> (t[k].Some? <==> Stored(t, g, c)[k].Some?)
  {
  }

  lemma LookupExact(live: set<Region>, p: Addr, e: Region)
    requires WellFormed(live) && Answers(live, p, e)
    ensures e.size == EMPTY_SIZE || p != e.start <==> !StartsAt(live, p)
    ensures forall r :: r in live && r.start == p ==> r == e
    ensures StartsAt(live, p) ==> e in live && Proper(e) && Meets(e, First(e)) && Meets(e, LastGranule(e)) && WellFormed(live - {e})
  {
    AnswerOnly(live, p, e);
  }

  lemma DeleteInside(live: set<Region>, r: Region)
    requires WellFormed(live) && r in live
    ensures forall g: nat, c: Chain {:trigger Lists(c, g, live)} :: Lists(c, g, live) && First(r) < g < LastGranule(r) ==>
      c != [] && Lists([NONE] + c[1..], g, live - {r})
  {
    forall g: nat, c: Chain {:trigger Lists(c, g, live)} | Lists(c, g, live) && First(r) < g < LastGranule(r)
      ensures c != [] && Lists([NONE] + c[1..], g, live - {r})
    {
      InteriorAlone(c, g, live, r);
    }
  }

  /** A granule the deletion has not reached still lists the region. */
  lemma StillListed(t: Table, before: set<Region>, r: Region, a: nat, b: nat)
    requires Shaped(t) && r in before && Between(t, before, before - {r}, a, b)
    requires a <= b < PAGES * SLOTS && b % SLOTS == 0 && First(r) <= b <= LastGranule(r)
    ensures !Lists(At(t, b), b, before - {r})
    ensures !Represents(t, before - {r})
  {
    assert Lists(At(t, b), b, before) && Meets(r, b);
    assert r in At(t, b);
  }

  lemma BetweenNonempty(t: Table, before: set<Region>, after: set<Region>, a: nat, b: nat)
    requires Shaped(t) && Between(t, before, after, a, b)
    ensures forall g :: 0 <= g < PAGES * SLOTS ==> At(t, g) != []
  {
    hide At;
    forall g | 0 <= g < PAGES * SLOTS ensures At(t, g) != [] {
      assert Lists(At(t, g), g, if a <= g < b then after else before);
    }
  }

  lemma OtherPage(wrong: nat, right: nat, slot: nat)
    requires wrong != right && slot < SLOTS && wrong < PAGES && right < PAGES
    ensures (wrong * SLOTS + slot) / SLOTS == wrong && wrong * SLOTS / SLOTS == wrong
    ensures slot > 0 ==> (wrong * SLOTS + slot - 1) / SLOTS == wrong
    ensures !(wrong * SLOTS <= right * SLOTS <= wrong * SLOTS + slot)
  {
  }

  lemma StaleStays(t: Table, after: set<Region>, g: nat)
    requires Shaped(t) && g < PAGES * SLOTS && !Lists(At(t, g), g, after)
    ensures !Represents(t, after)
  {
  }

  lemma PageBounds(r: Region, last: nat)
    requires Proper(r) && First(r) / SLOTS < last == LastGranule(r) / SLOTS
    ensures First(r) < last * SLOTS <= LastGranule(r) == last * SLOTS + LastOffset(r) / 16 < PAGES * SLOTS
    ensures LastOffset(r) / 16 < SLOTS && Meets(r, LastGranule(r))
  {
  }

  /** The comparison of the code for a pointer of region r moved by some bytes. */
  predicate Accepted(r: Region, p: Addr, bytes: int) { (p + bytes - r.start) % SPACE <= r.size }

  /** The wrapping comparison means 'stays in the region' for every pointer and offset exactly if the region is smaller than 2^31. */
  lemma AddExact(r: Region)
    requires Proper(r)
    ensures r.size < 0x8000_0000 <==>
      forall p: Addr, offset: int :: r.start <= p <= End(r) && -0x8000_0000 <= offset < 0x8000_0000 ==>
        (Accepted(r, p, offset) <==> r.start <= p + offset <= End(r))
  {
    if r.size >= 0x8000_0000 {
      assert Accepted(r, r.start, -0x8000_0000);
    }
  }

  predicate AccessAccepted(r: Region, p: Addr, offset: int, dsize: nat) { Accepted(r, p, offset + dsize) }

  /** For the end of an access of dsize bytes it does so exactly if region and access together have at most 2^31 bytes. */
  lemma IndirExact(r: Region, dsize: nat)
    requires Proper(r) && 0 < dsize <= 16
    ensures r.size + dsize <= 0x8000_0000 <==>
      forall p: Addr, offset: int :: r.start <= p <= End(r) && -0x8000_0000 <= offset < 0x8000_0000 ==>
        (AccessAccepted(r, p, offset, dsize) <==> r.start <= p + offset + dsize <= End(r))
  {
    if r.size + dsize > 0x8000_0000 {
      assert AccessAccepted(r, r.start + 0x8000_0001 - dsize, 0x7fff_ffff, dsize);
    }
  }

  /**
    An access is accepted although it is not inside the region exactly when it begins
    below the region and ends in it: only the end of the access is compared.
   */
  lemma IndirStraddles(r: Region, p: Addr, offset: int, dsize: nat)
    requires Proper(r) && 0 < dsize <= 16 && r.size + dsize <= 0x8000_0000
    requires r.start <= p <= End(r) && -0x8000_0000 <= offset < 0x8000_0000
    ensures r.start <= p + offset && p + offset + dsize <= End(r) ==> AccessAccepted(r, p, offset, dsize)
    ensures AccessAccepted(r, p, offset, dsize) && !(r.start <= p + offset && p + offset + dsize <= End(r)) <==>
      p + offset < r.start <= p + offset + dsize <= End(r)
  {
    var x := p + offset + dsize - r.start;
    assert x % SPACE == if x < 0 then x + SPACE else x;
  }

  /** Eight bytes from four bytes below a region on. */
  lemma IndirExample()
    ensures var r, p, offset := Region(0x80000, 0x100), 0x80000, -4;
      Proper(r) && r.start <= p <= End(r) && AccessAccepted(r, p, offset, 8) && p + offset < r.start
  {
  }

  /** A region that ends in the first level's second page, where its last entry is the second of that page. */
  lemma UndeletableExample()
    ensures Proper(Region(0x7FF00, 0x200)) && !Deletable(Region(0x7FF00, 0x200))
  {
  }

  /** Entered into an empty table and deleted again, it is still listed. */
  method DeletedButListed() returns (b: Bounds)
    ensures fresh(b) && b.live == {} && Shaped(b.table) && !Represents(b.table, b.live)
  {
    b := new Bounds();
    b.NewRegion(0x7FF00, 0x200);
    UndeletableExample();
    ghost var r := Region(0x7FF00, 0x200);
    assert r in b.live && b.live == {r};
    var status := b.DeleteRegion(0x7FF00);
  }
}
