/**
  `sort_syms` of tcc_10/tccelf.c: local symbols are moved before the others, as 'Symbol
  Table' in chapter 4 of the System V gABI demands, and every relocation that names a
  symbol of the table is renumbered in place.
 */
module ElfSort {
  import opened ElfEntry
  import opened ElfSymbolTable

  const SHT_REL := 9

  /** Elf32_Rel: the symbol index sits above eight bits of type. */
  datatype Rel = Rel(offset: int, info: nat)

  function RelSym(r: Rel): nat { r.info / 256 }

  function RelType(r: Rel): nat { r.info % 256 }

  /** ELF32_R_INFO, in 32 bits. */
  function RelInfo(sym: nat, typ: nat): (info: nat)
    ensures info < 0x1_0000_0000
  {
    (sym * 256 + typ % 256) % 0x1_0000_0000
  }

  predicate Local(s: Sym) { Bind(s.info) == STB_LOCAL }

  function Locals(v: seq<Sym>): (r: seq<Sym>)
    ensures |r| <= |v|
  {
    if v == [] then []
    else
      var rest := Locals(v[..|v| - 1]);
      if Local(v[|v| - 1]) then rest + [v[|v| - 1]] else rest
  }

  function NonLocals(v: seq<Sym>): (r: seq<Sym>)
    ensures |r| + |Locals(v)| == |v|
  {
    if v == [] then []
    else
      var rest := NonLocals(v[..|v| - 1]);
      if Local(v[|v| - 1]) then rest else rest + [v[|v| - 1]]
  }

  function Partition(v: seq<Sym>): seq<Sym> { Locals(v) + NonLocals(v) }

  function NewIndex(v: seq<Sym>, i: nat): nat
    requires i < |v|
  {
    if Local(v[i]) then |Locals(v[..i])| else |Locals(v)| + |NonLocals(v[..i])|
  }

  lemma Snoc(v: seq<Sym>, i: nat)
    requires i < |v|
    ensures v[..i + 1][..i] == v[..i] && v[..i + 1][i] == v[i]
    ensures Locals(v[..i + 1]) == Locals(v[..i]) + if Local(v[i]) then [v[i]] else []
    ensures NonLocals(v[..i + 1]) == NonLocals(v[..i]) + if Local(v[i]) then [] else [v[i]]
  {
    assert v[..i + 1][..i] == v[..i];
  }

  /** The filtered prefix is a prefix of the filtered sequence. */
  lemma {:induction false} PrefixKept(v: seq<Sym>, i: nat, j: nat)
    requires i <= j <= |v|
    ensures Locals(v[..i]) <= Locals(v[..j]) && NonLocals(v[..i]) <= NonLocals(v[..j])
    decreases j
  {
    if i < j {
      PrefixKept(v, i, j - 1);
      Snoc(v, j - 1);
    }
  }

  /** The record of every symbol is found again at its new index. */
  lemma NewIndexRight(v: seq<Sym>, i: nat)
    requires i < |v|
    ensures NewIndex(v, i) < |v| && Partition(v)[NewIndex(v, i)] == v[i]
    ensures NewIndex(v, i) < |Locals(v)| <==> v[i].info / 16 == 0
  {
    Snoc(v, i);
    PrefixKept(v, i + 1, |v|);
    assert v[..|v|] == v;
  }

  /** Locals come first, order within either class is kept; so the new indices are distinct. */
  lemma NewIndexOrder(v: seq<Sym>, i: nat, j: nat)
    requires i < j < |v|
    ensures NewIndex(v, i) != NewIndex(v, j)
    ensures NewIndex(v, j) < NewIndex(v, i) <==> !Local(v[i]) && Local(v[j])
  {
    NewIndexRight(v, i);
    NewIndexRight(v, j);
    Snoc(v, i);
    PrefixKept(v, i + 1, j);
  }

  lemma {:induction false} PartitionPermutes(v: seq<Sym>)
    ensures multiset(Partition(v)) == multiset(v)
  {
    if v != [] {
      var n := |v| - 1;
      PartitionPermutes(v[..n]);
      assert v == v[..n] + [v[n]];
    }
  }

  lemma {:induction false} FilterClass(v: seq<Sym>)
    ensures forall k :: 0 <= k < |Locals(v)| ==> Local(Locals(v)[k])
    ensures forall k :: 0 <= k < |NonLocals(v)| ==> !Local(NonLocals(v)[k])
  {
    if v != [] { FilterClass(v[..|v| - 1]); }
  }

  /** Exactly the first sh_info symbols of the sorted table have the binding 0, local. */
  lemma LocalsFirst(v: seq<Sym>, k: nat)
    requires k < |v|
    ensures Partition(v)[k].info / 16 == 0 <==> k < |Locals(v)|
  {
    FilterClass(v);
  }

  /** Sorting a table that is sorted changes nothing. */
  lemma SortedStays(v: seq<Sym>, n: nat)
    requires n <= |v|
    requires forall k :: 0 <= k < |v| ==> (Local(v[k]) <==> k < n)
    ensures Partition(v) == v && forall i :: 0 <= i < |v| ==> NewIndex(v, i) == i
  {
    forall i | 0 <= i <= |v|
      ensures Locals(v[..i]) == v[..if i < n then i else n] && NonLocals(v[..i]) == v[if i < n then i else n..i]
    {
      SplitAt(v, n, i);
    }
    assert v[..|v|] == v && v[..n] + v[n..] == v;
    SplitAt(v, n, |v|);
  }

  lemma {:induction false} SplitAt(v: seq<Sym>, n: nat, i: nat)
    requires n <= |v| && i <= |v|
    requires forall k :: 0 <= k < |v| ==> (Local(v[k]) <==> k < n)
    ensures Locals(v[..i]) == v[..if i < n then i else n] && NonLocals(v[..i]) == v[if i < n then i else n..i]
    decreases i
  {
    hide Locals, NonLocals;
    PrefixEmpty(v);
    if i > 0 {
      SplitAt(v, n, i - 1);
      Snoc(v, i - 1);
    }
  }

  function Renumber(v: seq<Sym>, r: Rel): Rel
    requires RelSym(r) < |v|
  {
    r.(info := RelInfo(NewIndex(v, RelSym(r)), RelType(r)))
  }

  /** A renumbered relocation names the same record, with the same type and place. */
  lemma RelocationKept(v: seq<Sym>, r: Rel)
    requires r.info / 256 < |v| <= 0x100_0000
    ensures var r' := Renumber(v, r);
      && r'.info / 256 < |v| && Partition(v)[r'.info / 256] == v[r.info / 256]
      && r'.info % 256 == r.info % 256 && r'.offset == r.offset
  {
    NewIndexRight(v, RelSym(r));
  }

  class SymSection {
    const data: array<Sym>
    var shInfo: int

    constructor (n: nat, init: Sym)
      ensures fresh(data) && data.Length == n
    {
      data := new Sym[n](_ => init);
      shInfo := 0;
    }
  }

  class RelSection {
    const shType: int
    const link: SymSection?
    const rels: array<Rel>

    constructor (shType: int, link: SymSection?, rels: array<Rel>)
      ensures this.shType == shType && this.link == link && this.rels == rels
    {
      this.shType := shType;
      this.link := link;
      this.rels := rels;
    }
  }

  predicate Linked(sr: RelSection, s: SymSection) { sr.shType == 9 && sr.link == s }

  /** The first pass fills a new array with the local symbols; the old contents stay as they are meanwhile. */
  method LocalPass(s: SymSection, newSyms: array<Sym>, oldToNew: array<nat>) returns (q: nat)
    requires newSyms != s.data && newSyms.Length == oldToNew.Length == s.data.Length
    modifies newSyms, oldToNew
    ensures q <= newSyms.Length && newSyms[..q] == Locals(s.data[..])
    ensures forall k :: 0 <= k < s.data.Length && Local(s.data[k]) ==> oldToNew[k] == NewIndex(s.data[..], k)
  {
    hide Locals, NonLocals, NewIndex, Partition;
    ghost var v := s.data[..];
    var n, i := s.data.Length, 0;
    q := 0;
    PrefixEmpty(v);
    while i < n
      invariant i <= n && q <= i && newSyms[..q] == Locals(v[..i])
      invariant s.data[..] == v
      invariant forall k :: 0 <= k < i && Local(v[k]) ==> oldToNew[k] == NewIndex(v, k)
    {
      Snoc(v, i);
      NewIndexIs(v, i);
      if Bind(s.data[i].info) == STB_LOCAL {
        oldToNew[i] := q;
        newSyms[q] := s.data[i];
        q := q + 1;
      }
      i := i + 1;
    }
    assert v[..n] == v;
  }

  /** Both passes. */
  method SortInto(s: SymSection, newSyms: array<Sym>, oldToNew: array<nat>) returns (locals: nat)
    requires newSyms != s.data && newSyms.Length == oldToNew.Length == s.data.Length
    modifies newSyms, oldToNew
    ensures newSyms[..] == Partition(s.data[..]) && locals == |Locals(s.data[..])|
    ensures forall i :: 0 <= i < s.data.Length ==> oldToNew[i] == NewIndex(s.data[..], i)
  {
    hide Locals, NonLocals, NewIndex, Partition;
    ghost var v := s.data[..];
    var n, i := s.data.Length, 0;
    locals := LocalPass(s, newSyms, oldToNew);
    var q := locals;
    PrefixEmpty(v);
    while i < n
      invariant i <= n && locals == |Locals(v)| && q == locals + |NonLocals(v[..i])|
      invariant q <= n && newSyms[..q] == Locals(v) + NonLocals(v[..i])
      invariant s.data[..] == v
      invariant forall k :: 0 <= k < n && (k < i || Local(v[k])) ==> oldToNew[k] == NewIndex(v, k)
    {
      Snoc(v, i);
      NewIndexIs(v, i);
      PrefixKept(v, i + 1, n);
      assert v[..n] == v;
      if Bind(s.data[i].info) != STB_LOCAL {
        oldToNew[i] := q;
        newSyms[q] := s.data[i];
        q := q + 1;
      }
      i := i + 1;
    }
    assert v[..n] == v;
    PartitionIs(v);
  }

  lemma NewIndexIs(v: seq<Sym>, i: nat)
    requires i < |v|
    ensures NewIndex(v, i) == if Local(v[i]) then |Locals(v[..i])| else |Locals(v)| + |NonLocals(v[..i])|
  {
  }

  lemma PartitionIs(v: seq<Sym>)
    ensures Partition(v) == Locals(v) + NonLocals(v)
  {
  }

  lemma PrefixEmpty(v: seq<Sym>)
    ensures v[..0] == [] && Locals(v[..0]) == [] && NonLocals(v[..0]) == []
  {
  }

  method RenumberAll(ghost v: seq<Sym>, sr: RelSection, oldToNew: array<nat>)
    requires oldToNew.Length == |v| && forall i :: 0 <= i < |v| ==> oldToNew[i] == NewIndex(v, i)
    requires forall k :: 0 <= k < sr.rels.Length ==> RelSym(sr.rels[k]) < |v|
    modifies sr.rels
    ensures forall i :: 0 <= i < |v| ==> oldToNew[i] == NewIndex(v, i)
    ensures forall k :: 0 <= k < sr.rels.Length ==> sr.rels[k] == Renumber(v, old(sr.rels[k]))
  {
    hide NewIndex;
    var rel := 0;
    while rel < sr.rels.Length
      invariant rel <= sr.rels.Length
      invariant forall k :: 0 <= k < rel ==> sr.rels[k] == Renumber(v, old(sr.rels[k]))
      invariant forall k :: rel <= k < sr.rels.Length ==> sr.rels[k] == old(sr.rels[k])
    {
      var symIndex := RelSym(sr.rels[rel]);
      var typ := RelType(sr.rels[rel]);
      symIndex := oldToNew[symIndex];
      sr.rels[rel] := sr.rels[rel].(info := RelInfo(symIndex, typ));
      rel := rel + 1;
    }
  }

  /** Sections are numbered from 1; no two of them share their contents. */
  method SortSyms(s: SymSection, sections: seq<RelSection>)
    requires s.data.Length <= 0x100_0000
    requires forall i, j :: 1 <= i < j < |sections| ==> sections[i].rels != sections[j].rels
    requires forall i, k :: 1 <= i < |sections| && Linked(sections[i], s) && 0 <= k < sections[i].rels.Length ==>
      RelSym(sections[i].rels[k]) < s.data.Length
    modifies s, s.data, set i | 1 <= i < |sections| :: sections[i].rels
    ensures s.data[..] == Partition(old(s.data[..])) && s.shInfo == |Locals(old(s.data[..]))|
    ensures forall i, k :: 1 <= i < |sections| && Linked(sections[i], s) && 0 <= k < sections[i].rels.Length ==>
      RelSym(old(sections[i].rels[k])) < |old(s.data[..])|
      && sections[i].rels[k] == Renumber(old(s.data[..]), old(sections[i].rels[k]))
    ensures forall i, k :: 1 <= i < |sections| && !Linked(sections[i], s) && 0 <= k < sections[i].rels.Length ==>
      sections[i].rels[k] == old(sections[i].rels[k])
  {
    hide Locals, NonLocals, NewIndex, Partition, Renumber;
    ghost var v := s.data[..];
    var n := s.data.Length;
    var newSyms := new Sym[n](_ => Sym(0, 0, 0, 0, 0, 0));
    var oldToNew := new nat[n](_ => 0);
    s.shInfo := SortInto(s, newSyms, oldToNew);
    forall i | 0 <= i < n {
      s.data[i] := newSyms[i];
    }
    assert s.data[..] == newSyms[..];
    var i := 1;
    while i < |sections|
      invariant 1 <= i <= |sections| || |sections| < 1
      invariant s.data[..] == Partition(v) && s.shInfo == |Locals(v)|
      invariant forall j :: 0 <= j < n ==> oldToNew[j] == NewIndex(v, j)
      invariant forall j, k :: i <= j < |sections| && 0 <= k < sections[j].rels.Length ==>
        sections[j].rels[k] == old(sections[j].rels[k])
      invariant forall j, k :: 1 <= j < i && j < |sections| && Linked(sections[j], s) && 0 <= k < sections[j].rels.Length ==>
        RelSym(old(sections[j].rels[k])) < n && sections[j].rels[k] == Renumber(v, old(sections[j].rels[k]))
      invariant forall j, k :: 1 <= j < i && j < |sections| && !Linked(sections[j], s) && 0 <= k < sections[j].rels.Length ==>
        sections[j].rels[k] == old(sections[j].rels[k])
    {
      if sections[i].shType == SHT_REL && sections[i].link == s {
        RenumberAll(v, sections[i], oldToNew);
      }
      i := i + 1;
    }
  }
}
