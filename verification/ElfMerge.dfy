/**
  `tcc_load_object_file` of tcc_10/tccelf.c, after the tables of the file have been read:
  sections are appended to the sections of the same name, symbols are entered, and the
  appended relocations are patched in place to their new places and symbols.
 */
module ElfMerge {
  import opened Options
  import opened Memory
  import opened ElfAlign
  import opened ElfEntry
  import opened ElfSymbolTable
  import ElfRelocation
  import ElfResolution
  import ElfSort

  const SHT_PROGBITS := 1
  const SHT_SYMTAB := 2
  const SHT_NOBITS := 8
  const SHT_REL := 9
  const SHN_LORESERVE := 0xff00

  /** A section being linked; number 0 stands for no section. */
  datatype Section = Section(
    name: string, typ: int, align: nat, size: nat, data: seq<Octet>, link: nat, info: nat, reloc: nat)

  /** A section of the input file. */
  datatype Header = Header(name: string, typ: int, align: nat, link: nat, info: nat, size: nat, content: seq<Octet>)

  /** Where an input section went. */
  datatype Merged = Merged(section: nat, offset: nat, isNew: bool)

  /** How loading a file ends; the others end the program. */
  datatype Ending = Loaded | InvalidFile | NullSection | SymbolClash | InvalidRelocation

  const NOWHERE := Merged(0, 0, false)

  datatype InputSymbol = InputSymbol(name: CString, value: int, size: int, info: InfoByte, shndx: nat)

  datatype Input = Input(headers: seq<Header>, strndx: nat, symbols: seq<InputSymbol>)

  predicate Handled(h: Header) { h.typ == SHT_PROGBITS || h.typ == SHT_REL || h.typ == SHT_NOBITS }

  predicate Kept(f: Input, i: nat) { 1 <= i < |f.headers| && i != f.strndx && Handled(f.headers[i]) }

  ghost predicate DistinctNames(f: Input) {
    forall i, j :: 0 <= i < j < |f.headers| && Kept(f, i) && Kept(f, j) ==> f.headers[i].name != f.headers[j].name
  }

  predicate HasContent(s: Section) { s.typ != SHT_NOBITS }

  ghost predicate SectionsOk(ss: seq<Section>) {
    |ss| > 0 && forall k :: 0 <= k < |ss| && HasContent(ss[k]) ==> |ss[k].data| == ss[k].size
  }

  ghost predicate InputOk(f: Input) {
    && (forall i :: 0 <= i < |f.headers| && f.headers[i].typ != SHT_NOBITS ==> |f.headers[i].content| == f.headers[i].size)
    && (forall i :: 0 <= i < |f.headers| ==> f.headers[i].align == 0 || IsPower(f.headers[i].align))
  }

  function AlignOf(h: Header): (a: nat)
    ensures a > 0
  {
    if h.align < 1 then 1 else h.align
  }

  /** What was there stays: names, kinds, and contents as a prefix. */
  ghost predicate Extends(before: Section, after: Section) {
    && after.name == before.name && after.typ == before.typ && before.size <= after.size
    && before.data <= after.data
  }

  /** The section of a name from number k on, 0 if there is none. */
  function FirstFrom(ss: seq<Section>, name: string, k: nat): (j: nat)
    requires k > 0
    ensures j != 0 ==> k <= j < |ss| && ss[j].name == name
    ensures forall i :: k <= i < |ss| && (j == 0 || i < j) ==> ss[i].name != name
    decreases |ss| - k
  {
    if k >= |ss| then 0 else if ss[k].name == name then k else FirstFrom(ss, name, k + 1)
  }

  /** The section that a name stands for. */
  function First(ss: seq<Section>, name: string): nat { FirstFrom(ss, name, 1) }

  lemma FirstStays(was: seq<Section>, now: seq<Section>, name: string)
    requires |was| <= |now| && forall k :: 0 <= k < |was| ==> now[k].name == was[k].name
    ensures First(was, name) != 0 ==> First(now, name) == First(was, name)
    ensures (forall k :: |was| <= k < |now| ==> now[k].name != name) ==> First(now, name) == First(was, name)
    ensures First(was, name) == 0 && 0 < |was| < |now| && now[|was|].name == name ==> First(now, name) == |was|
  {
    hide FirstFrom;
  }

  /** Does a kept section of the file start a new section? */
  predicate Fresh(was: seq<Section>, f: Input, i: nat)
    requires i < |f.headers|
  {
    First(was, f.headers[i].name) == 0
  }

  /** Sections of one name have one type. */
  ghost predicate TypesAgree(was: seq<Section>, f: Input) {
    forall i :: 0 <= i < |f.headers| && Kept(f, i) && !Fresh(was, f, i) ==>
      was[First(was, f.headers[i].name)].typ == f.headers[i].typ
  }

  /** The file's sections from n on will be found where they were, or not at all. */
  ghost predicate Ahead(ss: seq<Section>, was: seq<Section>, f: Input, n: nat) {
    forall i :: n <= i < |f.headers| && Kept(f, i) ==> First(ss, f.headers[i].name) == First(was, f.headers[i].name)
  }

  /** The sections seen so far are those that their names stand for. */
  ghost predicate ByName(ss: seq<Section>, was: seq<Section>, f: Input, sm: seq<Merged>, n: nat) {
    forall i :: 0 <= i < n && i < |sm| && i < |f.headers| && Kept(f, i) ==>
      sm[i].section == First(ss, f.headers[i].name) && (sm[i].isNew <==> Fresh(was, f, i))
  }

  /** Every new section was started by a section of the file. */
  ghost predicate Covered(ss: seq<Section>, was: seq<Section>, f: Input, sm: seq<Merged>, n: nat) {
    forall k :: |was| <= k < |ss| ==> StartedBy(f, sm, n, k)
  }

  ghost predicate StartedBy(f: Input, sm: seq<Merged>, n: nat, k: nat) {
    exists i :: 0 <= i < n && i < |sm| && Kept(f, i) && sm[i].section == k
  }

  /** Links are as they were, and new sections have none yet. */
  ghost predicate Unlinked(ss: seq<Section>, was: seq<Section>) {
    && |was| <= |ss|
    && (forall k :: 0 <= k < |was| ==> ss[k].link == was[k].link && ss[k].info == was[k].info && ss[k].reloc == was[k].reloc)
    && (forall k :: |was| <= k < |ss| ==> ss[k].link == ss[k].info == ss[k].reloc == 0)
  }

  /** The first aligned place behind what a section held. */
  function StartIn(was: seq<Section>, k: nat, h: Header): nat {
    RoundUp(if k < |was| then was[k].size else 0, AlignOf(h))
  }

  /** No section of the file below n went to section k. */
  ghost predicate Free(f: Input, sm: seq<Merged>, n: nat, k: nat) {
    forall i :: 0 <= i < n && i < |sm| && Kept(f, i) ==> sm[i].section != k
  }

  /** Input section i is at the end of its section, aligned and behind what was there. */
  ghost predicate Placed(ss: seq<Section>, was: seq<Section>, h: Header, m: Merged) {
    && 1 <= m.section < |ss|
    && ss[m.section].name == h.name && ss[m.section].typ == h.typ
    && m.offset % AlignOf(h) == 0
    && ss[m.section].size == m.offset + h.size
    && m.offset == StartIn(was, m.section, h) && (m.section < |was| ==> was[m.section].size <= m.offset)
    && (h.typ != SHT_NOBITS ==> m.offset <= |ss[m.section].data| && ss[m.section].data[m.offset..] == h.content)
  }

  ghost predicate Progress(ss: seq<Section>, was: seq<Section>, f: Input, sm: seq<Merged>, symtab: nat, n: nat) {
    && SectionsOk(ss) && |was| <= |ss| && |sm| == |f.headers|
    && (forall k :: 0 <= k < |was| ==> Extends(was[k], ss[k]))
    && (forall k :: 0 <= k < |was| && Free(f, sm, n, k) ==> ss[k].size == was[k].size)
    && (forall i :: 0 <= i < n && Kept(f, i) ==> Placed(ss, was, f.headers[i], sm[i]))
    && (forall i :: 0 <= i < |sm| && !(i < n && Kept(f, i)) ==> sm[i] == StartOf(f, symtab, i))
  }

  /** Before the first pass only symbol tables have a place. */
  function StartOf(f: Input, symtab: nat, i: nat): Merged
    requires i < |f.headers|
  {
    if i > 0 && f.headers[i].typ == SHT_SYMTAB then Merged(symtab, 0, false) else NOWHERE
  }

  function NewSection(h: Header): Section {
    Section(h.name, h.typ, h.align, 0, [], 0, 0, 0)
  }

  function Appended(s: Section, h: Header): Section {
    var offset := RoundUp(s.size, AlignOf(h));
    s.(align := if AlignOf(h) > s.align then AlignOf(h) else s.align,
       size := offset + h.size,
       data := if h.typ == SHT_NOBITS then s.data else s.data + Zeros(offset - s.size) + h.content)
  }

  function Zeros(n: int): (z: seq<Octet>)
    ensures |z| == if n < 0 then 0 else n
  {
    seq(if n < 0 then 0 else n, i => 0)
  }

  class Linker {
    var sections: seq<Section>
    const symtab: SymbolTable
    const symtabNumber: nat

    constructor (symtab: SymbolTable, symtabNumber: nat, sections: seq<Section>)
      ensures this.symtab == symtab && this.symtabNumber == symtabNumber && this.sections == sections
    {
      this.symtab := symtab;
      this.symtabNumber := symtabNumber;
      this.sections := sections;
    }

    /** The section of a name, by linear search. */
    method FindSection(name: string) returns (j: nat)
      ensures j == First(sections, name)
    {
      j := 1;
      while j < |sections|
        invariant 1 <= j && First(sections, name) == FirstFrom(sections, name, j)
      {
        if sections[j].name == name {
          return j;
        }
        j := j + 1;
      }
      j := 0;
    }

    /** The first pass: every section that is handled is appended to the section of its name. */
    method MergeSections(f: Input) returns (ok: bool, sm: seq<Merged>)
      requires SectionsOk(sections) && InputOk(f) && DistinctNames(f)
      modifies this`sections
      ensures ok <==> TypesAgree(old(sections), f)
      ensures ok ==> Progress(sections, old(sections), f, sm, symtabNumber, |f.headers|)
      ensures ok ==> ByName(sections, old(sections), f, sm, |f.headers|) && Unlinked(sections, old(sections))
      ensures ok ==> Covered(sections, old(sections), f, sm, |f.headers|)
      ensures ok ==> forall i :: 0 <= i < |sm| && !Kept(f, i) ==> sm[i] == StartOf(f, symtabNumber, i)
    {
      hide RoundUp, IsPower, Progress, ByName, Ahead, Unlinked, Covered, Appended;
      sm := seq(|f.headers|, i requires 0 <= i < |f.headers| => StartOf(f, symtabNumber, i));
      ghost var was := sections;
      var i := 1;
      MergeStart(was, f, sm, symtabNumber);
      while i < |f.headers|
        invariant 1 <= i && |sm| == |f.headers|
        invariant Progress(sections, was, f, sm, symtabNumber, i)
        invariant ByName(sections, was, f, sm, i) && Ahead(sections, was, f, i) && Unlinked(sections, was)
        invariant Covered(sections, was, f, sm, i)
        invariant forall k :: 0 <= k < i && k < |f.headers| && Kept(f, k) && !Fresh(was, f, k) ==>
          was[First(was, f.headers[k].name)].typ == f.headers[k].typ
        invariant forall k :: 0 <= k < |sm| && !Kept(f, k) ==> sm[k] == StartOf(f, symtabNumber, k)
      {
        var h := f.headers[i];
        if i != f.strndx && Handled(h) {
          var j := FindSection(h.name);
          var isNew := j == 0;
          ghost var before := sections;
          FoundBefore(before, was, f, sm, symtabNumber, i);
          if isNew {
            j := |sections|;
            sections := sections + [NewSection(h)];
          }
          if sections[j].typ != h.typ {
            return false, sm;
          }
          var offset := RoundUp(sections[j].size, AlignOf(h));
          MergeOne(before, was, f, sm, symtabNumber, i, j);
          sections := sections[j := Appended(sections[j], h)];
          assert sections == MergedInto(before, h, j);
          sm := sm[i := Merged(j, offset, isNew)];
        } else {
          MergeNone(sections, was, f, sm, symtabNumber, i);
        }
        i := i + 1;
      }
      MergeEnd(sections, was, f, sm, symtabNumber, i);
      ok := true;
    }

    /** The second pass: links of sections that are new. A relocation section whose target was not kept is fatal. */
    method UpdateLinks(f: Input, sm: seq<Merged>) returns (ok: bool)
      requires Mapped(sections, f, sm)
      modifies this`sections
      ensures ok <==> forall i :: 0 <= i < |sm| && NewRelocation(f, sm, i) ==> TargetOf(f, sm, i) != 0
      ensures ok ==> SameContents(old(sections), sections) && LinkedUp(old(sections), sections, f, sm, |f.headers|)
    {
      hide LinkedUp, SameContents;
      ghost var was := sections;
      var i := 1;
      LinkStart(was, f, sm);
      while i < |f.headers|
        invariant 1 <= i && |sections| == |was|
        invariant SameContents(was, sections) && LinkedUp(was, sections, f, sm, i)
        invariant forall k :: 0 <= k < i && k < |sm| && NewRelocation(f, sm, k) ==> TargetOf(f, sm, k) != 0
      {
        var m, h := sm[i], f.headers[i];
        ghost var before := sections;
        if m.section != 0 && m.isNew {
          if h.link > 0 {
            sections := sections[m.section := sections[m.section].(link := sm[h.link].section)];
          }
          if h.typ == SHT_REL {
            var target := sm[h.info].section;
            if target == 0 {
              assert NewRelocation(f, sm, i) && TargetOf(f, sm, i) == 0;
              return false;
            }
            sections := sections[m.section := sections[m.section].(info := target)];
            sections := sections[target := sections[target].(reloc := m.section)];
          }
        }
        assert sections == LinkOne(before, f, sm, i);
        LinkContents(was, before, f, sm, i);
        LinkStep(was, before, f, sm, i);
        i := i + 1;
      }
      LinkEnd(was, sections, f, sm, i);
      ok := true;
    }

    /** Enters the symbols of the file; symbols of sections that were not kept are left out. */
    method AddSymbols(f: Input, sm: seq<Merged>) returns (ok: bool, oldToNew: seq<nat>)
      requires symtab.Valid() && symtab.hasHash
      requires |sm| == |f.headers| && SymbolSectionsOk(f)
      modifies symtab
      ensures symtab.Valid() && symtab.hasHash && |oldToNew| == |f.symbols|
      ensures var all := EnterAll(old(symtab.Entries()), f, sm, symtab.dynamic, |f.symbols|);
        && ok == all.Some?
        && (ok ==> symtab.Entries() == all.value.0 && oldToNew == all.value.1)
    {
      hide Add, EnterAll, SymbolTable.Valid, SymbolTable.Entries, SymbolTable.Names;
      ghost var v := symtab.Entries();
      oldToNew := seq(|f.symbols|, i => 0);
      if |f.symbols| == 0 {
        EnterShort(v, f, sm, symtab.dynamic);
        return true, oldToNew;
      }
      var i := 1;
      EnterNone(v, f, sm, symtab.dynamic);
      while i < |f.symbols|
        invariant symtab.Valid() && symtab.hasHash && |oldToNew| == |f.symbols|
        invariant 1 <= i <= |f.symbols|
        invariant EnterAll(v, f, sm, symtab.dynamic, i) == Some((symtab.Entries(), oldToNew))
      {
        EnterStep(v, f, sm, symtab.dynamic, i);
        var sym := f.symbols[i];
        if sym.shndx != 0 && sym.shndx < SHN_LORESERVE {
          var m := sm[sym.shndx];
          if m.section == 0 {
            i := i + 1;
            continue;
          }
          sym := sym.(shndx := m.section, value := sym.value + m.offset);
        }
        var index := symtab.AddElfSym(sym.value, sym.size, sym.info, sym.shndx, sym.name);
        if index.None? {
          ok := false;
          EnterFails(v, f, sm, symtab.dynamic, i + 1, |f.symbols|);
          return;
        }
        oldToNew := oldToNew[i := index.value];
        i := i + 1;
      }
      ok := true;
    }

    /** The relocations of one input section, in place. */
    method PatchSection(k: nat, offset: nat, delta: nat, oldToNew: seq<nat>) returns (ok: bool)
      requires k < |sections| && offset <= |sections[k].data| && (|sections[k].data| - offset) % 8 == 0
      modifies this`sections
      ensures |sections| == |old(sections)| && sections == old(sections)[k := old(sections)[k].(data := sections[k].data)]
      ensures ok ==> Patched(old(sections)[k].data, sections[k].data, offset, delta, oldToNew)
      ensures ok <==> EntriesGood(old(sections)[k].data, offset, oldToNew)
    {
      hide Get32, Put32;
      ghost var was := sections[k].data;
      var rel, n := offset, 0;
      while rel < |sections[k].data|
        invariant |sections| == |old(sections)| && sections == old(sections)[k := old(sections)[k].(data := sections[k].data)]
        invariant rel == offset + 8 * n && rel <= |sections[k].data| == |was|
        invariant PatchedUpTo(was, sections[k].data, offset, n, delta, oldToNew)
      {
        var d := sections[k].data;
        EntrySame(was, d, offset, n, delta, oldToNew);
        var typ := Get32(d, rel + 4) % 256;
        var symIndex := Get32(d, rel + 4) / 256;
        if symIndex >= |oldToNew| {
          BadEntry(was, offset, n, oldToNew);
          return false;
        }
        var newIndex := oldToNew[symIndex];
        if newIndex == 0 {
          BadEntry(was, offset, n, oldToNew);
          return false;
        }
        var e := Put32(d, rel + 4, ElfSort.RelInfo(newIndex, typ));
        var g := Put32(e, rel, Mod32(Get32(e, rel) + delta));
        PatchedMore(was, d, e, g, offset, n, delta, oldToNew);
        sections := sections[k := sections[k].(data := g)];
        rel := rel + 8;
        n := n + 1;
      }
      AllGood(was, sections[k].data, offset, n, delta, oldToNew);
      ok := true;
    }

    /** The third pass: every relocation section of the input. */
    method PatchRelocations(f: Input, sm: seq<Merged>, oldToNew: seq<nat>, ghost was: seq<Section>) returns (ok: bool)
      requires Progress(sections, was, f, sm, symtabNumber, |f.headers|) && |sm| == |f.headers|
      requires DistinctNames(f) && RelocationsOk(f) && InputOk(f)
      requires forall i :: 0 <= i < |sm| ==> sm[i].section < |sections|
      requires forall i :: 0 <= i < |sm| && !Kept(f, i) ==>
        (sm[i].section == 0 || sections[sm[i].section].typ != SHT_REL)
      modifies this`sections
      ensures ok <==> RelocationsGood(f, oldToNew, |f.headers|)
      ensures ok ==> AllPatched(old(sections), sections, f, sm, oldToNew, |f.headers|)
    {
      hide Patched, AllPatched, Progress, EntriesGood, InputOk, RelocationsGood;
      ghost var mid := sections;
      var i := 1;
      PatchedFirst(mid, f, sm, oldToNew);
      while i < |f.headers|
        invariant 1 <= i && |sections| == |mid|
        invariant forall k :: 0 <= k < |mid| ==> sections[k].typ == mid[k].typ
        invariant AllPatched(mid, sections, f, sm, oldToNew, i) && RelocationsGood(f, oldToNew, i)
      {
        var m, h := sm[i], f.headers[i];
        ghost var before := sections;
        if m.section != 0 && sections[m.section].typ == SHT_REL {
          PatchReady(mid, sections, was, f, sm, symtabNumber, oldToNew, i);
          ok := PatchSection(m.section, m.offset, sm[h.info].offset, oldToNew);
          GoodContent(mid[m.section].data, h.content, m.offset, oldToNew);
          if !ok {
            GoodFails(f, oldToNew, i);
            return;
          }
        }
        PatchedNext(mid, before, sections, was, f, sm, symtabNumber, oldToNew, i);
        GoodNext(mid, was, f, sm, symtabNumber, oldToNew, i);
        i := i + 1;
      }
      PatchedEnd(mid, sections, f, sm, oldToNew, i);
      ok := true;
    }

    ghost predicate Ready()
      reads this, symtab
    {
      && SectionsOk(sections) && NumbersOk(sections) && symtab.Valid() && symtab.hasHash
      && 0 < symtabNumber < |sections| && sections[symtabNumber].typ == SHT_SYMTAB
    }

    /** The whole merge: how it ends, and where everything is when it was loaded. */
    method Load(f: Input) returns (end: Ending, sm: seq<Merged>, oldToNew: seq<nat>)
      requires Ready() && FileOk(f)
      modifies this`sections, symtab
      ensures symtab.Valid() && symtab.hasHash
      ensures end.InvalidFile? <==> !TypesAgree(old(sections), f)
      ensures end.NullSection? <==> TypesAgree(old(sections), f) && !TargetsMerged(old(sections), f)
      ensures TypesAgree(old(sections), f) && TargetsMerged(old(sections), f) ==>
        && |sm| == |f.headers| && |oldToNew| == |f.symbols|
        && (forall i :: 0 <= i < |sm| ==> (sm[i].section != 0 <==> HasPlace(f, i)))
        && var all := EnterAll(old(symtab.Entries()), f, sm, symtab.dynamic, |f.symbols|);
          && (end.SymbolClash? <==> all.None?)
          && (all.Some? ==> all.value == (symtab.Entries(), oldToNew))
          && (end.InvalidRelocation? <==> all.Some? && !RelocationsGood(f, oldToNew, |f.headers|))
      ensures end.Loaded? ==> Ready() && |sm| == |f.headers| && |oldToNew| == |f.symbols|
      ensures end.Loaded? ==> Preserved(old(sections), sections) && ByName(sections, old(sections), f, sm, |f.headers|)
      ensures end.Loaded? ==> forall i :: 0 <= i < |f.headers| && Kept(f, i) ==> Copied(sections, old(sections), f, sm, i)
      ensures end.Loaded? ==> forall i, e :: 0 <= i < |f.headers| && Kept(f, i) && f.headers[i].typ == SHT_REL && 0 <= 8 * e < f.headers[i].size ==>
        Renumbered(sections, f, sm, oldToNew, i, e)
      ensures end.Loaded? ==> Covered(sections, old(sections), f, sm, |f.headers|) && Relinked(old(sections), sections, f, sm, symtabNumber)
      ensures end.Loaded? ==> forall i :: 0 <= i < |f.headers| && RelocatesKept(f, i) ==>
        (Applied(sections, f, sm, i) <==> Attached(old(sections), f, i))
      ensures end.Loaded? && Tied(old(sections)) ==> Tied(sections)
    {
      hide Progress, SymbolTable.Valid, SymbolTable.Entries, SymbolTable.Names, EnterAll, AllPatched, DistinctNames, Preserved, Copied, Renumbered;
      hide Relinked, Attached, Applied, Tied, RelocationsGood, TypesAgree, TargetsMerged, ByName, Covered, Unlinked, LinkedUp, NumbersOk, SameContents, SectionsOk;
      ghost var was := sections;
      sm, oldToNew := [], [];
      var ok;
      ok, sm := MergeSections(f);
      if !ok {
        end := InvalidFile;
        return;
      }
      ghost var merged := sections;
      MergedShape(merged, was, f, sm, symtabNumber);
      ok := UpdateLinks(f, sm);
      TargetsDecided(merged, was, f, sm, symtabNumber);
      if !ok {
        end := NullSection;
        return;
      }
      LinksOnly(merged, sections, was, f, sm, symtabNumber);
      MergedShape(sections, was, f, sm, symtabNumber);
      ok, oldToNew := AddSymbols(f, sm);
      if !ok {
        end := SymbolClash;
        return;
      }
      ghost var mid := sections;
      ok := PatchRelocations(f, sm, oldToNew, was);
      if !ok {
        end := InvalidRelocation;
        return;
      }
      Outcome(was, mid, sections, f, sm, symtabNumber, oldToNew);
      OutcomeOk(was, mid, sections, f, sm, symtabNumber, oldToNew);
      OutcomeLinks(was, merged, mid, sections, f, sm, symtabNumber, oldToNew);
      end := Loaded;
    }

    /** One file after the other: what each load placed stays there. */
    method LoadAll(fs: seq<Input>) returns (ok: bool, sms: seq<seq<Merged>>, olds: seq<seq<nat>>, ghost states: seq<seq<Section>>)
      requires Ready() && forall f :: f in fs ==> FileOk(f)
      modifies this`sections, symtab
      ensures symtab.Valid()
      ensures ok ==> Ready() && Preserved(old(sections), sections) && |sms| == |olds| == |fs|
      ensures ok ==> forall n :: 0 <= n < |fs| ==> InPlace(sections, symtab.Entries(), fs[n], sms[n], olds[n])
      ensures ok ==> Apart(fs, sms)
      ensures ok && !symtab.dynamic ==> Entered(old(symtab.Entries()), symtab.Entries(), fs, sms)
      ensures ok ==> History(old(sections), sections, fs, sms, states, symtabNumber)
      ensures ok ==> AppliedExactly(sections, fs, sms, states)
      ensures ok && Conventional(old(sections)) && (forall f :: f in fs ==> NamedForTargets(f)) ==>
        Conventional(sections) && AllApplied(sections, fs, sms)
    {
      hide SymbolTable.Valid, SymbolTable.Entries, SymbolTable.Names, EnterAll, FileOk, Preserved, Copied, Renumbered, InPlace, SectionsOk, RelocationsGood;
      hide NumbersOk, Relinked, Attached, Applied, Tied, Entered, Apart, History, TakenLater, Conventional, NamedForTargets, ByName, Covered;
      sms, olds, states := [], [], [sections];
      PreservedSelf(sections);
      NoFiles(sections, symtab.Entries(), symtabNumber);
      var n := 0;
      while n < |fs|
        invariant n <= |fs| && |sms| == |olds| == n && |states| == n + 1 && states[n] == sections
        invariant Ready() && Preserved(old(sections), sections)
        invariant forall k :: 0 <= k < n ==> InPlace(sections, symtab.Entries(), fs[k], sms[k], olds[k])
        invariant Apart(fs[..n], sms) && (!symtab.dynamic ==> Entered(old(symtab.Entries()), symtab.Entries(), fs[..n], sms))
        invariant History(old(sections), sections, fs[..n], sms, states, symtabNumber)
        invariant AppliedExactly(sections, fs[..n], sms, states)
        invariant Conventional(old(sections)) && (forall f :: f in fs ==> NamedForTargets(f)) ==>
          Conventional(sections)
      {
        ghost var was, v := sections, symtab.Entries();
        NotEmpty(symtab);
        FileSymbols(fs[n]);
        var end, sm, oldToNew;
        end, sm, oldToNew := Load(fs[n]);
        if !end.Loaded? {
          ok := false;
          return;
        }
        PreservedTrans(old(sections), was, sections);
        forall k | 0 <= k < n ensures InPlace(sections, symtab.Entries(), fs[k], sms[k], olds[k]) {
          StaysInPlace(was, sections, v, fs[n], sm, symtab.dynamic, fs[k], sms[k], olds[k]);
        }
        JustPlaced(sections, was, v, symtab.Entries(), fs[n], sm, oldToNew, symtab.dynamic);
        assert fs[..n + 1] == fs[..n] + [fs[n]];
        OneMoreFile(old(sections), was, sections, fs[..n], sms, olds, states, v, fs[n], sm, symtabNumber);
        if !symtab.dynamic {
          EnteredMore(old(symtab.Entries()), v, symtab.Entries(), fs[..n], sms, fs[n], sm, oldToNew);
        }
        sms, olds, states := sms + [sm], olds + [oldToNew], states + [sections];
        n := n + 1;
      }
      assert fs[..n] == fs;
      if Conventional(sections) && forall f :: f in fs ==> NamedForTargets(f) {
        EveryOneApplied(sections, symtab.Entries(), fs, sms, olds);
      }
      ok := true;
    }
  }

  /** What the reader of the file has checked. */
  ghost predicate FileOk(f: Input) {
    && InputOk(f) && DistinctNames(f) && RelocationsOk(f) && SymbolSectionsOk(f)
    && forall i :: 0 <= i < |f.headers| && Handled(f.headers[i]) ==> f.headers[i].link < |f.headers|
  }

  ghost predicate RelocationsOk(f: Input) {
    forall i :: 0 <= i < |f.headers| && Handled(f.headers[i]) ==>
      f.headers[i].info < |f.headers| && (f.headers[i].typ == SHT_REL ==> f.headers[i].size % 8 == 0)
  }

  /** Relocations of the input sections below n are patched, all else is as before. */
  ghost predicate AllPatched(mid: seq<Section>, now: seq<Section>, f: Input, sm: seq<Merged>, oldToNew: seq<nat>, n: nat)
    requires |sm| == |f.headers| && RelocationsOk(f)
  {
    && |now| == |mid|
    && (forall k :: 0 <= k < |mid| ==> now[k] == mid[k].(data := now[k].data))
    && (forall i :: 0 <= i < n && i < |sm| && Kept(f, i) && f.headers[i].typ == SHT_REL ==>
      sm[i].section < |mid| && sm[i].offset <= |mid[sm[i].section].data|
      && Patched(mid[sm[i].section].data, now[sm[i].section].data, sm[i].offset, sm[f.headers[i].info].offset, oldToNew))
    && (forall k :: 0 <= k < |mid| && Untouched(f, sm, n, k) ==> now[k] == mid[k])
  }

  /** No relocation section below n went to section k. */
  ghost predicate Untouched(f: Input, sm: seq<Merged>, n: nat, k: nat)
    requires |sm| == |f.headers|
  {
    forall i :: 0 <= i < n && i < |sm| && Kept(f, i) && f.headers[i].typ == SHT_REL ==> sm[i].section != k
  }

  /** Input sections with distinct names are in distinct sections. */
  lemma OtherSections(ss: seq<Section>, was: seq<Section>, f: Input, sm: seq<Merged>, symtab: nat, i: nat)
    requires Progress(ss, was, f, sm, symtab, |f.headers|) && DistinctNames(f) && i < |f.headers| && Kept(f, i)
    ensures forall j :: 0 <= j < |f.headers| && Kept(f, j) && j != i ==> sm[j].section != sm[i].section
  {
    forall j | 0 <= j < |f.headers| && Kept(f, j) && j != i ensures sm[j].section != sm[i].section {
      assert Placed(ss, was, f.headers[j], sm[j]) && Placed(ss, was, f.headers[i], sm[i]);
    }
  }

  /** Every relocation of the sections below n has a symbol that was entered. */
  ghost predicate RelocationsGood(f: Input, oldToNew: seq<nat>, n: nat) {
    forall i :: 0 <= i < n && i < |f.headers| && Kept(f, i) && f.headers[i].typ == SHT_REL ==>
      EntriesGood(f.headers[i].content, 0, oldToNew)
  }

  lemma GoodContent(d: seq<Octet>, content: seq<Octet>, offset: nat, oldToNew: seq<nat>)
    requires offset <= |d| && d[offset..] == content
    ensures EntriesGood(d, offset, oldToNew) <==> EntriesGood(content, 0, oldToNew)
  {
    forall e | 0 <= e < |content| / 8 ensures GoodEntry(d, offset + 8 * e, oldToNew) <==> GoodEntry(content, 8 * e, oldToNew) {
      assert forall x :: 0 <= x < |content| ==> content[x] == d[offset + x];
    }
    if EntriesGood(d, offset, oldToNew) {
      forall e | 0 <= e < |content| / 8 ensures GoodEntry(content, 0 + 8 * e, oldToNew) {
        assert GoodEntry(d, offset + 8 * e, oldToNew);
      }
    } else {
      var e :| 0 <= e < (|d| - offset) / 8 && !GoodEntry(d, offset + 8 * e, oldToNew);
      assert !GoodEntry(content, 0 + 8 * e, oldToNew);
    }
  }

  lemma GoodFails(f: Input, oldToNew: seq<nat>, i: nat)
    requires i < |f.headers| && Kept(f, i) && f.headers[i].typ == SHT_REL && !EntriesGood(f.headers[i].content, 0, oldToNew)
    ensures !RelocationsGood(f, oldToNew, |f.headers|)
  {
    hide EntriesGood;
  }

  lemma GoodNext(mid: seq<Section>, was: seq<Section>, f: Input, sm: seq<Merged>, symtab: nat, oldToNew: seq<nat>, i: nat)
    requires Progress(mid, was, f, sm, symtab, |f.headers|) && RelocationsGood(f, oldToNew, i) && i < |f.headers|
    requires var m := sm[i];
      m.section != 0 && m.section < |mid| && mid[m.section].typ == SHT_REL ==> EntriesGood(f.headers[i].content, 0, oldToNew)
    ensures RelocationsGood(f, oldToNew, i + 1)
  {
    hide EntriesGood;
    if Kept(f, i) { assert Placed(mid, was, f.headers[i], sm[i]); }
  }

  lemma PatchedFirst(mid: seq<Section>, f: Input, sm: seq<Merged>, oldToNew: seq<nat>)
    requires |sm| == |f.headers| && RelocationsOk(f)
    ensures AllPatched(mid, mid, f, sm, oldToNew, 1) && RelocationsGood(f, oldToNew, 1)
  {
  }

  /** A relocation section is as it was placed until its turn comes. */
  lemma PatchReady(mid: seq<Section>, now: seq<Section>, was: seq<Section>, f: Input, sm: seq<Merged>, symtab: nat, oldToNew: seq<nat>, i: nat)
    requires Progress(mid, was, f, sm, symtab, |f.headers|) && DistinctNames(f) && RelocationsOk(f) && InputOk(f)
    requires 1 <= i < |f.headers| && AllPatched(mid, now, f, sm, oldToNew, i)
    requires sm[i].section != 0 && sm[i].section < |mid| && mid[sm[i].section].typ == SHT_REL
    requires !Kept(f, i) ==> sm[i].section < |mid| && (sm[i].section == 0 || mid[sm[i].section].typ != SHT_REL)
    ensures Kept(f, i) && f.headers[i].typ == SHT_REL && now[sm[i].section] == mid[sm[i].section]
    ensures sm[i].offset <= |now[sm[i].section].data| && (|now[sm[i].section].data| - sm[i].offset) % 8 == 0
    ensures now[sm[i].section].data[sm[i].offset..] == f.headers[i].content
  {
    hide Patched;
    assert Placed(mid, was, f.headers[i], sm[i]);
    OtherSections(mid, was, f, sm, symtab, i);
    assert Untouched(f, sm, i, sm[i].section);
  }

  lemma PatchedNext(
      mid: seq<Section>, now: seq<Section>, next: seq<Section>, was: seq<Section>,
      f: Input, sm: seq<Merged>, symtab: nat, oldToNew: seq<nat>, i: nat)
    requires Progress(mid, was, f, sm, symtab, |f.headers|) && DistinctNames(f) && RelocationsOk(f)
    requires 1 <= i < |f.headers| && AllPatched(mid, now, f, sm, oldToNew, i)
    requires sm[i].section < |mid|
    requires var m, h := sm[i], f.headers[i];
      if m.section != 0 && mid[m.section].typ == SHT_REL then
        Kept(f, i) && now[m.section] == mid[m.section] && m.offset <= |mid[m.section].data|
        && |next| == |now| && next == now[m.section := now[m.section].(data := next[m.section].data)]
        && Patched(mid[m.section].data, next[m.section].data, m.offset, sm[h.info].offset, oldToNew)
      else next == now
    ensures AllPatched(mid, next, f, sm, oldToNew, i + 1)
  {
    hide Patched, RoundUp, StartIn, StartOf, IsPower, SectionsOk, Extends;
    if Kept(f, i) {
      assert Placed(mid, was, f.headers[i], sm[i]);
      OtherSections(mid, was, f, sm, symtab, i);
    }
    forall k | 0 <= k < |mid| && Untouched(f, sm, i + 1, k) ensures next[k] == mid[k] {
      assert Untouched(f, sm, i, k);
    }
  }

  lemma PatchedEnd(mid: seq<Section>, now: seq<Section>, f: Input, sm: seq<Merged>, oldToNew: seq<nat>, i: nat)
    requires |sm| == |f.headers| && RelocationsOk(f) && i >= |f.headers|
    requires AllPatched(mid, now, f, sm, oldToNew, i) && RelocationsGood(f, oldToNew, i)
    ensures AllPatched(mid, now, f, sm, oldToNew, |f.headers|) && RelocationsGood(f, oldToNew, |f.headers|)
  {
    hide Patched, EntriesGood;
    forall k | 0 <= k < |mid| && Untouched(f, sm, |f.headers|, k) ensures Untouched(f, sm, i, k) {
    }
  }

  lemma MergedShape(ss: seq<Section>, was: seq<Section>, f: Input, sm: seq<Merged>, symtabNumber: nat)
    requires Progress(ss, was, f, sm, symtabNumber, |f.headers|) && RelocationsOk(f) && DistinctNames(f)
    requires ByName(ss, was, f, sm, |f.headers|)
    requires 0 < symtabNumber < |was| && was[symtabNumber].typ == SHT_SYMTAB
    requires forall i :: 0 <= i < |f.headers| && Handled(f.headers[i]) ==> f.headers[i].link < |f.headers|
    ensures |sm| == |f.headers| && symtabNumber < |ss| && ss[symtabNumber].typ == SHT_SYMTAB
    ensures forall i :: 0 <= i < |sm| && !Kept(f, i) ==> sm[i] == NOWHERE || sm[i].section == symtabNumber
    ensures forall i :: 0 <= i < |sm| ==> sm[i].section < |ss|
    ensures Mapped(ss, f, sm)
  {
    hide First, IsPower;
    forall i, j | 0 <= i < j < |sm| && sm[i].isNew && sm[j].isNew ensures sm[i].section != sm[j].section {
      OtherSections(ss, was, f, sm, symtabNumber, i);
    }
  }

  /** What was loaded before stays. */
  ghost predicate Preserved(was: seq<Section>, now: seq<Section>) {
    |was| <= |now| && forall k :: 0 <= k < |was| ==> Extends(was[k], now[k])
  }

  /** The first place from `from` on that is a multiple of the alignment; 0 and 1 ask for none. */
  predicate FirstAligned(place: nat, from: nat, align: nat) {
    if align <= 1 then place == from else place % align == 0 && from <= place < from + align
  }

  /** An input section is the end of its section, aligned, behind what was there, and unchanged unless it holds relocations. */
  ghost predicate Copied(now: seq<Section>, was: seq<Section>, f: Input, sm: seq<Merged>, i: nat)
    requires |sm| == |f.headers| && i < |sm|
  {
    var h, m := f.headers[i], sm[i];
    && 1 <= m.section < |now| && now[m.section].name == h.name && now[m.section].typ == h.typ
    && now[m.section].size == m.offset + h.size
    && m.offset == StartIn(was, m.section, h) && FirstAligned(m.offset, if m.section < |was| then was[m.section].size else 0, h.align)
    && (h.typ == 1 ==> m.offset <= |now[m.section].data| && now[m.section].data[m.offset..] == h.content)
  }

  lemma CopiedStart(now: seq<Section>, was: seq<Section>, f: Input, sm: seq<Merged>, i: nat)
    requires |sm| == |f.headers| && i < |sm| && Copied(now, was, f, sm, i)
    ensures sm[i].offset == StartIn(was, sm[i].section, f.headers[i])
  {
    hide RoundUp;
  }

  /** Relocation e of input section i: moved by the offset of its target, type kept, symbol renumbered. */
  ghost predicate Renumbered(now: seq<Section>, f: Input, sm: seq<Merged>, oldToNew: seq<nat>, i: nat, e: nat)
    requires |sm| == |f.headers| && i < |sm| && f.headers[i].info < |sm|
  {
    var h, m := f.headers[i], sm[i];
    var at := m.offset + 8 * e;
    && m.section < |now| && at + 8 <= |now[m.section].data| && 8 * e + 8 <= |h.content|
    && var typ, sym := Get32(h.content, 8 * e + 4) % 256, Get32(h.content, 8 * e + 4) / 256;
    && sym < |oldToNew| && oldToNew[sym] != 0
    && Get32(now[m.section].data, at + 4) == ElfSort.RelInfo(oldToNew[sym], typ)
    && Get32(now[m.section].data, at) == Mod32(Get32(h.content, 8 * e) + sm[h.info].offset)
  }

  /** Only links differ. */
  ghost predicate SameContents(a: seq<Section>, b: seq<Section>) {
    |a| == |b| && forall k :: 0 <= k < |a| ==> b[k] == a[k].(link := b[k].link, info := b[k].info, reloc := b[k].reloc)
  }

  predicate SymbolSectionsOk(f: Input) {
    forall i :: 0 <= i < |f.symbols| && 0 < f.symbols[i].shndx < SHN_LORESERVE ==> f.symbols[i].shndx < |f.headers|
  }

  /** Does the symbol belong to a section that was not kept? */
  predicate Dropped(f: Input, sm: seq<Merged>, i: nat)
    requires i < |f.symbols| && |sm| == |f.headers| && SymbolSectionsOk(f)
  {
    var x := f.symbols[i].shndx;
    0 < x < SHN_LORESERVE && sm[x].section == 0
  }

  /** What `add_elf_sym` is asked to enter for an input symbol. */
  function RequestOf(f: Input, sm: seq<Merged>, i: nat): Request
    requires i < |f.symbols| && |sm| == |f.headers| && SymbolSectionsOk(f)
  {
    var s := f.symbols[i];
    if 0 < s.shndx < SHN_LORESERVE then Request(s.name, s.value + sm[s.shndx].offset, s.size, s.info, sm[s.shndx].section)
    else Request(s.name, s.value, s.size, s.info, s.shndx)
  }

  /** The symbol table and the renumbering after the input symbols below n. */
  function EnterAll(v: seq<Entry>, f: Input, sm: seq<Merged>, dynamic: bool, n: nat): (r: Option<(seq<Entry>, seq<nat>)>)
    requires |sm| == |f.headers| && SymbolSectionsOk(f) && n <= |f.symbols|
    ensures r.Some? ==> |r.value.1| == |f.symbols|
  {
    if n <= 1 then Some((v, seq(|f.symbols|, i => 0)))
    else
      var before := EnterAll(v, f, sm, dynamic, n - 1);
      if before.None? || Dropped(f, sm, n - 1) then before
      else
        var a := Add(before.value.0, RequestOf(f, sm, n - 1), dynamic);
        if a.DefinedTwice? then None else Some((a.v, before.value.1[n - 1 := a.index]))
  }

  lemma EnterNone(v: seq<Entry>, f: Input, sm: seq<Merged>, dynamic: bool)
    requires |sm| == |f.headers| && SymbolSectionsOk(f)
    ensures 1 <= |f.symbols| ==> EnterAll(v, f, sm, dynamic, 1) == Some((v, seq(|f.symbols|, i => 0)))
  {
  }

  lemma EnterStep(v: seq<Entry>, f: Input, sm: seq<Merged>, dynamic: bool, i: nat)
    requires |sm| == |f.headers| && SymbolSectionsOk(f) && 1 <= i < |f.symbols|
    requires EnterAll(v, f, sm, dynamic, i).Some?
    ensures var before := EnterAll(v, f, sm, dynamic, i).value;
      EnterAll(v, f, sm, dynamic, i + 1) ==
        if Dropped(f, sm, i) then Some(before)
        else
          var a := Add(before.0, RequestOf(f, sm, i), dynamic);
          if a.DefinedTwice? then None else Some((a.v, before.1[i := a.index]))
  {
  }

  lemma {:induction false} EnterFails(v: seq<Entry>, f: Input, sm: seq<Merged>, dynamic: bool, n: nat, m: nat)
    requires |sm| == |f.headers| && SymbolSectionsOk(f) && 1 <= n <= m <= |f.symbols|
    requires EnterAll(v, f, sm, dynamic, n).None?
    ensures EnterAll(v, f, sm, dynamic, m).None?
    decreases m
  {
    hide Add;
    if n < m { EnterFails(v, f, sm, dynamic, n, m - 1); }
  }

  lemma EnterShort(v: seq<Entry>, f: Input, sm: seq<Merged>, dynamic: bool)
    requires |sm| == |f.headers| && SymbolSectionsOk(f) && |f.symbols| <= 1
    ensures EnterAll(v, f, sm, dynamic, |f.symbols|) == Some((v, seq(|f.symbols|, i => 0)))
  {
  }

  /** One relocation entry at a place, before and after. */
  ghost predicate PatchedEntry(d: seq<Octet>, d': seq<Octet>, at: nat, delta: nat, oldToNew: seq<nat>)
    requires at + 8 <= |d| == |d'|
  {
    var typ, sym := Get32(d, at + 4) % 256, Get32(d, at + 4) / 256;
    && sym < |oldToNew| && oldToNew[sym] != 0
    && Get32(d', at + 4) == ElfSort.RelInfo(oldToNew[sym], typ)
    && Get32(d', at) == Mod32(Get32(d, at) + delta)
  }

  /** The symbol of the relocation at a place was entered. */
  predicate GoodEntry(d: seq<Octet>, at: nat, oldToNew: seq<nat>)
    requires at + 8 <= |d|
  {
    var sym := Get32(d, at + 4) / 256;
    sym < |oldToNew| && oldToNew[sym] != 0
  }

  ghost predicate EntriesGood(d: seq<Octet>, offset: nat, oldToNew: seq<nat>)
    requires offset <= |d|
  {
    forall e :: 0 <= e < (|d| - offset) / 8 ==> GoodEntry(d, offset + 8 * e, oldToNew)
  }

  lemma BadEntry(d: seq<Octet>, offset: nat, n: nat, oldToNew: seq<nat>)
    requires offset + 8 * n + 8 <= |d| && !GoodEntry(d, offset + 8 * n, oldToNew)
    ensures !EntriesGood(d, offset, oldToNew)
  {
    hide GoodEntry;
  }

  lemma AllGood(d: seq<Octet>, d': seq<Octet>, offset: nat, n: nat, delta: nat, oldToNew: seq<nat>)
    requires PatchedUpTo(d, d', offset, n, delta, oldToNew) && (|d| - offset) / 8 == n
    ensures EntriesGood(d, offset, oldToNew)
  {
    hide Get32;
    forall e | 0 <= e < n ensures GoodEntry(d, offset + 8 * e, oldToNew) {
      assert PatchedEntry(d, d', offset + 8 * e, delta, oldToNew);
    }
  }

  ghost predicate PatchedUpTo(d: seq<Octet>, d': seq<Octet>, offset: nat, n: nat, delta: nat, oldToNew: seq<nat>) {
    && |d'| == |d| && offset + 8 * n <= |d|
    && (forall e :: 0 <= e < n ==> PatchedEntry(d, d', offset + 8 * e, delta, oldToNew))
    && (forall b :: 0 <= b < |d| && !(offset <= b < offset + 8 * n) ==> d'[b] == d[b])
  }

  ghost predicate Patched(d: seq<Octet>, d': seq<Octet>, offset: nat, delta: nat, oldToNew: seq<nat>)
    requires offset <= |d|
  {
    PatchedUpTo(d, d', offset, (|d| - offset) / 8, delta, oldToNew)
  }

  lemma EntrySame(was: seq<Octet>, d: seq<Octet>, offset: nat, n: nat, delta: nat, oldToNew: seq<nat>)
    requires PatchedUpTo(was, d, offset, n, delta, oldToNew) && offset + 8 * n + 8 <= |was|
    ensures Get32(d, offset + 8 * n) == Get32(was, offset + 8 * n)
    ensures Get32(d, offset + 8 * n + 4) == Get32(was, offset + 8 * n + 4)
  {
  }

  lemma PatchedMore(was: seq<Octet>, d: seq<Octet>, e: seq<Octet>, g: seq<Octet>, offset: nat, n: nat, delta: nat, oldToNew: seq<nat>)
    requires PatchedUpTo(was, d, offset, n, delta, oldToNew) && offset + 8 * n + 8 <= |was|
    requires var at := offset + 8 * n; var typ, sym := Get32(d, at + 4) % 256, Get32(d, at + 4) / 256;
      && sym < |oldToNew| && oldToNew[sym] != 0
      && e == Put32(d, at + 4, ElfSort.RelInfo(oldToNew[sym], typ))
      && g == Put32(e, at, Mod32(Get32(e, at) + delta))
    ensures PatchedUpTo(was, g, offset, n + 1, delta, oldToNew)
  {
    hide Get32, Put32, ElfSort.RelInfo;
    var at := offset + 8 * n;
    var typ, sym := Get32(d, at + 4) % 256, Get32(d, at + 4) / 256;
    EntrySame(was, d, offset, n, delta, oldToNew);
    var info, place := ElfSort.RelInfo(oldToNew[sym], typ), Mod32(Get32(e, at) + delta);
    PutGet(d, at + 4, info);
    PutGetOther(d, at + 4, info, at);
    PutGet(e, at, place);
    PutGetOther(e, at, place, at + 4);
    forall x | 0 <= x < n ensures PatchedEntry(was, g, offset + 8 * x, delta, oldToNew) {
      assert PatchedEntry(was, d, offset + 8 * x, delta, oldToNew);
      var o := offset + 8 * x;
      PutGetOther(d, at + 4, info, o);
      PutGetOther(d, at + 4, info, o + 4);
      PutGetOther(e, at, place, o);
      PutGetOther(e, at, place, o + 4);
    }
  }

  lemma AppendKeeps(s: Section, h: Header)
    requires s.typ == h.typ && (HasContent(s) ==> |s.data| == s.size)
    requires h.typ != SHT_NOBITS ==> |h.content| == h.size
    requires h.align == 0 || IsPower(h.align)
    ensures var t, offset := Appended(s, h), RoundUp(s.size, AlignOf(h));
      && Extends(s, t) && s.size <= offset && offset % AlignOf(h) == 0 && t.size == offset + h.size
      && (h.typ != SHT_NOBITS ==> |t.data| == t.size && t.data[offset..] == h.content)
  {
    RoundUpLeast(s.size, AlignOf(h));
  }

  /** No input section seen before went to the section that this one goes to. */
  lemma NameUnused(ss: seq<Section>, was: seq<Section>, f: Input, sm: seq<Merged>, symtab: nat, i: nat, j: nat)
    requires Progress(ss, was, f, sm, symtab, i) && DistinctNames(f) && Kept(f, i)
    requires j == |ss| || (j < |ss| && ss[j].name == f.headers[i].name)
    ensures forall k :: 0 <= k < i && Kept(f, k) ==> sm[k].section != j
  {
  }

  lemma MergeStart(was: seq<Section>, f: Input, sm: seq<Merged>, symtab: nat)
    requires SectionsOk(was) && |sm| == |f.headers| && forall i :: 0 <= i < |sm| ==> sm[i] == StartOf(f, symtab, i)
    ensures Progress(was, was, f, sm, symtab, 1) && ByName(was, was, f, sm, 1) && Ahead(was, was, f, 1) && Unlinked(was, was)
    ensures Covered(was, was, f, sm, 1)
  {
  }

  lemma FoundBefore(ss: seq<Section>, was: seq<Section>, f: Input, sm: seq<Merged>, symtab: nat, i: nat)
    requires Progress(ss, was, f, sm, symtab, i) && Ahead(ss, was, f, i) && i < |f.headers| && Kept(f, i)
    ensures var j := First(ss, f.headers[i].name);
      && (j == 0 <==> Fresh(was, f, i)) && j < |ss|
      && (j != 0 ==> j < |was| && ss[j].typ == was[First(was, f.headers[i].name)].typ)
  {
    hide FirstFrom;
  }

  lemma MergeNone(ss: seq<Section>, was: seq<Section>, f: Input, sm: seq<Merged>, symtab: nat, i: nat)
    requires Progress(ss, was, f, sm, symtab, i) && ByName(ss, was, f, sm, i) && Ahead(ss, was, f, i)
    requires 1 <= i < |f.headers| && !Kept(f, i) && Covered(ss, was, f, sm, i)
    ensures Progress(ss, was, f, sm, symtab, i + 1) && ByName(ss, was, f, sm, i + 1) && Ahead(ss, was, f, i + 1)
    ensures Covered(ss, was, f, sm, i + 1)
  {
    hide First, IsPower;
    var n := i + 1;
    forall k | |was| <= k < |ss| ensures StartedBy(f, sm, n, k) { assert StartedBy(f, sm, i, k); }
  }

  lemma MergeEnd(ss: seq<Section>, was: seq<Section>, f: Input, sm: seq<Merged>, symtab: nat, i: nat)
    requires Progress(ss, was, f, sm, symtab, i) && ByName(ss, was, f, sm, i) && Covered(ss, was, f, sm, i) && i >= |f.headers|
    ensures Progress(ss, was, f, sm, symtab, |f.headers|) && ByName(ss, was, f, sm, |f.headers|)
    ensures Covered(ss, was, f, sm, |f.headers|)
  {
    hide First, IsPower;
    forall k | |was| <= k < |ss| ensures StartedBy(f, sm, |f.headers|, k) { assert StartedBy(f, sm, i, k); }
  }

  /** The sections after section j, found or new, has taken the contents of h. */
  function MergedInto(ss: seq<Section>, h: Header, j: nat): seq<Section>
    requires j <= |ss|
  {
    if j == |ss| then ss + [Appended(NewSection(h), h)] else ss[j := Appended(ss[j], h)]
  }

  function PlaceIn(ss: seq<Section>, h: Header, j: nat): Merged
    requires j <= |ss|
  {
    Merged(j, RoundUp(if j == |ss| then 0 else ss[j].size, AlignOf(h)), j == |ss|)
  }

  /** One section of the file goes to section j, which is new or found. */
  lemma MergeOne(ss: seq<Section>, was: seq<Section>, f: Input, sm: seq<Merged>, symtab: nat, i: nat, j: nat)
    requires Progress(ss, was, f, sm, symtab, i) && ByName(ss, was, f, sm, i) && Ahead(ss, was, f, i) && Unlinked(ss, was)
    requires InputOk(f) && DistinctNames(f) && 1 <= i < |f.headers| && Kept(f, i)
    requires j == (if First(ss, f.headers[i].name) == 0 then |ss| else First(ss, f.headers[i].name))
    requires Covered(ss, was, f, sm, i) && (j < |ss| ==> j < |was| && ss[j].typ == f.headers[i].typ)
    ensures var next, sm1 := MergedInto(ss, f.headers[i], j), sm[i := PlaceIn(ss, f.headers[i], j)];
      && Progress(next, was, f, sm1, symtab, i + 1) && ByName(next, was, f, sm1, i + 1)
      && Ahead(next, was, f, i + 1) && Unlinked(next, was) && Covered(next, was, f, sm1, i + 1)
  {
    hide ByName, Ahead, Unlinked, Covered, Appended, RoundUp, IsPower, First;
    FirstRange(ss, f.headers[i].name);
    MergeProgress(ss, was, f, sm, symtab, i, j);
    MergeNames(ss, was, f, sm, symtab, i, j);
    MergeLinks(ss, was, f.headers[i], j);
    MergeCovers(ss, was, f, sm, i, j);
  }

  lemma MergeCovers(ss: seq<Section>, was: seq<Section>, f: Input, sm: seq<Merged>, i: nat, j: nat)
    requires Covered(ss, was, f, sm, i) && i < |f.headers| == |sm| && Kept(f, i) && |was| <= |ss| && j <= |ss|
    ensures Covered(MergedInto(ss, f.headers[i], j), was, f, sm[i := PlaceIn(ss, f.headers[i], j)], i + 1)
  {
    hide RoundUp, Appended;
    var next, sm1 := MergedInto(ss, f.headers[i], j), sm[i := PlaceIn(ss, f.headers[i], j)];
    var n := i + 1;
    forall k | |was| <= k < |next| ensures StartedBy(f, sm1, n, k) {
      if k == j {
        assert sm1[i].section == k;
      } else {
        assert StartedBy(f, sm, i, k);
        var x :| 0 <= x < i && x < |sm| && Kept(f, x) && sm[x].section == k;
        assert sm1[x].section == k;
      }
    }
  }

  lemma MergeLinks(ss: seq<Section>, was: seq<Section>, h: Header, j: nat)
    requires Unlinked(ss, was) && j <= |ss|
    ensures Unlinked(MergedInto(ss, h, j), was)
  {
    hide RoundUp;
  }

  lemma MergeProgress(ss: seq<Section>, was: seq<Section>, f: Input, sm: seq<Merged>, symtab: nat, i: nat, j: nat)
    requires Progress(ss, was, f, sm, symtab, i) && InputOk(f) && DistinctNames(f) && 1 <= i < |f.headers| && Kept(f, i)
    requires 1 <= j <= |ss| && (j < |ss| ==> j < |was| && ss[j].name == f.headers[i].name && ss[j].typ == f.headers[i].typ)
    ensures Progress(MergedInto(ss, f.headers[i], j), was, f, sm[i := PlaceIn(ss, f.headers[i], j)], symtab, i + 1)
  {
    hide IsPower, RoundUp, Appended;
    var h := f.headers[i];
    AppendKeeps(if j == |ss| then NewSection(h) else ss[j], h);
    NameUnused(ss, was, f, sm, symtab, i, j);
    var next, sm1 := MergedInto(ss, h, j), sm[i := PlaceIn(ss, h, j)];
    var n := i + 1;
    assert Free(f, sm, i, j);
    forall k | 0 <= k < |was| && Free(f, sm1, n, k) ensures next[k].size == was[k].size {
      assert sm1[i].section == j;
      assert Free(f, sm, i, k) by {
        forall x | 0 <= x < i && x < |sm| && Kept(f, x) ensures sm[x].section != k { assert sm1[x] == sm[x]; }
      }
    }
  }

  lemma MergeNames(ss: seq<Section>, was: seq<Section>, f: Input, sm: seq<Merged>, symtab: nat, i: nat, j: nat)
    requires |was| <= |ss| && |ss| > 0 && |sm| == |f.headers| && ByName(ss, was, f, sm, i) && Ahead(ss, was, f, i)
    requires DistinctNames(f) && 1 <= i < |f.headers| && Kept(f, i)
    requires j == (if First(ss, f.headers[i].name) == 0 then |ss| else First(ss, f.headers[i].name))
    ensures var next, sm1 := MergedInto(ss, f.headers[i], j), sm[i := PlaceIn(ss, f.headers[i], j)];
      ByName(next, was, f, sm1, i + 1) && Ahead(next, was, f, i + 1)
  {
    hide RoundUp, FirstFrom, First;
    FirstRange(ss, f.headers[i].name);
    var next := MergedInto(ss, f.headers[i], j);
    forall k | 0 <= k < |f.headers| && Kept(f, k) && k != i ensures First(next, f.headers[k].name) == First(ss, f.headers[k].name) {
      FirstStays(ss, next, f.headers[k].name);
    }
    FirstStays(ss, next, f.headers[i].name);
  }

  lemma FirstRange(ss: seq<Section>, name: string)
    ensures var j := First(ss, name); j != 0 ==> 1 <= j < |ss| && ss[j].name == name
  {
    hide FirstFrom;
  }

  // ----- links -----

  /** Every section of the file has a place, and new sections are places of their own. */
  ghost predicate Mapped(ss: seq<Section>, f: Input, sm: seq<Merged>) {
    && |sm| == |f.headers| && (|sm| > 0 ==> !sm[0].isNew)
    && (forall i :: 0 <= i < |sm| ==> sm[i].section < |ss|)
    && (forall i :: 0 <= i < |sm| && sm[i].isNew ==> sm[i].section != 0 && f.headers[i].link < |sm| && f.headers[i].info < |sm|)
    && (forall i, j :: 0 <= i < j < |sm| && sm[i].isNew && sm[j].isNew ==> sm[i].section != sm[j].section)
  }

  predicate NewRelocation(f: Input, sm: seq<Merged>, i: nat)
    requires i < |sm| == |f.headers|
  {
    sm[i].isNew && f.headers[i].typ == SHT_REL
  }

  /** Where the section went that a relocation section is for. */
  function TargetOf(f: Input, sm: seq<Merged>, i: nat): nat
    requires i < |sm| == |f.headers| && f.headers[i].info < |sm|
  {
    sm[f.headers[i].info].section
  }

  ghost predicate NoNew(sm: seq<Merged>, n: nat, k: nat) {
    forall i :: 0 <= i < n && i < |sm| && sm[i].isNew ==> sm[i].section != k
  }

  ghost predicate NoNewRelocation(f: Input, sm: seq<Merged>, n: nat, k: nat)
    requires |sm| == |f.headers|
  {
    forall i :: 0 <= i < n && i < |sm| && NewRelocation(f, sm, i) ==> sm[i].section != k
  }

  /** No new relocation section from number a to n is for section k. */
  ghost predicate NoneFor(ss: seq<Section>, f: Input, sm: seq<Merged>, a: nat, n: nat, k: nat)
    requires Mapped(ss, f, sm)
  {
    forall i :: a <= i < n && i < |sm| && NewRelocation(f, sm, i) ==> TargetOf(f, sm, i) != k
  }

  ghost predicate LinksSet(was: seq<Section>, now: seq<Section>, f: Input, sm: seq<Merged>, n: nat)
    requires Mapped(was, f, sm) && |now| == |was|
  {
    && (forall i :: 0 <= i < n && i < |sm| && sm[i].isNew ==>
      now[sm[i].section].link == if f.headers[i].link > 0 then sm[f.headers[i].link].section else was[sm[i].section].link)
    && (forall k :: 0 <= k < |was| && NoNew(sm, n, k) ==> now[k].link == was[k].link)
  }

  ghost predicate InfosSet(was: seq<Section>, now: seq<Section>, f: Input, sm: seq<Merged>, n: nat)
    requires Mapped(was, f, sm) && |now| == |was|
  {
    && (forall i :: 0 <= i < n && i < |sm| && NewRelocation(f, sm, i) ==> now[sm[i].section].info == TargetOf(f, sm, i))
    && (forall k :: 0 <= k < |was| && NoNewRelocation(f, sm, n, k) ==> now[k].info == was[k].info)
  }

  /** The last new relocation section for a section is its own. */
  ghost predicate RelocsSet(was: seq<Section>, now: seq<Section>, f: Input, sm: seq<Merged>, n: nat)
    requires Mapped(was, f, sm) && |now| == |was|
  {
    && (forall i :: 0 <= i < n && i < |sm| && NewRelocation(f, sm, i) && NoneFor(was, f, sm, i + 1, n, TargetOf(f, sm, i)) ==>
      now[TargetOf(f, sm, i)].reloc == sm[i].section)
    && (forall k :: 0 <= k < |was| && NoneFor(was, f, sm, 0, n, k) ==> now[k].reloc == was[k].reloc)
  }

  /** The links of every section after the second pass has seen the sections of the file below n. */
  ghost predicate LinkedUp(was: seq<Section>, now: seq<Section>, f: Input, sm: seq<Merged>, n: nat)
    requires Mapped(was, f, sm)
  {
    |now| == |was| && LinksSet(was, now, f, sm, n) && InfosSet(was, now, f, sm, n) && RelocsSet(was, now, f, sm, n)
  }

  /** The second pass on one section of the file. */
  function LinkOne(ss: seq<Section>, f: Input, sm: seq<Merged>, i: nat): (r: seq<Section>)
    requires Mapped(ss, f, sm) && i < |sm|
    ensures |r| == |ss|
  {
    var m, h := sm[i], f.headers[i];
    if !m.isNew then ss else
    var linked := if h.link > 0 then ss[m.section := ss[m.section].(link := sm[h.link].section)] else ss;
    if h.typ != SHT_REL then linked else
    var told := linked[m.section := linked[m.section].(info := sm[h.info].section)];
    told[sm[h.info].section := told[sm[h.info].section].(reloc := m.section)]
  }

  lemma LinkStart(was: seq<Section>, f: Input, sm: seq<Merged>)
    requires Mapped(was, f, sm)
    ensures LinkedUp(was, was, f, sm, 1) && SameContents(was, was)
  {
  }

  lemma LinkContents(was: seq<Section>, ss: seq<Section>, f: Input, sm: seq<Merged>, i: nat)
    requires Mapped(was, f, sm) && SameContents(was, ss) && i < |sm|
    ensures SameContents(was, LinkOne(ss, f, sm, i))
  {
  }

  lemma LinkStep(was: seq<Section>, ss: seq<Section>, f: Input, sm: seq<Merged>, i: nat)
    requires Mapped(was, f, sm) && i < |sm| && LinkedUp(was, ss, f, sm, i)
    ensures LinkedUp(was, LinkOne(ss, f, sm, i), f, sm, i + 1)
  {
    hide LinksSet, InfosSet, RelocsSet;
    LinkStepLinks(was, ss, f, sm, i);
    LinkStepInfos(was, ss, f, sm, i);
    LinkStepRelocs(was, ss, f, sm, i);
  }

  lemma LinkStepLinks(was: seq<Section>, ss: seq<Section>, f: Input, sm: seq<Merged>, i: nat)
    requires Mapped(was, f, sm) && i < |sm| && |ss| == |was| && LinksSet(was, ss, f, sm, i)
    ensures LinksSet(was, LinkOne(ss, f, sm, i), f, sm, i + 1)
  {
    forall k | 0 <= k < |was| && NoNew(sm, i + 1, k) ensures NoNew(sm, i, k) && (sm[i].isNew ==> sm[i].section != k) {
    }
  }

  lemma LinkStepInfos(was: seq<Section>, ss: seq<Section>, f: Input, sm: seq<Merged>, i: nat)
    requires Mapped(was, f, sm) && i < |sm| && |ss| == |was| && InfosSet(was, ss, f, sm, i)
    ensures InfosSet(was, LinkOne(ss, f, sm, i), f, sm, i + 1)
  {
    forall k | 0 <= k < |was| && NoNewRelocation(f, sm, i + 1, k)
      ensures NoNewRelocation(f, sm, i, k) && (NewRelocation(f, sm, i) ==> sm[i].section != k)
    {
    }
  }

  lemma LinkOneReloc(ss: seq<Section>, f: Input, sm: seq<Merged>, i: nat, k: nat)
    requires Mapped(ss, f, sm) && i < |sm| && k < |ss|
    ensures LinkOne(ss, f, sm, i)[k].reloc ==
      if NewRelocation(f, sm, i) && TargetOf(f, sm, i) == k then sm[i].section else ss[k].reloc
  {
  }

  lemma NoneForStep(ss: seq<Section>, f: Input, sm: seq<Merged>, a: nat, i: nat, k: nat)
    requires Mapped(ss, f, sm) && a <= i < |sm|
    ensures NoneFor(ss, f, sm, a, i + 1, k) <==> NoneFor(ss, f, sm, a, i, k) && !(NewRelocation(f, sm, i) && TargetOf(f, sm, i) == k)
  {
  }

  lemma LinkStepRelocs(was: seq<Section>, ss: seq<Section>, f: Input, sm: seq<Merged>, i: nat)
    requires Mapped(was, f, sm) && i < |sm| && |ss| == |was| && RelocsSet(was, ss, f, sm, i)
    ensures RelocsSet(was, LinkOne(ss, f, sm, i), f, sm, i + 1)
  {
    hide LinkOne, NoneFor;
    var n := i + 1;
    var next := LinkOne(ss, f, sm, i);
    forall k | 0 <= k < |was| ensures next[k].reloc ==
      if NewRelocation(f, sm, i) && TargetOf(f, sm, i) == k then sm[i].section else ss[k].reloc
    {
      LinkOneReloc(ss, f, sm, i, k);
    }
    forall x | 0 <= x < n && NewRelocation(f, sm, x) && NoneFor(was, f, sm, x + 1, n, TargetOf(f, sm, x))
      ensures next[TargetOf(f, sm, x)].reloc == sm[x].section
    {
      if x < i { NoneForStep(was, f, sm, x + 1, i, TargetOf(f, sm, x)); }
    }
    forall k | 0 <= k < |was| && NoneFor(was, f, sm, 0, n, k) ensures next[k].reloc == was[k].reloc {
      NoneForStep(was, f, sm, 0, i, k);
    }
  }

  lemma LinkEnd(was: seq<Section>, now: seq<Section>, f: Input, sm: seq<Merged>, i: nat)
    requires Mapped(was, f, sm) && i >= |f.headers| && LinkedUp(was, now, f, sm, i)
    ensures LinkedUp(was, now, f, sm, |f.headers|)
  {
    forall k | 0 <= k < |was| ensures NoNew(sm, |sm|, k) ==> NoNew(sm, i, k) {
    }
    forall k | 0 <= k < |was| ensures NoNewRelocation(f, sm, |sm|, k) ==> NoNewRelocation(f, sm, i, k) {
    }
    forall a: nat, k | a <= i && 0 <= k < |was| ensures NoneFor(was, f, sm, a, |sm|, k) ==> NoneFor(was, f, sm, a, i, k) {
    }
  }

  lemma LinksOnly(before: seq<Section>, after: seq<Section>, was: seq<Section>, f: Input, sm: seq<Merged>, symtab: nat)
    requires Progress(before, was, f, sm, symtab, |f.headers|) && ByName(before, was, f, sm, |f.headers|) && SameContents(before, after)
    ensures Progress(after, was, f, sm, symtab, |f.headers|) && ByName(after, was, f, sm, |f.headers|)
  {
    hide First, IsPower;
    forall i | 0 <= i < |f.headers| && Kept(f, i) ensures Placed(after, was, f.headers[i], sm[i]) {
      assert Placed(before, was, f.headers[i], sm[i]);
    }
    forall i | 0 <= i < |f.headers| && Kept(f, i) ensures First(after, f.headers[i].name) == First(before, f.headers[i].name) {
      FirstStays(before, after, f.headers[i].name);
    }
  }

  /** Section numbers in links are numbers of sections. */
  predicate NumbersOk(ss: seq<Section>) {
    forall k :: 0 <= k < |ss| ==> ss[k].reloc < |ss| && (ss[k].typ == SHT_REL ==> ss[k].info < |ss|)
  }

  /** A relocation section of a section names that section; so no two sections have the same one. */
  predicate Tied(ss: seq<Section>) {
    forall k :: 0 <= k < |ss| && ss[k].reloc != 0 ==>
      ss[k].reloc < |ss| && ss[ss[k].reloc].typ == SHT_REL && ss[ss[k].reloc].info == k
  }

  /** What has a place: symbol tables (type 2), and contents (1), empty space (8) and relocations (9) but for the section names. */
  predicate HasPlace(f: Input, t: nat) {
    0 < t < |f.headers| && (f.headers[t].typ == 2 || (t != f.strndx && f.headers[t].typ in {1, 8, 9}))
  }

  predicate NewFor(was: seq<Section>, f: Input, i: nat) { Kept(f, i) && f.headers[i].typ == SHT_REL && Fresh(was, f, i) }

  ghost predicate TargetsMerged(was: seq<Section>, f: Input) {
    forall i :: 0 <= i < |f.headers| && NewFor(was, f, i) ==> HasPlace(f, f.headers[i].info)
  }

  predicate RelocatesKept(f: Input, i: nat) { Kept(f, i) && f.headers[i].typ == 9 && Kept(f, f.headers[i].info) }

  /** No new relocation section from number a on is for section t of the file. */
  ghost predicate NoneNewFor(was: seq<Section>, f: Input, a: nat, t: nat) {
    forall j :: a <= j < |f.headers| && NewFor(was, f, j) ==> f.headers[j].info != t
  }

  /**
    Before the load: will the relocations of section i be applied to the section that its target
    goes to? A new relocation section must be the last one for its target; one that is found must
    have been linked with the section of the target's name, and no new one may take it away.
   */
  ghost predicate Attached(was: seq<Section>, f: Input, i: nat)
    requires RelocatesKept(f, i)
  {
    var t := f.headers[i].info;
    if Fresh(was, f, i) then NoneNewFor(was, f, i + 1, t)
    else
      var r, s := First(was, f.headers[i].name), First(was, f.headers[t].name);
      s != 0 && was[r].info == s && was[s].reloc == r && NoneNewFor(was, f, 0, t)
  }

  /** After the load: the section that i's target went to is relocated by the section that i went to. */
  predicate Applied(now: seq<Section>, f: Input, sm: seq<Merged>, i: nat)
    requires RelocatesKept(f, i) && |sm| == |f.headers|
  {
    var r, s := sm[i].section, TargetOf(f, sm, i);
    r < |now| && s < |now| && now[r].info == s && now[s].reloc == r
  }

  /** The links of every section after a load. */
  ghost predicate Relinked(was: seq<Section>, now: seq<Section>, f: Input, sm: seq<Merged>, symtab: nat) {
    && |was| <= |now| && Mapped(now, f, sm) && NewKnown(was, f, sm, symtab)
    && NewLinked(was, now, f, sm) && NewRelocated(was, now, f, sm)
  }

  /** Which sections are new. */
  ghost predicate NewKnown(was: seq<Section>, f: Input, sm: seq<Merged>, symtab: nat)
    requires |sm| == |f.headers|
  {
    && (forall i :: 0 <= i < |sm| ==> (sm[i].isNew <==> Kept(f, i) && Fresh(was, f, i)))
    && (forall i :: 0 <= i < |sm| ==> (sm[i].isNew <==> |was| <= sm[i].section))
    && (forall i :: 0 <= i < |sm| && !Kept(f, i) ==> sm[i] == StartOf(f, symtab, i))
  }

  ghost predicate NewLinked(was: seq<Section>, now: seq<Section>, f: Input, sm: seq<Merged>)
    requires Mapped(now, f, sm) && |was| <= |now|
  {
    && (forall i :: 0 <= i < |sm| && sm[i].isNew ==>
      && now[sm[i].section].link == (if f.headers[i].link > 0 then sm[f.headers[i].link].section else 0)
      && now[sm[i].section].info == (if f.headers[i].typ == SHT_REL then TargetOf(f, sm, i) else 0))
    && (forall k :: 0 <= k < |was| ==> now[k].link == was[k].link && now[k].info == was[k].info)
  }

  ghost predicate NewRelocated(was: seq<Section>, now: seq<Section>, f: Input, sm: seq<Merged>)
    requires Mapped(now, f, sm) && |was| <= |now|
  {
    && (forall i :: 0 <= i < |sm| && NewRelocation(f, sm, i) ==> TargetOf(f, sm, i) != 0)
    && (forall i :: 0 <= i < |sm| && NewRelocation(f, sm, i) && NoneFor(now, f, sm, i + 1, |sm|, TargetOf(f, sm, i)) ==>
      now[TargetOf(f, sm, i)].reloc == sm[i].section)
    && (forall k :: 0 <= k < |now| && NoneFor(now, f, sm, 0, |sm|, k) ==> now[k].reloc == if k < |was| then was[k].reloc else 0)
  }

  lemma TargetsDecided(ss: seq<Section>, was: seq<Section>, f: Input, sm: seq<Merged>, symtab: nat)
    requires Progress(ss, was, f, sm, symtab, |f.headers|) && ByName(ss, was, f, sm, |f.headers|) && Mapped(ss, f, sm) && symtab > 0
    requires RelocationsOk(f)
    ensures TargetsMerged(was, f) <==> forall i :: 0 <= i < |sm| && NewRelocation(f, sm, i) ==> TargetOf(f, sm, i) != 0
    ensures forall i :: 0 <= i < |sm| ==> (sm[i].section != 0 <==> HasPlace(f, i))
  {
    hide First, IsPower, SectionsOk;
    forall t | 0 <= t < |sm| ensures sm[t].section != 0 <==> HasPlace(f, t) {
      if Kept(f, t) { assert Placed(ss, was, f.headers[t], sm[t]); }
    }
    forall i | 0 <= i < |sm| ensures NewRelocation(f, sm, i) <==> NewFor(was, f, i) {
    }
  }

  lemma NamesBelow(was: seq<Section>, ss: seq<Section>, f: Input, sm: seq<Merged>, symtab: nat, i: nat)
    requires Progress(ss, was, f, sm, symtab, |f.headers|) && i < |f.headers| && Kept(f, i) && Fresh(was, f, i)
    ensures |was| <= sm[i].section
  {
    hide IsPower;
    assert Placed(ss, was, f.headers[i], sm[i]);
  }

  lemma NewBehind(was: seq<Section>, ss: seq<Section>, f: Input, sm: seq<Merged>, symtab: nat)
    requires Progress(ss, was, f, sm, symtab, |f.headers|) && ByName(ss, was, f, sm, |f.headers|) && symtab < |was|
    ensures NewKnown(was, f, sm, symtab)
  {
    hide First, IsPower, RoundUp, SectionsOk;
    forall i | 0 <= i < |sm| ensures sm[i].isNew <==> |was| <= sm[i].section {
      if Kept(f, i) {
        FirstStays(was, ss, f.headers[i].name);
        FirstRange(was, f.headers[i].name);
        if Fresh(was, f, i) { NamesBelow(was, ss, f, sm, symtab, i); }
      }
    }
  }

  lemma LinkedAfter(was: seq<Section>, merged: seq<Section>, mid: seq<Section>, now: seq<Section>, f: Input, sm: seq<Merged>, symtab: nat)
    requires Unlinked(merged, was) && Mapped(merged, f, sm) && |merged| == |mid| && NewKnown(was, f, sm, symtab)
    requires LinksSet(merged, mid, f, sm, |sm|) && InfosSet(merged, mid, f, sm, |sm|)
    requires |now| == |mid| && forall k :: 0 <= k < |mid| ==> now[k].link == mid[k].link && now[k].info == mid[k].info
    ensures Mapped(now, f, sm) && NewLinked(was, now, f, sm)
  {
    hide First, StartOf, Kept;
    forall i | 0 <= i < |sm| && sm[i].isNew && f.headers[i].typ != SHT_REL ensures now[sm[i].section].info == 0 {
      assert NoNewRelocation(f, sm, |sm|, sm[i].section);
    }
    forall k | 0 <= k < |was| ensures now[k].link == was[k].link && now[k].info == was[k].info {
      assert NoNew(sm, |sm|, k) && NoNewRelocation(f, sm, |sm|, k);
    }
  }

  lemma RelocatedAfter(was: seq<Section>, merged: seq<Section>, mid: seq<Section>, now: seq<Section>, f: Input, sm: seq<Merged>)
    requires Unlinked(merged, was) && Mapped(merged, f, sm) && Mapped(now, f, sm) && |merged| == |mid|
    requires RelocsSet(merged, mid, f, sm, |sm|)
    requires forall i :: 0 <= i < |sm| && NewRelocation(f, sm, i) ==> TargetOf(f, sm, i) != 0
    requires |now| == |mid| && forall k :: 0 <= k < |mid| ==> now[k].reloc == mid[k].reloc
    ensures NewRelocated(was, now, f, sm)
  {
    forall a: nat, k | a <= |sm| && 0 <= k < |merged| ensures NoneFor(now, f, sm, a, |sm|, k) <==> NoneFor(merged, f, sm, a, |sm|, k) {
    }
  }

  lemma RelinkedAfter(
      was: seq<Section>, merged: seq<Section>, mid: seq<Section>, now: seq<Section>,
      f: Input, sm: seq<Merged>, symtab: nat)
    requires Progress(merged, was, f, sm, symtab, |f.headers|) && ByName(merged, was, f, sm, |f.headers|)
    requires Unlinked(merged, was) && Mapped(merged, f, sm) && LinkedUp(merged, mid, f, sm, |f.headers|)
    requires forall i :: 0 <= i < |sm| && NewRelocation(f, sm, i) ==> TargetOf(f, sm, i) != 0
    requires |now| == |mid| && forall k :: 0 <= k < |mid| ==> now[k] == mid[k].(data := now[k].data)
    requires symtab < |was|
    ensures Relinked(was, now, f, sm, symtab)
  {
    hide Progress, ByName, Mapped, LinksSet, InfosSet, RelocsSet, NewKnown, NewLinked, NewRelocated, NewRelocation, TargetOf;
    MappedLength(merged, f, sm);
    NewBehind(was, merged, f, sm, symtab);
    LinkedAfter(was, merged, mid, now, f, sm, symtab);
    RelocatedAfter(was, merged, mid, now, f, sm);
  }

  /** The relocation section that went to section k, if any, is behind what was there. */
  lemma PrefixKept(was: Section, mid: Section, now: Section, offset: nat, delta: nat, oldToNew: seq<nat>)
    requires Extends(was, mid) && now == mid.(data := now.data)
    requires |was.data| <= offset <= |mid.data| && Patched(mid.data, now.data, offset, delta, oldToNew)
    ensures Extends(was, now)
  {
    forall b | 0 <= b < |was.data| ensures now.data[b] == was.data[b] {
    }
  }

  lemma EntryOfContent(d: seq<Octet>, d': seq<Octet>, content: seq<Octet>, offset: nat, delta: nat, oldToNew: seq<nat>, e: nat)
    requires offset <= |d| && d[offset..] == content && |content| % 8 == 0 && 8 * e < |content|
    requires Patched(d, d', offset, delta, oldToNew)
    ensures |d'| == |d| && 8 * e + 8 <= |content|
    ensures Get32(d, offset + 8 * e) == Get32(content, 8 * e) && Get32(d, offset + 8 * e + 4) == Get32(content, 8 * e + 4)
    ensures PatchedEntry(d, d', offset + 8 * e, delta, oldToNew)
  {
    assert forall x :: 0 <= x < |content| ==> content[x] == d[offset + x];
  }

  lemma Outcome(was: seq<Section>, mid: seq<Section>, now: seq<Section>, f: Input, sm: seq<Merged>, symtab: nat, oldToNew: seq<nat>)
    requires SectionsOk(was) && InputOk(f) && DistinctNames(f) && RelocationsOk(f) && |sm| == |f.headers|
    requires Progress(mid, was, f, sm, symtab, |f.headers|)
    requires AllPatched(mid, now, f, sm, oldToNew, |f.headers|)
    ensures Preserved(was, now)
    ensures forall i :: 0 <= i < |f.headers| && Kept(f, i) ==> Copied(now, was, f, sm, i)
    ensures forall i, e :: 0 <= i < |f.headers| && Kept(f, i) && f.headers[i].typ == SHT_REL && 0 <= 8 * e < f.headers[i].size ==>
      Renumbered(now, f, sm, oldToNew, i, e)
  {
    hide Progress, AllPatched, Copied, Renumbered;
    OutcomePreserved(was, mid, now, f, sm, symtab, oldToNew);
    forall i | 0 <= i < |f.headers| && Kept(f, i) ensures Copied(now, was, f, sm, i) {
      OutcomeCopied(was, mid, now, f, sm, symtab, oldToNew, i);
    }
    forall i, e | 0 <= i < |f.headers| && Kept(f, i) && f.headers[i].typ == SHT_REL && 0 <= 8 * e < f.headers[i].size
      ensures Renumbered(now, f, sm, oldToNew, i, e)
    {
      OutcomeRenumbered(was, mid, now, f, sm, symtab, oldToNew, i, e);
    }
  }

  lemma OutcomePreserved(was: seq<Section>, mid: seq<Section>, now: seq<Section>, f: Input, sm: seq<Merged>, symtab: nat, oldToNew: seq<nat>)
    requires SectionsOk(was) && RelocationsOk(f)
    requires Progress(mid, was, f, sm, symtab, |f.headers|)
    requires AllPatched(mid, now, f, sm, oldToNew, |f.headers|)
    ensures Preserved(was, now)
  {
    hide Patched, IsPower;
    forall k | 0 <= k < |was| ensures Extends(was[k], now[k]) {
      assert Extends(was[k], mid[k]);
      if !Untouched(f, sm, |f.headers|, k) {
        var i :| 0 <= i < |f.headers| && Kept(f, i) && f.headers[i].typ == SHT_REL && sm[i].section == k;
        assert Placed(mid, was, f.headers[i], sm[i]);
        PrefixKept(was[k], mid[k], now[k], sm[i].offset, sm[f.headers[i].info].offset, oldToNew);
      }
    }
  }

  lemma OutcomeCopied(was: seq<Section>, mid: seq<Section>, now: seq<Section>, f: Input, sm: seq<Merged>, symtab: nat, oldToNew: seq<nat>, i: nat)
    requires DistinctNames(f) && RelocationsOk(f) && i < |f.headers| && Kept(f, i)
    requires Progress(mid, was, f, sm, symtab, |f.headers|)
    requires AllPatched(mid, now, f, sm, oldToNew, |f.headers|)
    ensures Copied(now, was, f, sm, i)
  {
    hide Patched, IsPower;
    assert Placed(mid, was, f.headers[i], sm[i]);
    if f.headers[i].typ == SHT_PROGBITS {
      OtherSections(mid, was, f, sm, symtab, i);
      assert Untouched(f, sm, |f.headers|, sm[i].section);
    }
  }

  lemma OutcomeRenumbered(
      was: seq<Section>, mid: seq<Section>, now: seq<Section>,
      f: Input, sm: seq<Merged>, symtab: nat, oldToNew: seq<nat>, i: nat, e: nat)
    requires InputOk(f) && RelocationsOk(f) && i < |f.headers|
    requires Kept(f, i) && f.headers[i].typ == SHT_REL && 8 * e < f.headers[i].size
    requires Progress(mid, was, f, sm, symtab, |f.headers|)
    requires AllPatched(mid, now, f, sm, oldToNew, |f.headers|)
    ensures Renumbered(now, f, sm, oldToNew, i, e)
  {
    hide Patched, PatchedEntry, Get32, IsPower, RoundUp, StartIn, SectionsOk, StartOf;
    var h, m := f.headers[i], sm[i];
    assert Placed(mid, was, h, m);
    EntryOfContent(mid[m.section].data, now[m.section].data, h.content, m.offset, sm[h.info].offset, oldToNew, e);
    EntryUnfold(mid[m.section].data, now[m.section].data, m.offset + 8 * e, sm[h.info].offset, oldToNew);
  }

  lemma EntryUnfold(d: seq<Octet>, d': seq<Octet>, at: nat, delta: nat, oldToNew: seq<nat>)
    requires at + 8 <= |d| == |d'| && PatchedEntry(d, d', at, delta, oldToNew)
    ensures var typ, sym := Get32(d, at + 4) % 256, Get32(d, at + 4) / 256;
      && sym < |oldToNew| && oldToNew[sym] != 0
      && Get32(d', at + 4) == ElfSort.RelInfo(oldToNew[sym], typ)
      && Get32(d', at) == Mod32(Get32(d, at) + delta)
  {
  }

  lemma OutcomeOk(was: seq<Section>, mid: seq<Section>, now: seq<Section>, f: Input, sm: seq<Merged>, symtab: nat, oldToNew: seq<nat>)
    requires RelocationsOk(f) && Progress(mid, was, f, sm, symtab, |f.headers|)
    requires AllPatched(mid, now, f, sm, oldToNew, |f.headers|)
    ensures SectionsOk(now) && |now| == |mid| && forall k :: 0 <= k < |mid| ==> now[k].typ == mid[k].typ
  {
    hide IsPower, PatchedEntry;
    forall k | 0 <= k < |now| && HasContent(now[k]) ensures |now[k].data| == now[k].size {
      if !Untouched(f, sm, |f.headers|, k) {
        var i :| 0 <= i < |f.headers| && Kept(f, i) && f.headers[i].typ == SHT_REL && sm[i].section == k;
        assert Patched(mid[k].data, now[k].data, sm[i].offset, sm[f.headers[i].info].offset, oldToNew);
      }
    }
  }

  // ----- several files -----

  /** An entry for a symbol: a local one is as requested for good, another one may be replaced by a definition. */
  predicate SymbolIs(v: seq<Entry>, r: Request, k: nat) {
    && 0 < k < |v| && v[k].name == r.name
    && if Bind(r.info) == STB_LOCAL then v[k] == EntryOf(r) else NonLocal(v[k])
  }

  /** A file that has been loaded: contents, relocations and symbols. Later files do not change it. */
  ghost predicate InPlace(now: seq<Section>, v: seq<Entry>, f: Input, sm: seq<Merged>, oldToNew: seq<nat>) {
    && |sm| == |f.headers| && |oldToNew| == |f.symbols| && SymbolSectionsOk(f) && RelocationsOk(f)
    && (forall i :: 0 <= i < |f.headers| && Kept(f, i) ==> ContentAt(now, f.headers[i], sm[i]))
    && (forall i, e :: 0 <= i < |f.headers| && Kept(f, i) && f.headers[i].typ == 9 && 0 <= 8 * e < f.headers[i].size ==>
      Renumbered(now, f, sm, oldToNew, i, e))
    && (forall i :: 1 <= i < |f.symbols| && !Dropped(f, sm, i) ==> SymbolIs(v, RequestOf(f, sm, i), oldToNew[i]))
    && (forall i :: 0 <= i < |f.symbols| && (i == 0 || Dropped(f, sm, i)) ==> oldToNew[i] == 0)
  }

  predicate ContentAt(now: seq<Section>, h: Header, m: Merged) {
    && 1 <= m.section < |now| && m.section == First(now, h.name) && now[m.section].typ == h.typ
    && (h.align > 1 ==> m.offset % h.align == 0) && m.offset + h.size <= now[m.section].size
    && (h.typ == 1 ==>
      m.offset + |h.content| <= |now[m.section].data|
      && now[m.section].data[m.offset..m.offset + |h.content|] == h.content)
  }

  /** Input sections that share a section take ranges that do not overlap, in the order of loading. */
  ghost predicate Apart(fs: seq<Input>, sms: seq<seq<Merged>>) {
    && |fs| == |sms|
    && (forall n, i: nat, j: nat :: 0 <= n < |fs| && SharedSection(fs[n], sms[n], i, fs[n], sms[n], j) ==> i == j)
    && (forall m, n, i: nat, j: nat :: 0 <= m < n < |fs| && SharedSection(fs[m], sms[m], i, fs[n], sms[n], j) ==>
      sms[m][i].offset + fs[m].headers[i].size <= sms[n][j].offset)
  }

  predicate SharedSection(f: Input, fm: seq<Merged>, i: nat, g: Input, gm: seq<Merged>, j: nat) {
    i < |fm| && j < |gm| && Kept(f, i) && Kept(g, j) && fm[i].section == gm[j].section
  }

  /** What is asked to be entered for the symbols of a file below n. */
  function Requests(f: Input, sm: seq<Merged>, n: nat): seq<Request>
    requires |sm| == |f.headers| && SymbolSectionsOk(f) && n <= |f.symbols|
  {
    if n <= 1 then []
    else Requests(f, sm, n - 1) + if Dropped(f, sm, n - 1) then [] else [RequestOf(f, sm, n - 1)]
  }

  ghost predicate Fits(fs: seq<Input>, sms: seq<seq<Merged>>) {
    |fs| == |sms| && forall n :: 0 <= n < |fs| ==> |sms[n]| == |fs[n].headers| && SymbolSectionsOk(fs[n])
  }

  /** The requests of all files, in order. */
  ghost function FileRequests(fs: seq<Input>, sms: seq<seq<Merged>>): seq<Request>
    requires Fits(fs, sms)
    decreases |fs|
  {
    if fs == [] then []
    else
      var n := |fs| - 1;
      FileRequests(fs[..n], sms[..n]) + Requests(fs[n], sms[n], |fs[n].symbols|)
  }

  /** The table is what one sequence of additions makes of all requests. */
  ghost predicate Entered(v: seq<Entry>, w: seq<Entry>, fs: seq<Input>, sms: seq<seq<Merged>>) {
    Fits(fs, sms)
    && forall rs {:trigger ElfResolution.AddAll(rs)} :: ElfResolution.AddAll(rs) == Some(v) ==>
      ElfResolution.AddAll(rs + FileRequests(fs, sms)) == Some(w)
  }

  /** The sections before each load and at the end. */
  ghost predicate History(was: seq<Section>, now: seq<Section>, fs: seq<Input>, sms: seq<seq<Merged>>, states: seq<seq<Section>>, symtab: nat) {
    && |fs| == |sms| && |states| == |fs| + 1 && states[0] == was && states[|fs|] == now
    && forall n :: 0 <= n < |fs| ==>
      && |sms[n]| == |fs[n].headers| && Relinked(states[n], states[n + 1], fs[n], sms[n], symtab)
      && ByName(states[n + 1], states[n], fs[n], sms[n], |fs[n].headers|)
  }

  /** Does a new relocation section of the file take the section of a name? */
  ghost predicate Takes(was: seq<Section>, g: Input, name: string) {
    exists j :: 0 <= j < |g.headers| && RelocatesKept(g, j) && Fresh(was, g, j) && g.headers[g.headers[j].info].name == name
  }

  ghost predicate TakenLater(states: seq<seq<Section>>, fs: seq<Input>, n: nat, i: nat)
    requires n < |fs| && RelocatesKept(fs[n], i)
  {
    exists m :: n < m < |fs| && m < |states| && Takes(states[m], fs[m], fs[n].headers[fs[n].headers[i].info].name)
  }

  /** Relocations of a file are applied to what they were meant for iff they were attached when it was loaded and nothing took their target since. */
  ghost predicate AppliedExactly(now: seq<Section>, fs: seq<Input>, sms: seq<seq<Merged>>, states: seq<seq<Section>>) {
    |fs| == |sms| && |states| == |fs| + 1
    && forall n, i :: 0 <= n < |fs| && 0 <= i < |fs[n].headers| == |sms[n]| && RelocatesKept(fs[n], i) ==>
      (Applied(now, fs[n], sms[n], i) <==> Attached(states[n], fs[n], i) && !TakenLater(states, fs, n, i))
  }

  ghost predicate AllApplied(now: seq<Section>, fs: seq<Input>, sms: seq<seq<Merged>>) {
    |fs| == |sms|
    && forall n, i :: 0 <= n < |fs| && 0 <= i < |fs[n].headers| == |sms[n]| && RelocatesKept(fs[n], i) ==> Applied(now, fs[n], sms[n], i)
  }

  /** Relocation sections named like `put_elf_reloc` names them. */
  ghost predicate NamedForTargets(f: Input) {
    forall i :: 0 <= i < |f.headers| && Kept(f, i) && f.headers[i].typ == SHT_REL ==>
      Kept(f, f.headers[i].info) && f.headers[i].name == ".rel" + f.headers[f.headers[i].info].name
  }

  predicate WellTied(ss: seq<Section>, r: nat)
    requires r < |ss|
  {
    var s := ss[r].info;
    && 0 < s < |ss| && ss[r].name == ".rel" + ss[s].name && ss[s].reloc == r
    && First(ss, ss[r].name) == r && First(ss, ss[s].name) == s
  }

  /** All relocation sections are named so and linked with the section of that name. */
  predicate Conventional(ss: seq<Section>) {
    forall r :: 0 < r < |ss| && ss[r].typ == SHT_REL ==> WellTied(ss, r)
  }

  lemma NoFiles(ss: seq<Section>, v: seq<Entry>, symtab: nat)
    ensures Apart([], []) && Entered(v, v, [], []) && History(ss, ss, [], [], [ss], symtab)
    ensures AppliedExactly(ss, [], [], [ss])
  {
    forall rs {:trigger ElfResolution.AddAll(rs)} | ElfResolution.AddAll(rs) == Some(v)
      ensures ElfResolution.AddAll(rs + FileRequests([], [])) == Some(v)
    {
      assert rs + FileRequests([], []) == rs;
    }
  }

  lemma FileSymbols(f: Input)
    requires FileOk(f)
    ensures SymbolSectionsOk(f)
  {
  }

  lemma NotEmpty(table: SymbolTable)
    requires table.Valid()
    ensures |table.Entries()| > 0
  {
  }

  lemma PreservedSelf(ss: seq<Section>)
    ensures Preserved(ss, ss)
  {
  }

  lemma PreservedTrans(a: seq<Section>, b: seq<Section>, c: seq<Section>)
    requires Preserved(a, b) && Preserved(b, c)
    ensures Preserved(a, c)
  {
    forall k | 0 <= k < |a| ensures Extends(a[k], c[k]) {
      assert Extends(a[k], b[k]) && Extends(b[k], c[k]);
    }
  }

  lemma JustPlaced(now: seq<Section>, was: seq<Section>, v: seq<Entry>, w: seq<Entry>, f: Input, sm: seq<Merged>, oldToNew: seq<nat>, dynamic: bool)
    requires FileOk(f) && |sm| == |f.headers| && |oldToNew| == |f.symbols| && |v| > 0
    requires forall i :: 0 <= i < |f.headers| && Kept(f, i) ==> Copied(now, was, f, sm, i)
    requires forall i, e :: 0 <= i < |f.headers| && Kept(f, i) && f.headers[i].typ == SHT_REL && 0 <= 8 * e < f.headers[i].size ==>
      Renumbered(now, f, sm, oldToNew, i, e)
    requires EnterAll(v, f, sm, dynamic, |f.symbols|) == Some((w, oldToNew))
    requires ByName(now, was, f, sm, |f.headers|)
    ensures InPlace(now, w, f, sm, oldToNew)
  {
    hide Renumbered, EnterAll, IsPower, First, SymbolIs;
    SymbolsStay(v, f, sm, dynamic, |f.symbols|);
    forall i | 0 <= i < |f.headers| && Kept(f, i) ensures ContentAt(now, f.headers[i], sm[i]) {
      assert Copied(now, was, f, sm, i);
      var d, m, h := now[sm[i].section].data, sm[i], f.headers[i];
      if h.typ == SHT_PROGBITS { assert d[m.offset..m.offset + |h.content|] == d[m.offset..]; }
    }
  }

  /** A file that is in place stays so when another one, g, is loaded. */
  lemma StaysInPlace(was: seq<Section>, now: seq<Section>, v: seq<Entry>, g: Input, gm: seq<Merged>, dynamic: bool,
                     f: Input, sm: seq<Merged>, oldToNew: seq<nat>)
    requires InPlace(was, v, f, sm, oldToNew) && Preserved(was, now)
    requires |gm| == |g.headers| && SymbolSectionsOk(g) && |v| > 0 && EnterAll(v, g, gm, dynamic, |g.symbols|).Some?
    ensures InPlace(now, EnterAll(v, g, gm, dynamic, |g.symbols|).value.0, f, sm, oldToNew)
  {
    hide EnterAll, IsPower, Get32, First, SymbolIs;
    SymbolsStay(v, g, gm, dynamic, |g.symbols|);
    forall i | 0 <= i < |f.headers| && Kept(f, i) ensures ContentAt(now, f.headers[i], sm[i]) {
      assert ContentAt(was, f.headers[i], sm[i]);
      ContentStays(was[sm[i].section], now[sm[i].section], sm[i].offset, |f.headers[i].content|);
      FirstStays(was, now, f.headers[i].name);
    }
    forall i, e | 0 <= i < |f.headers| && Kept(f, i) && f.headers[i].typ == SHT_REL && 0 <= 8 * e < f.headers[i].size
      ensures Renumbered(now, f, sm, oldToNew, i, e)
    {
      assert Renumbered(was, f, sm, oldToNew, i, e);
      assert Extends(was[sm[i].section], now[sm[i].section]);
      WordStays(was[sm[i].section].data, now[sm[i].section].data, sm[i].offset + 8 * e);
      WordStays(was[sm[i].section].data, now[sm[i].section].data, sm[i].offset + 8 * e + 4);
    }
  }

  lemma ContentStays(s: Section, t: Section, offset: nat, n: nat)
    requires Extends(s, t)
    ensures offset + n <= |s.data| ==> offset + n <= |t.data| && t.data[offset..offset + n] == s.data[offset..offset + n]
  {
    if offset + n <= |s.data| {
      assert t.data[..|s.data|] == s.data;
      assert t.data[offset..offset + n] == t.data[..|s.data|][offset..offset + n];
    }
  }

  lemma WordStays(d: seq<Octet>, e: seq<Octet>, at: nat)
    requires d <= e && at + 4 <= |d|
    ensures Get32(e, at) == Get32(d, at)
  {
  }

  /**
    While symbol numbers fit into a relocation entry, each entry of a loaded file, however many
    files were loaded after it, has its type and names the entry of its symbol's name.
   */
  lemma RelocationSymbol(now: seq<Section>, v: seq<Entry>, f: Input, sm: seq<Merged>, oldToNew: seq<nat>, i: nat, e: nat)
    requires InPlace(now, v, f, sm, oldToNew) && |v| <= 0x100_0000
    requires i < |f.headers| && Kept(f, i) && f.headers[i].typ == SHT_REL && 0 <= 8 * e < f.headers[i].size
    ensures 8 * e + 8 <= |f.headers[i].content| && sm[i].section < |now| && sm[i].offset + 8 * e + 8 <= |now[sm[i].section].data|
    ensures var r, q := Get32(f.headers[i].content, 8 * e + 4), Get32(now[sm[i].section].data, sm[i].offset + 8 * e + 4);
      && q % 256 == r % 256 && r / 256 < |f.symbols|
      && 0 < q / 256 < |v| && v[q / 256].name == f.symbols[r / 256].name
  {
    hide Get32;
    assert Renumbered(now, f, sm, oldToNew, i, e);
    var sym := Get32(f.headers[i].content, 8 * e + 4) / 256;
    assert sym != 0 && !Dropped(f, sm, sym);
    ElfRelocation.InfoDecodes(oldToNew[sym], Get32(f.headers[i].content, 8 * e + 4) % 256);
  }

  /**
    The byte a relocation pointed at in the input is the byte it is applied to after the merge, and
    after later ones: in the section that names the relocation section as its own.
   */
  lemma RelocationTarget(now: seq<Section>, v: seq<Entry>, f: Input, sm: seq<Merged>, oldToNew: seq<nat>, i: nat, e: nat)
    requires InPlace(now, v, f, sm, oldToNew)
    requires i < |f.headers| && RelocatesKept(f, i) && Applied(now, f, sm, i) && 0 <= 8 * e < f.headers[i].size
    requires f.headers[f.headers[i].info].typ == SHT_PROGBITS && |now[now[sm[i].section].info].data| <= 0x1_0000_0000
    ensures 8 * e + 8 <= |f.headers[i].content| && sm[i].section < |now| && sm[i].offset + 8 * e + 8 <= |now[sm[i].section].data|
    ensures var s := now[sm[i].section].info; var t := f.headers[i].info; var x := Get32(f.headers[i].content, 8 * e);
      var place := Get32(now[sm[i].section].data, sm[i].offset + 8 * e);
      && now[s].reloc == sm[i].section && now[s].name == f.headers[t].name
      && (x < |f.headers[t].content| ==>
        place == sm[t].offset + x < |now[s].data| && now[s].data[place] == f.headers[t].content[x])
  {
    hide Get32;
    var t := f.headers[i].info;
    assert Renumbered(now, f, sm, oldToNew, i, e) && ContentAt(now, f.headers[t], sm[t]);
    FirstRange(now, f.headers[t].name);
    var d, x, o := now[sm[t].section].data, Get32(f.headers[i].content, 8 * e), sm[t].offset;
    if x < |f.headers[t].content| {
      assert d[o..o + |f.headers[t].content|][x] == d[o + x];
    }
  }

  /**
    A local symbol (binding 0) of a loaded file, however many files were loaded after it, has its size and kind. If it
    was defined in contents that were kept it names the byte there that it named in the file; if it had no section
    or a reserved one (from 0xff00 on) it has that number and its value.
   */
  lemma SymbolByte(now: seq<Section>, v: seq<Entry>, f: Input, sm: seq<Merged>, oldToNew: seq<nat>, i: nat)
    requires InPlace(now, v, f, sm, oldToNew) && 1 <= i < |f.symbols| && f.symbols[i].info < 16
    requires var x := f.symbols[i].shndx; 0 < x < 0xff00 ==> Kept(f, x)
    ensures var x, e := f.symbols[i], v[oldToNew[i]];
      && e.name == x.name && e.size == x.size && e.info == x.info
      && (!(0 < x.shndx < 0xff00) ==> e.shndx == x.shndx && e.value == x.value)
      && (0 < x.shndx < 0xff00 && f.headers[x.shndx].typ == 1 && 0 <= x.value < |f.headers[x.shndx].content| ==>
        && 0 < e.shndx < |now| && now[e.shndx].name == f.headers[x.shndx].name
        && 0 <= e.value < |now[e.shndx].data| && now[e.shndx].data[e.value] == f.headers[x.shndx].content[x.value])
  {
    var x := f.symbols[i];
    if 0 < x.shndx < 0xff00 {
      var h, m := f.headers[x.shndx], sm[x.shndx];
      assert ContentAt(now, h, m);
      FirstRange(now, h.name);
      if h.typ == 1 && 0 <= x.value < |h.content| {
        assert now[m.section].data[m.offset..m.offset + |h.content|][x.value] == now[m.section].data[m.offset + x.value];
      }
    }
    assert !Dropped(f, sm, i) && SymbolIs(v, RequestOf(f, sm, i), oldToNew[i]);
  }

  /** When they are not applied there, they are applied to other sections or to none. */
  lemma GoneAstray(now: seq<Section>, f: Input, sm: seq<Merged>, i: nat, s: nat)
    requires |sm| == |f.headers| && RelocatesKept(f, i) && !Applied(now, f, sm, i)
    requires Tied(now) && s < |now| && now[s].reloc == sm[i].section != 0
    ensures s != TargetOf(f, sm, i)
  {
  }

  /** Entering symbols leaves an entry for every symbol there was. */
  lemma {:induction false} SymbolsStay(v: seq<Entry>, f: Input, sm: seq<Merged>, dynamic: bool, n: nat)
    requires |sm| == |f.headers| && SymbolSectionsOk(f) && n <= |f.symbols| && |v| > 0
    requires EnterAll(v, f, sm, dynamic, n).Some?
    ensures var r := EnterAll(v, f, sm, dynamic, n).value;
      && |v| <= |r.0| && (forall q, k :: SymbolIs(v, q, k) ==> SymbolIs(r.0, q, k))
      && (forall i :: 1 <= i < n && !Dropped(f, sm, i) ==> SymbolIs(r.0, RequestOf(f, sm, i), r.1[i]))
      && (forall i :: 0 <= i < |f.symbols| && (i == 0 || i >= n || Dropped(f, sm, i)) ==> r.1[i] == 0)
  {
    hide Add, SymbolIs;
    if n > 1 {
      SymbolsStay(v, f, sm, dynamic, n - 1);
      if !Dropped(f, sm, n - 1) {
        AddKeeps(EnterAll(v, f, sm, dynamic, n - 1).value.0, RequestOf(f, sm, n - 1), dynamic);
      }
    }
  }

  lemma AddKeeps(v: seq<Entry>, r: Request, dynamic: bool)
    requires |v| > 0 && Add(v, r, dynamic).Added?
    ensures var a := Add(v, r, dynamic);
      |v| <= |a.v| && SymbolIs(a.v, r, a.index) && forall q, k :: SymbolIs(v, q, k) ==> SymbolIs(a.v, q, k)
  {
    hide Linear;
  }

  /**
    With the whole history of the table: a symbol of a loaded file that is not local has the only
    entry of its name, which is the strong definition among all requests if there is one, else a definition.
   */
  lemma SymbolResolved(now: seq<Section>, v: seq<Entry>, rs: seq<Request>, f: Input, sm: seq<Merged>, oldToNew: seq<nat>, i: nat, k: nat)
    requires InPlace(now, v, f, sm, oldToNew) && 1 <= i < |f.symbols| && !Dropped(f, sm, i)
    requires ElfResolution.AddAll(rs) == Some(v) && k < |rs| && rs[k] == RequestOf(f, sm, i) && ElfResolution.Global(rs[k])
    ensures oldToNew[i] == Linear(v, f.symbols[i].name, |v|) && oldToNew[i] < |v|
    ensures ElfResolution.Justified(v[oldToNew[i]], rs)
    ensures ElfResolution.Strong(rs[k]) && ElfResolution.Defines(rs[k], f.symbols[i].name) ==> v[oldToNew[i]] == EntryOf(rs[k])
  {
    hide Linear, ElfResolution.AddAll, ElfResolution.Justified;
    assert SymbolIs(v, RequestOf(f, sm, i), oldToNew[i]);
    ElfResolution.AllResolved(rs);
    ElfResolution.Denotes(rs, k);
  }

  lemma {:induction false} EnterIsAddAll(rs: seq<Request>, v: seq<Entry>, f: Input, sm: seq<Merged>, n: nat)
    requires |sm| == |f.headers| && SymbolSectionsOk(f) && n <= |f.symbols|
    requires ElfResolution.AddAll(rs) == Some(v) && EnterAll(v, f, sm, false, n).Some?
    ensures ElfResolution.AddAll(rs + Requests(f, sm, n)) == Some(EnterAll(v, f, sm, false, n).value.0)
  {
    hide Add;
    if n <= 1 {
      assert rs + [] == rs;
    } else {
      EnterIsAddAll(rs, v, f, sm, n - 1);
      var before := rs + Requests(f, sm, n - 1);
      if Dropped(f, sm, n - 1) {
        assert Requests(f, sm, n) == Requests(f, sm, n - 1);
      } else {
        var r := RequestOf(f, sm, n - 1);
        assert rs + Requests(f, sm, n) == before + [r];
        assert (before + [r])[..|before|] == before;
      }
    }
  }

  lemma EnteredMore(v0: seq<Entry>, v: seq<Entry>, w: seq<Entry>, fs: seq<Input>, sms: seq<seq<Merged>>,
                    f: Input, sm: seq<Merged>, oldToNew: seq<nat>)
    requires Entered(v0, v, fs, sms) && |sm| == |f.headers| && SymbolSectionsOk(f)
    requires EnterAll(v, f, sm, false, |f.symbols|) == Some((w, oldToNew))
    ensures Entered(v0, w, fs + [f], sms + [sm])
  {
    hide EnterAll, ElfResolution.AddAll, Requests;
    var more: seq<Input>, mores: seq<seq<Merged>> := fs + [f], sms + [sm];
    assert more[..|fs|] == fs && mores[..|fs|] == sms;
    var own := Requests(f, sm, |f.symbols|);
    assert FileRequests(more, mores) == FileRequests(fs, sms) + own;
    forall rs {:trigger ElfResolution.AddAll(rs)} | ElfResolution.AddAll(rs) == Some(v0)
      ensures ElfResolution.AddAll(rs + FileRequests(more, mores)) == Some(w)
    {
      EnterIsAddAll(rs + FileRequests(fs, sms), v, f, sm, |f.symbols|);
      assert rs + FileRequests(fs, sms) + own == rs + FileRequests(more, mores);
    }
  }

  // ----- links after a load -----

  /** The last new relocation section for section k, when there is none from b on. */
  lemma {:induction false} LastTaker(ss: seq<Section>, f: Input, sm: seq<Merged>, a: nat, b: nat, k: nat) returns (i: nat)
    requires Mapped(ss, f, sm) && a <= b <= |sm| && !NoneFor(ss, f, sm, a, |sm|, k) && NoneFor(ss, f, sm, b, |sm|, k)
    ensures a <= i < |sm| && NewRelocation(f, sm, i) && TargetOf(f, sm, i) == k && NoneFor(ss, f, sm, i + 1, |sm|, k)
    decreases b
  {
    if NewRelocation(f, sm, b - 1) && TargetOf(f, sm, b - 1) == k {
      i := b - 1;
    } else {
      i := LastTaker(ss, f, sm, a, b - 1, k);
    }
  }

  /** A new relocation section goes for the section of t only if it is for t. */
  lemma SameTarget(now: seq<Section>, was: seq<Section>, f: Input, sm: seq<Merged>, symtab: nat, t: nat, j: nat)
    requires Relinked(was, now, f, sm, symtab) && DistinctNames(f) && Kept(f, t) && RelocationsOk(f)
    requires symtab < |was| && Preserved(was, now) && was[symtab].typ == SHT_SYMTAB
    requires forall i :: 0 <= i < |f.headers| && Kept(f, i) ==> Copied(now, was, f, sm, i)
    requires j < |sm| && NewRelocation(f, sm, j)
    ensures TargetOf(f, sm, j) == sm[t].section <==> f.headers[j].info == t
  {
    hide First, IsPower, NoneFor;
    var u := f.headers[j].info;
    assert Copied(now, was, f, sm, t) && Extends(was[symtab], now[symtab]);
    assert Kept(f, u) ==> Copied(now, was, f, sm, u);
  }

  lemma SameTargets(now: seq<Section>, was: seq<Section>, f: Input, sm: seq<Merged>, t: nat, a: nat)
    requires Mapped(now, f, sm) && t < |sm| && forall i :: 0 <= i < |sm| ==> (sm[i].isNew <==> Kept(f, i) && Fresh(was, f, i))
    requires forall j :: 0 <= j < |sm| && NewRelocation(f, sm, j) ==> (TargetOf(f, sm, j) == sm[t].section <==> f.headers[j].info == t)
    ensures NoneFor(now, f, sm, a, |sm|, sm[t].section) <==> NoneNewFor(was, f, a, t)
  {
    hide First;
    forall j | 0 <= j < |sm| ensures NewRelocation(f, sm, j) <==> NewFor(was, f, j) {
    }
  }

  lemma AttachedExactly(was: seq<Section>, now: seq<Section>, f: Input, sm: seq<Merged>, symtab: nat, i: nat)
    requires Relinked(was, now, f, sm, symtab) && ByName(now, was, f, sm, |f.headers|) && Preserved(was, now) && NumbersOk(was)
    requires DistinctNames(f) && RelocationsOk(f) && symtab < |was| && was[symtab].typ == SHT_SYMTAB
    requires forall k :: 0 <= k < |f.headers| && Kept(f, k) ==> Copied(now, was, f, sm, k)
    requires RelocatesKept(f, i)
    ensures Applied(now, f, sm, i) <==> Attached(was, f, i)
  {
    hide First, IsPower, NoneFor, NoneNewFor;
    var t := f.headers[i].info;
    var r, s := sm[i].section, sm[t].section;
    forall j | 0 <= j < |sm| && NewRelocation(f, sm, j) ensures TargetOf(f, sm, j) == s <==> f.headers[j].info == t {
      SameTarget(now, was, f, sm, symtab, t, j);
    }
    SameTargets(now, was, f, sm, t, 0);
    SameTargets(now, was, f, sm, t, i + 1);
    FirstStays(was, now, f.headers[i].name);
    FirstStays(was, now, f.headers[t].name);
    FirstRange(was, f.headers[i].name);
    FirstRange(was, f.headers[t].name);
    assert Copied(now, was, f, sm, i) && Copied(now, was, f, sm, t);
    if Fresh(was, f, i) {
      if !NoneFor(now, f, sm, i + 1, |sm|, s) {
        var j := LastTaker(now, f, sm, i + 1, |sm|, s);
      }
    } else {
      assert Extends(was[r], now[r]);
      if !Fresh(was, f, t) && !NoneFor(now, f, sm, 0, |sm|, s) {
        var j := LastTaker(now, f, sm, 0, |sm|, s);
      }
    }
  }

  lemma NumbersAfter(was: seq<Section>, now: seq<Section>, f: Input, sm: seq<Merged>, symtab: nat)
    requires Relinked(was, now, f, sm, symtab) && Covered(now, was, f, sm, |f.headers|) && Preserved(was, now) && NumbersOk(was)
    requires forall k :: 0 <= k < |f.headers| && Kept(f, k) ==> Copied(now, was, f, sm, k)
    ensures NumbersOk(now)
    ensures Tied(was) ==> Tied(now)
  {
    hide First, IsPower, NoneFor;
    forall k | 0 <= k < |now|
      ensures now[k].reloc < |now| && (now[k].typ == SHT_REL ==> now[k].info < |now|)
      ensures Tied(was) && now[k].reloc != 0 ==> now[now[k].reloc].typ == SHT_REL && now[now[k].reloc].info == k
    {
      if !NoneFor(now, f, sm, 0, |sm|, k) {
        var j := LastTaker(now, f, sm, 0, |sm|, k);
        assert Copied(now, was, f, sm, j);
      } else if k < |was| && was[k].reloc != 0 {
        assert Extends(was[was[k].reloc], now[was[k].reloc]);
      }
      if k < |was| {
        assert Extends(was[k], now[k]);
      } else {
        assert StartedBy(f, sm, |f.headers|, k);
        var i :| 0 <= i < |f.headers| && i < |sm| && Kept(f, i) && sm[i].section == k;
        assert Copied(now, was, f, sm, i);
        NewIsFresh(was, now, f, sm, symtab, i);
      }
    }
  }

  lemma NewIsFresh(was: seq<Section>, now: seq<Section>, f: Input, sm: seq<Merged>, symtab: nat, i: nat)
    requires Relinked(was, now, f, sm, symtab) && i < |sm| && |was| <= sm[i].section && Kept(f, i)
    ensures now[sm[i].section].info < |now|
  {
  }

  lemma OutcomeLinks(
      was: seq<Section>, merged: seq<Section>, mid: seq<Section>, now: seq<Section>,
      f: Input, sm: seq<Merged>, symtab: nat, oldToNew: seq<nat>)
    requires Progress(merged, was, f, sm, symtab, |f.headers|) && ByName(merged, was, f, sm, |f.headers|)
    requires Covered(merged, was, f, sm, |f.headers|) && Unlinked(merged, was) && Mapped(merged, f, sm)
    requires LinkedUp(merged, mid, f, sm, |f.headers|) && SameContents(merged, mid)
    requires forall i :: 0 <= i < |sm| && NewRelocation(f, sm, i) ==> TargetOf(f, sm, i) != 0
    requires NumbersOk(was) && DistinctNames(f) && RelocationsOk(f) && symtab < |was| && was[symtab].typ == SHT_SYMTAB
    requires AllPatched(mid, now, f, sm, oldToNew, |f.headers|) && Preserved(was, now)
    requires forall i :: 0 <= i < |f.headers| && Kept(f, i) ==> Copied(now, was, f, sm, i)
    ensures Relinked(was, now, f, sm, symtab) && ByName(now, was, f, sm, |f.headers|) && Covered(now, was, f, sm, |f.headers|)
    ensures forall i :: 0 <= i < |f.headers| && RelocatesKept(f, i) ==> (Applied(now, f, sm, i) <==> Attached(was, f, i))
    ensures NumbersOk(now) && (Tied(was) ==> Tied(now))
  {
    hide Relinked, Copied, Progress, Unlinked, Mapped, LinkedUp, Applied, Attached, Tied, NumbersOk, Preserved, DistinctNames;
    assert |now| == |mid| && forall k :: 0 <= k < |mid| ==> now[k] == mid[k].(data := now[k].data);
    RelinkedAfter(was, merged, mid, now, f, sm, symtab);
    assert |sm| == |f.headers| by { MappedLength(merged, f, sm); }
    NamesAfter(was, merged, now, f, sm, symtab);
    NumbersAfter(was, now, f, sm, symtab);
    forall i | 0 <= i < |f.headers| && RelocatesKept(f, i) ensures Applied(now, f, sm, i) <==> Attached(was, f, i) {
      AttachedExactly(was, now, f, sm, symtab, i);
    }
  }

  lemma MappedLength(ss: seq<Section>, f: Input, sm: seq<Merged>)
    requires Mapped(ss, f, sm)
    ensures |sm| == |f.headers|
  {
  }

  lemma NamesAfter(was: seq<Section>, merged: seq<Section>, now: seq<Section>, f: Input, sm: seq<Merged>, symtab: nat)
    requires |sm| == |f.headers| && ByName(merged, was, f, sm, |f.headers|) && Covered(merged, was, f, sm, |f.headers|)
    requires |now| == |merged| && forall k :: 0 <= k < |merged| ==> now[k].name == merged[k].name
    ensures ByName(now, was, f, sm, |f.headers|) && Covered(now, was, f, sm, |f.headers|)
  {
    hide First, StartedBy;
    forall i | 0 <= i < |f.headers| && Kept(f, i) ensures First(now, f.headers[i].name) == First(merged, f.headers[i].name) {
      FirstStays(merged, now, f.headers[i].name);
    }
  }

  // ----- links after several loads -----

  /** Loading g keeps what a relocation section is applied to, unless a new one takes its target. */
  lemma AppliedStays(was: seq<Section>, now: seq<Section>, g: Input, gm: seq<Merged>, symtab: nat, f: Input, sm: seq<Merged>, i: nat)
    requires RelocatesKept(f, i) && |sm| == |f.headers|
    requires ContentAt(was, f.headers[i], sm[i]) && ContentAt(was, f.headers[f.headers[i].info], sm[f.headers[i].info])
    requires Relinked(was, now, g, gm, symtab) && ByName(now, was, g, gm, |g.headers|) && Preserved(was, now)
    requires symtab < |was| && was[symtab].typ == SHT_SYMTAB
    ensures Applied(now, f, sm, i) <==> Applied(was, f, sm, i) && !Takes(was, g, f.headers[f.headers[i].info].name)
  {
    hide First, NoneFor;
    var t := f.headers[i].info;
    var r, s, name := sm[i].section, sm[t].section, f.headers[t].name;
    FirstStays(was, now, name);
    FirstRange(now, name);
    assert Extends(was[s], now[s]);
    forall j | 0 <= j < |gm| && NewRelocation(g, gm, j)
      ensures TargetOf(g, gm, j) == s <==> RelocatesKept(g, j) && g.headers[g.headers[j].info].name == name
    {
      FirstRange(now, g.headers[g.headers[j].info].name);
    }
    if NoneFor(now, g, gm, 0, |gm|, s) {
      NoTaker(was, now, g, gm, s, name);
    } else {
      var j := LastTaker(now, g, gm, 0, |gm|, s);
      assert RelocatesKept(g, j) && Fresh(was, g, j);
    }
  }

  lemma NoTaker(was: seq<Section>, now: seq<Section>, g: Input, gm: seq<Merged>, s: nat, name: string)
    requires Mapped(now, g, gm) && NoneFor(now, g, gm, 0, |gm|, s)
    requires forall i :: 0 <= i < |gm| ==> (gm[i].isNew <==> Kept(g, i) && Fresh(was, g, i))
    requires forall j :: 0 <= j < |gm| && NewRelocation(g, gm, j) && RelocatesKept(g, j) && g.headers[g.headers[j].info].name == name ==>
      TargetOf(g, gm, j) == s
    ensures !Takes(was, g, name)
  {
    hide First;
    forall j | 0 <= j < |g.headers| && RelocatesKept(g, j) && Fresh(was, g, j) ensures g.headers[g.headers[j].info].name != name {
      assert NewRelocation(g, gm, j);
    }
  }

  lemma PrefixCancel(a: string, b: string)
    requires ".rel" + a == ".rel" + b
    ensures a == b
  {
    assert a == (".rel" + a)[4..] && b == (".rel" + b)[4..];
  }

  /** In a conventional table every relocation section of a file named for targets is applied. */
  lemma ConventionalApplies(now: seq<Section>, f: Input, sm: seq<Merged>, i: nat)
    requires Conventional(now) && NamedForTargets(f) && RelocatesKept(f, i) && |sm| == |f.headers|
    requires ContentAt(now, f.headers[i], sm[i]) && ContentAt(now, f.headers[f.headers[i].info], sm[f.headers[i].info])
    ensures Applied(now, f, sm, i)
  {
    hide First;
    var t, r := f.headers[i].info, sm[i].section;
    FirstRange(now, f.headers[i].name);
    FirstRange(now, f.headers[t].name);
    assert WellTied(now, r);
    PrefixCancel(now[now[r].info].name, f.headers[t].name);
  }

  lemma EveryOneApplied(now: seq<Section>, v: seq<Entry>, fs: seq<Input>, sms: seq<seq<Merged>>, olds: seq<seq<nat>>)
    requires |sms| == |olds| == |fs| && forall n :: 0 <= n < |fs| ==> InPlace(now, v, fs[n], sms[n], olds[n])
    requires Conventional(now) && forall f :: f in fs ==> NamedForTargets(f)
    ensures AllApplied(now, fs, sms)
  {
    hide InPlace, Conventional, NamedForTargets, ContentAt, Applied;
    forall n, i | 0 <= n < |fs| && 0 <= i < |fs[n].headers| == |sms[n]| && RelocatesKept(fs[n], i) ensures Applied(now, fs[n], sms[n], i) {
      InPlaceContent(now, v, fs[n], sms[n], olds[n]);
      ConventionalApplies(now, fs[n], sms[n], i);
    }
  }

  lemma ConventionalMore(was: seq<Section>, now: seq<Section>, f: Input, sm: seq<Merged>, symtab: nat)
    requires Conventional(was) && NamedForTargets(f) && Relinked(was, now, f, sm, symtab) && ByName(now, was, f, sm, |f.headers|)
    requires Covered(now, was, f, sm, |f.headers|) && Preserved(was, now) && DistinctNames(f)
    requires forall k :: 0 <= k < |f.headers| && Kept(f, k) ==> Copied(now, was, f, sm, k)
    ensures Conventional(now)
  {
    hide First, IsPower;
    forall r | 0 < r < |now| && now[r].typ == SHT_REL ensures WellTied(now, r) {
      if r < |was| {
        OldTied(was, now, f, sm, symtab, r);
      } else {
        assert StartedBy(f, sm, |f.headers|, r);
        var i :| 0 <= i < |f.headers| && i < |sm| && Kept(f, i) && sm[i].section == r;
        NewTied(was, now, f, sm, symtab, i);
      }
    }
  }

  lemma OldTied(was: seq<Section>, now: seq<Section>, f: Input, sm: seq<Merged>, symtab: nat, r: nat)
    requires Conventional(was) && NamedForTargets(f) && Relinked(was, now, f, sm, symtab) && ByName(now, was, f, sm, |f.headers|)
    requires Preserved(was, now) && 0 < r < |was| && now[r].typ == SHT_REL
    ensures WellTied(now, r)
  {
    hide First, NoneFor;
    assert Extends(was[r], now[r]) && WellTied(was, r);
    var s := was[r].info;
    assert Extends(was[s], now[s]);
    FirstStays(was, now, was[r].name);
    FirstStays(was, now, was[s].name);
    if !NoneFor(now, f, sm, 0, |sm|, s) {
      var j := LastTaker(now, f, sm, 0, |sm|, s);
      FirstRange(now, f.headers[f.headers[j].info].name);
    }
  }

  lemma NewTied(was: seq<Section>, now: seq<Section>, f: Input, sm: seq<Merged>, symtab: nat, i: nat)
    requires NamedForTargets(f) && Relinked(was, now, f, sm, symtab) && ByName(now, was, f, sm, |f.headers|)
    requires DistinctNames(f) && i < |f.headers| && Kept(f, i) && |was| <= sm[i].section && f.headers[i].typ == SHT_REL
    requires forall k :: 0 <= k < |f.headers| && Kept(f, k) ==> Copied(now, was, f, sm, k)
    ensures WellTied(now, sm[i].section)
  {
    hide First, NoneFor, IsPower;
    var t := f.headers[i].info;
    assert NewRelocation(f, sm, i) && Copied(now, was, f, sm, t) && Copied(now, was, f, sm, i);
    if !NoneFor(now, f, sm, i + 1, |sm|, sm[t].section) {
      var j := LastTaker(now, f, sm, i + 1, |sm|, sm[t].section);
    }
  }

  lemma ApartMore(was: seq<Section>, now: seq<Section>, fs: seq<Input>, sms: seq<seq<Merged>>, f: Input, sm: seq<Merged>)
    requires Apart(fs, sms) && DistinctNames(f) && |sm| == |f.headers| && Preserved(was, now)
    requires forall n :: 0 <= n < |fs| ==> AllContent(was, fs[n], sms[n])
    requires forall k :: 0 <= k < |f.headers| && Kept(f, k) ==> Copied(now, was, f, sm, k)
    ensures Apart(fs + [f], sms + [sm])
  {
    hide First, IsPower;
    var more: seq<Input>, mores: seq<seq<Merged>> := fs + [f], sms + [sm];
    forall n, i: nat, j: nat | 0 <= n < |more| && SharedSection(more[n], mores[n], i, more[n], mores[n], j) ensures i == j {
      if n < |fs| {
        assert more[n] == fs[n] && mores[n] == sms[n];
      } else {
        assert Copied(now, was, f, sm, i) && Copied(now, was, f, sm, j);
      }
    }
    forall m, n, i: nat, j: nat | 0 <= m < n < |more| && SharedSection(more[m], mores[m], i, more[n], mores[n], j)
      ensures mores[m][i].offset + more[m].headers[i].size <= mores[n][j].offset
    {
      assert more[m] == fs[m] && mores[m] == sms[m];
      if n < |fs| {
        assert more[n] == fs[n] && mores[n] == sms[n];
      } else {
        assert Copied(now, was, f, sm, j);
        assert ContentAt(was, fs[m].headers[i], sms[m][i]);
      }
    }
  }

  lemma HistoryMore(start: seq<Section>, was: seq<Section>, now: seq<Section>, fs: seq<Input>, sms: seq<seq<Merged>>,
                    states: seq<seq<Section>>, f: Input, sm: seq<Merged>, symtab: nat)
    requires History(start, was, fs, sms, states, symtab) && |sm| == |f.headers|
    requires Relinked(was, now, f, sm, symtab) && ByName(now, was, f, sm, |f.headers|)
    ensures History(start, now, fs + [f], sms + [sm], states + [now], symtab)
  {
    hide Relinked, ByName;
  }

  lemma AppliedMore(was: seq<Section>, now: seq<Section>, fs: seq<Input>, sms: seq<seq<Merged>>, states: seq<seq<Section>>,
                    f: Input, sm: seq<Merged>, symtab: nat)
    requires AppliedExactly(was, fs, sms, states) && states[|fs|] == was && |sm| == |f.headers|
    requires forall n :: 0 <= n < |fs| ==> AllContent(was, fs[n], sms[n])
    requires Relinked(was, now, f, sm, symtab) && ByName(now, was, f, sm, |f.headers|) && Preserved(was, now)
    requires symtab < |was| && was[symtab].typ == SHT_SYMTAB
    requires forall i :: 0 <= i < |f.headers| && RelocatesKept(f, i) ==> (Applied(now, f, sm, i) <==> Attached(was, f, i))
    ensures AppliedExactly(now, fs + [f], sms + [sm], states + [now])
  {
    hide Applied, Attached, Takes, ContentAt, Relinked, ByName, Preserved;
    var more, mores, after := fs + [f], sms + [sm], states + [now];
    forall n, i | 0 <= n < |more| && 0 <= i < |more[n].headers| == |mores[n]| && RelocatesKept(more[n], i)
      ensures Applied(now, more[n], mores[n], i) <==> Attached(after[n], more[n], i) && !TakenLater(after, more, n, i)
    {
      if n < |fs| {
        assert more[n] == fs[n] && mores[n] == sms[n] && after[n] == states[n];
        AppliedStays(was, now, f, sm, symtab, fs[n], sms[n], i);
        TakenMore(was, now, fs, states, f, n, i);
      } else {
        assert more[n] == f && mores[n] == sm && after[n] == was;
      }
    }
  }

  lemma TakenMore(was: seq<Section>, now: seq<Section>, fs: seq<Input>, states: seq<seq<Section>>, f: Input, n: nat, i: nat)
    requires |states| == |fs| + 1 && states[|fs|] == was && n < |fs| && RelocatesKept(fs[n], i)
    ensures var name := fs[n].headers[fs[n].headers[i].info].name;
      TakenLater(states + [now], fs + [f], n, i) <==> TakenLater(states, fs, n, i) || Takes(was, f, name)
  {
    hide Takes;
    var name := fs[n].headers[fs[n].headers[i].info].name;
    var more, after := fs + [f], states + [now];
    if TakenLater(states, fs, n, i) {
      var m :| n < m < |fs| && Takes(states[m], fs[m], name);
      assert after[m] == states[m] && more[m] == fs[m];
    }
    if Takes(was, f, name) {
      assert after[|fs|] == was && more[|fs|] == f;
    }
    if TakenLater(after, more, n, i) {
      var m :| n < m < |more| && Takes(after[m], more[m], name);
      if m < |fs| { assert after[m] == states[m] && more[m] == fs[m]; }
    }
  }

  lemma InPlaceContent(now: seq<Section>, v: seq<Entry>, f: Input, sm: seq<Merged>, oldToNew: seq<nat>)
    requires InPlace(now, v, f, sm, oldToNew)
    ensures AllContent(now, f, sm)
  {
  }

  ghost predicate AllContent(now: seq<Section>, f: Input, sm: seq<Merged>) {
    && |sm| == |f.headers|
    && (forall i :: 0 <= i < |f.headers| && Kept(f, i) ==> ContentAt(now, f.headers[i], sm[i]))
  }

  lemma OneMoreFile(start: seq<Section>, was: seq<Section>, now: seq<Section>, fs: seq<Input>, sms: seq<seq<Merged>>,
                    olds: seq<seq<nat>>, states: seq<seq<Section>>, v: seq<Entry>, f: Input, sm: seq<Merged>, symtab: nat)
    requires |sms| == |olds| == |fs| && forall n :: 0 <= n < |fs| ==> InPlace(was, v, fs[n], sms[n], olds[n])
    requires Apart(fs, sms) && History(start, was, fs, sms, states, symtab) && AppliedExactly(was, fs, sms, states)
    requires FileOk(f) && |sm| == |f.headers| && Preserved(was, now) && symtab < |was| && was[symtab].typ == SHT_SYMTAB
    requires Relinked(was, now, f, sm, symtab) && ByName(now, was, f, sm, |f.headers|) && Covered(now, was, f, sm, |f.headers|)
    requires forall k :: 0 <= k < |f.headers| && Kept(f, k) ==> Copied(now, was, f, sm, k)
    requires forall i :: 0 <= i < |f.headers| && RelocatesKept(f, i) ==> (Applied(now, f, sm, i) <==> Attached(was, f, i))
    ensures Apart(fs + [f], sms + [sm]) && History(start, now, fs + [f], sms + [sm], states + [now], symtab)
    ensures AppliedExactly(now, fs + [f], sms + [sm], states + [now])
    ensures Conventional(was) && NamedForTargets(f) ==> Conventional(now)
  {
    hide InPlace, Apart, AppliedExactly, Relinked, ByName, Covered, Preserved, Copied, Applied, Attached, Conventional, NamedForTargets, ContentAt;
    forall n | 0 <= n < |fs| ensures AllContent(was, fs[n], sms[n]) {
      InPlaceContent(was, v, fs[n], sms[n], olds[n]);
    }
    ApartMore(was, now, fs, sms, f, sm);
    HistoryMore(start, was, now, fs, sms, states, f, sm, symtab);
    AppliedMore(was, now, fs, sms, states, f, sm, symtab);
    if Conventional(was) && NamedForTargets(f) { ConventionalMore(was, now, f, sm, symtab); }
  }
}
