/**
  Files whose relocations `tcc_load_object_file` of tcc_10/tccelf.c moves but never applies, and
  one on which it follows a null pointer.
 */
module ElfDetached {
  import opened Options
  import opened Memory
  import opened ElfAlign
  import opened ElfEntry
  import opened ElfSymbolTable
  import opened ElfMerge

  const NO_SECTION := Section("", 0, 0, 0, [], 0, 0, 0)
  const SYMTAB := Section(".symtab", SHT_SYMTAB, 4, 0, [], 0, 0, 0)
  const NO_HEADER := Header("", 0, 0, 0, 0, 0, [])
  const LOCAL_SYMBOL := InputSymbol([120], 0, 0, 0, 1)
  const NULL_INPUT := InputSymbol([], 0, 0, 0, 0)

  /** One R_386_32 of symbol 1 at offset 0. */
  const ENTRY: seq<Octet> := [0, 0, 0, 0, 1, 1, 0, 0]

  function Contents(name: string): Header { Header(name, SHT_PROGBITS, 0, 0, 0, 4, [7, 7, 7, 7]) }

  function Relocations(name: string, target: nat): Header { Header(name, SHT_REL, 0, 0, target, 8, ENTRY) }

  function FileOf(headers: seq<Header>): Input { Input(headers, 0, [NULL_INPUT, LOCAL_SYMBOL]) }

  lemma EntryReads()
    ensures Get32(ENTRY, 4) / 256 == 1 && Get32(ENTRY, 0) == 0
  {
  }

  /** A file of these headers gets through symbols and relocations. */
  lemma Enters(v: seq<Entry>, f: Input, sm: seq<Merged>)
    requires |sm| == |f.headers| > 1 && SymbolSectionsOk(f) && f.symbols == [NULL_INPUT, LOCAL_SYMBOL] && |v| > 0
    ensures var all := EnterAll(v, f, sm, false, 2);
      all.Some? && (sm[1].section != 0 ==> all.value.1 == [0, |v|])
  {
    assert EnterAll(v, f, sm, false, 1) == Some((v, seq(2, i => 0)));
    EnterStep(v, f, sm, false, 1);
  }

  lemma AllEntriesGood(f: Input, oldToNew: seq<nat>)
    requires |oldToNew| == 2 && oldToNew[1] != 0
    requires forall i :: 0 <= i < |f.headers| && Kept(f, i) && f.headers[i].typ == SHT_REL ==> f.headers[i].content == ENTRY
    ensures RelocationsGood(f, oldToNew, |f.headers|)
  {
    EntryReads();
    hide Get32;
    forall i | 0 <= i < |f.headers| && Kept(f, i) && f.headers[i].typ == SHT_REL ensures EntriesGood(f.headers[i].content, 0, oldToNew) {
    }
  }

  /** The text of one file with its relocations, and a file that calls the relocations of its data the same. */
  const TEXT_LOADED: seq<Section> := [NO_SECTION, SYMTAB,
    Section(".text", SHT_PROGBITS, 1, 4, [9, 9, 9, 9], 0, 0, 3), Section(".rel.text", SHT_REL, 1, 0, [], 1, 2, 0)]

  const DATA_FILE := FileOf([NO_HEADER, Contents(".data"), Relocations(".rel.text", 1)])

  lemma Names()
    ensures ".data" != ".text" && ".data" != ".rel.text" && ".data" != "" && ".data" != ".symtab" && ".rel.text" != ".text"
    ensures ".rel.a" != ".rel.b" && ".rel.a" != ".text" && ".rel.b" != ".text" && ".text" != ".symtab" && ".rel.a" != ".symtab"
    ensures ".rel.b" != ".symtab" && ".rel.text" != ".symtab" && ".note" != ".rel.text"
  {
    assert |".data"| == |".text"| == |".note"| == 5 && |".rel.text"| == 9 && |".rel.a"| == |".rel.b"| == 6 && |".symtab"| == 7;
    assert ".data"[1] != ".text"[1] && ".rel.a"[5] != ".rel.b"[5];
  }

  lemma DataFile()
    ensures FileOk(DATA_FILE) && TypesAgree(TEXT_LOADED, DATA_FILE) && TargetsMerged(TEXT_LOADED, DATA_FILE)
    ensures Fresh(TEXT_LOADED, DATA_FILE, 1) && First(TEXT_LOADED, ".rel.text") == 3
    ensures RelocatesKept(DATA_FILE, 2) && !Attached(TEXT_LOADED, DATA_FILE, 2)
  {
    Names();
    assert FirstFrom(TEXT_LOADED, ".rel.text", 3) == 3;
    assert FirstFrom(TEXT_LOADED, ".rel.text", 2) == 3;
    assert FirstFrom(TEXT_LOADED, ".data", 4) == 0;
    assert FirstFrom(TEXT_LOADED, ".data", 3) == 0;
    assert FirstFrom(TEXT_LOADED, ".data", 2) == 0;
  }

  /** What a successful load makes of it. */
  lemma DataDetached(now: seq<Section>, sm: seq<Merged>, oldToNew: seq<nat>)
    requires |sm| == 3 && |oldToNew| == 2 && Preserved(TEXT_LOADED, now) && ByName(now, TEXT_LOADED, DATA_FILE, sm, 3)
    requires Relinked(TEXT_LOADED, now, DATA_FILE, sm, 1)
    requires (sm[2].section == 3 ==> sm[2].offset == 0) && Renumbered(now, DATA_FILE, sm, oldToNew, 2, 0)
    ensures sm[2].section == 3 && 4 <= sm[1].section < |now| && now[sm[1].section].name == ".data"
    ensures now[3].info == 2 && now[2].reloc == 3 && now[sm[1].section].reloc == 0
    ensures |now[3].data| >= 8 && Get32(now[3].data, 0) == Mod32(sm[1].offset)
  {
    hide First, Mod32, Get32;
    EntryReads();
    Names();
    DataFile();
    FirstStays(TEXT_LOADED, now, ".rel.text");
    FirstRange(now, ".data");
    assert Extends(TEXT_LOADED[3], now[3]);
    assert !sm[0].isNew && sm[1].isNew && !sm[2].isNew;
    assert NoneFor(now, DATA_FILE, sm, 0, 3, 2) && NoneFor(now, DATA_FILE, sm, 0, 3, sm[1].section);
  }

  lemma StartsAtNone()
    ensures StartIn(TEXT_LOADED, 3, DATA_FILE.headers[2]) == 0
  {
  }

  /** The load succeeds, yet the data's relocation belongs to the text now, and the data has none. */
  method MovedButNotApplied() returns (l: Linker, sm: seq<Merged>)
    ensures |sm| == 3 && sm[2].section == 3 && 4 <= sm[1].section < |l.sections| && l.sections[sm[1].section].name == ".data"
    ensures l.sections[3].info == 2 && l.sections[2].reloc == 3 && l.sections[sm[1].section].reloc == 0
    ensures |l.sections[3].data| >= 8 && Get32(l.sections[3].data, 0) == Mod32(sm[1].offset)
  {
    hide SymbolTable.Valid, SymbolTable.Entries, SymbolTable.Names, EnterAll, FileOk, TypesAgree, TargetsMerged, RelocationsGood, First, Attached, Get32;
    hide Relinked, ByName, Preserved, Copied, Renumbered, Covered, Applied, Tied, StartIn;
    var table := new SymbolTable(false);
    l := new Linker(table, 1, TEXT_LOADED);
    DataFile();
    ghost var v := table.Entries();
    var end, oldToNew;
    end, sm, oldToNew := l.Load(DATA_FILE);
    assert end.Loaded? by {
      Enters(v, DATA_FILE, sm);
      assert HasPlace(DATA_FILE, 1);
      AllEntriesGood(DATA_FILE, oldToNew);
    }
    assert Kept(DATA_FILE, 2);
    CopiedStart(l.sections, TEXT_LOADED, DATA_FILE, sm, 2);
    StartsAtNone();
    DataDetached(l.sections, sm, oldToNew);
  }

  const NOTHING_LOADED: seq<Section> := [NO_SECTION, SYMTAB]

  const TWICE_FILE := FileOf([NO_HEADER, Contents(".text"), Relocations(".rel.a", 1), Relocations(".rel.b", 1)])

  lemma TwiceFile()
    ensures FileOk(TWICE_FILE) && TypesAgree(NOTHING_LOADED, TWICE_FILE) && TargetsMerged(NOTHING_LOADED, TWICE_FILE)
    ensures NewFor(NOTHING_LOADED, TWICE_FILE, 2) && RelocatesKept(TWICE_FILE, 2) && !Attached(NOTHING_LOADED, TWICE_FILE, 2)
    ensures RelocatesKept(TWICE_FILE, 3) && Attached(NOTHING_LOADED, TWICE_FILE, 3)
  {
    Names();
    assert FirstFrom(NOTHING_LOADED, ".text", 2) == FirstFrom(NOTHING_LOADED, ".rel.a", 2) == FirstFrom(NOTHING_LOADED, ".rel.b", 2) == 0;
    assert Fresh(NOTHING_LOADED, TWICE_FILE, 1) && Fresh(NOTHING_LOADED, TWICE_FILE, 2) && Fresh(NOTHING_LOADED, TWICE_FILE, 3);
    assert NewFor(NOTHING_LOADED, TWICE_FILE, 3);
  }

  /** Of two relocation sections for one text only the second is applied. */
  method SecondTakesAll() returns (l: Linker, sm: seq<Merged>)
    ensures |sm| == 4 && Applied(l.sections, TWICE_FILE, sm, 3) && !Applied(l.sections, TWICE_FILE, sm, 2) && Tied(l.sections)
    ensures forall s :: 0 <= s < |l.sections| ==> l.sections[s].reloc != sm[2].section
  {
    hide SymbolTable.Valid, SymbolTable.Entries, SymbolTable.Names, EnterAll, FileOk, TypesAgree, TargetsMerged, RelocationsGood, First, Attached;
    hide Relinked, ByName, Preserved, Copied, Renumbered, Covered, Applied, Get32;
    var table := new SymbolTable(false);
    l := new Linker(table, 1, NOTHING_LOADED);
    TwiceFile();
    ghost var v := table.Entries();
    var end, oldToNew;
    end, sm, oldToNew := l.Load(TWICE_FILE);
    assert end.Loaded? by {
      Enters(v, TWICE_FILE, sm);
      assert HasPlace(TWICE_FILE, 1);
      AllEntriesGood(TWICE_FILE, oldToNew);
    }
    NeverApplied(l.sections, sm);
  }

  lemma NeverApplied(now: seq<Section>, sm: seq<Merged>)
    requires |sm| == 4 && Relinked(NOTHING_LOADED, now, TWICE_FILE, sm, 1) && Tied(now)
    requires !Applied(now, TWICE_FILE, sm, 2)
    ensures forall s :: 0 <= s < |now| ==> now[s].reloc != sm[2].section
  {
    hide First;
    TwiceFile();
    assert NewRelocation(TWICE_FILE, sm, 2);
  }

  const NOTE_FILE := FileOf([NO_HEADER, Header(".note", 7, 0, 0, 0, 0, []), Relocations(".rel.text", 1)])

  /** A new relocation section for a section that is not kept. */
  method FollowsNull() returns (l: Linker, end: Ending)
    ensures end.NullSection?
  {
    hide SymbolTable.Valid, SymbolTable.Entries, SymbolTable.Names, EnterAll, RelocationsGood, First, Attached;
    var table := new SymbolTable(false);
    l := new Linker(table, 1, NOTHING_LOADED);
    NoteFile();
    var sm, oldToNew;
    end, sm, oldToNew := l.Load(NOTE_FILE);
  }

  lemma NoteFile()
    ensures FileOk(NOTE_FILE) && TypesAgree(NOTHING_LOADED, NOTE_FILE) && !TargetsMerged(NOTHING_LOADED, NOTE_FILE)
  {
    Names();
    assert FirstFrom(NOTHING_LOADED, ".rel.text", 2) == 0;
    assert NewFor(NOTHING_LOADED, NOTE_FILE, 2) && !HasPlace(NOTE_FILE, 1);
  }
}
