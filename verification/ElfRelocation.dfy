/**
  `prepare_dynamic_rel`, `relocate_section` and `relocate_rel` of tcc_10/tccelf.c: the
  static relocation of a section, which for a shared object also rewrites the relocation
  section in place, leaving the entries that are meant for the dynamic linker.
 */
module ElfRelocation {
  import opened Memory
  import opened Edits
  import opened ElfSort

  const R_386_32 := 1
  const R_386_PC32 := 2
  const R_386_GOT32 := 3
  const R_386_PLT32 := 4
  const R_386_GLOB_DAT := 6
  const R_386_JMP_SLOT := 7
  const R_386_RELATIVE := 8
  const R_386_GOTOFF := 9
  const R_386_GOTPC := 10

  /** What the loop reads besides the section: symbol values, dynamic symbol numbers, addresses. */
  datatype Linkage = Linkage(
    dll: bool, value: seq<Word32>, toDynsym: seq<nat>, gotOffset: seq<Word32>, sectionAddr: Word32, gotAddr: Word32)

  predicate Known(env: Linkage, r: Rel) {
    && RelSym(r) < |env.value| == |env.toDynsym| == |env.gotOffset|
    && env.toDynsym[RelSym(r)] < 0x100_0000
    && r.offset >= 0
  }

  /** Is the relocation left to the dynamic linker, by symbol? */
  predicate Exported(env: Linkage, r: Rel)
    requires Known(env, r)
  {
    env.dll && env.toDynsym[RelSym(r)] != 0
  }

  /** The update of the section for one relocation. */
  function EditOf(env: Linkage, r: Rel): Edit
    requires Known(env, r)
  {
    var val, addr := env.value[RelSym(r)], env.sectionAddr + r.offset;
    var t := RelType(r);
    if t == R_386_32 then (if Exported(env, r) then Keep else Edit(r.offset, false, val))
    else if t == R_386_PC32 then (if Exported(env, r) then Keep else Edit(r.offset, false, val - addr))
    else if t == R_386_PLT32 then Edit(r.offset, false, val - addr)
    else if t == R_386_GLOB_DAT || t == R_386_JMP_SLOT then Edit(r.offset, true, val)
    else if t == R_386_GOTPC then Edit(r.offset, false, env.gotAddr - addr)
    else if t == R_386_GOTOFF then Edit(r.offset, false, val - env.gotAddr)
    else if t == R_386_GOT32 then Edit(r.offset, false, env.gotOffset[RelSym(r)])
    else Keep
  }

  /** The entry one relocation leaves for the dynamic linker, if any. */
  function DynamicOf(env: Linkage, r: Rel): (d: seq<Rel>)
    requires Known(env, r)
    ensures |d| <= 1
  {
    var esym := env.toDynsym[RelSym(r)];
    if !env.dll then []
    else if RelType(r) == R_386_32 then
      [Rel(r.offset, if esym != 0 then RelInfo(esym, R_386_32) else RelInfo(0, R_386_RELATIVE))]
    else if RelType(r) == R_386_PC32 && esym != 0 then [Rel(r.offset, RelInfo(esym, R_386_PC32))]
    else []
  }

  predicate AllKnown(env: Linkage, rels: seq<Rel>) { forall i :: 0 <= i < |rels| ==> Known(env, rels[i]) }

  function EditsOf(env: Linkage, rels: seq<Rel>): (es: seq<Edit>)
    requires AllKnown(env, rels)
    ensures |es| == |rels|
  {
    seq(|rels|, i requires 0 <= i < |rels| => EditOf(env, rels[i]))
  }

  function Dynamic(env: Linkage, rels: seq<Rel>): (d: seq<Rel>)
    requires AllKnown(env, rels)
    ensures |d| <= |rels|
  {
    if rels == [] then [] else Dynamic(env, rels[..|rels| - 1]) + DynamicOf(env, rels[|rels| - 1])
  }

  lemma DynamicSnoc(env: Linkage, rels: seq<Rel>, n: nat)
    requires AllKnown(env, rels) && n < |rels|
    ensures Dynamic(env, rels[..n + 1]) == Dynamic(env, rels[..n]) + DynamicOf(env, rels[n])
  {
    assert rels[..n + 1][..n] == rels[..n];
  }

  /** The words that are updated lie inside the section. */
  predicate InSection(env: Linkage, rels: seq<Rel>, size: nat)
    requires AllKnown(env, rels)
  {
    forall i :: 0 <= i < |rels| ==> Fits(EditOf(env, rels[i]), size)
  }

  const SHF_ALLOC: nat := 2

  class RelocationSection {
    const rels: array<Rel>
    var alloc: bool
    var size: nat

    constructor (rels: array<Rel>)
      ensures this.rels == rels && !alloc && size == 0
    {
      this.rels := rels;
      alloc := false;
      size := 0;
    }

    /** Reserves the space that `RelocateSection` will fill: the count agrees with what it writes. */
    method PrepareDynamicRel(env: Linkage) returns (count: nat)
      requires env.dll && AllKnown(env, rels[..])
      modifies this
      ensures count == |Dynamic(env, rels[..])|
      ensures count > 0 ==> alloc && size == count * 8
      ensures count == 0 ==> alloc == old(alloc) && size == old(size)
    {
      hide Dynamic;
      count := 0;
      DynamicEmpty(env);
      assert rels[..0] == [];
      var rel := 0;
      while rel < rels.Length
        invariant rel <= rels.Length && count == |Dynamic(env, rels[..][..rel])|
        invariant alloc == old(alloc) && size == old(size)
      {
        DynamicSnoc(env, rels[..], rel);
        var symIndex := RelSym(rels[rel]);
        match RelType(rels[rel]) {
          case 1 =>
            count := count + 1;
          case 2 =>
            if env.toDynsym[symIndex] != 0 {
              count := count + 1;
            }
          case _ =>
        }
        rel := rel + 1;
      }
      assert rels[..][..rel] == rels[..];
      if count > 0 {
        alloc := true;
        size := count * 8;
      }
    }

    /** One pass over the entries; the write cursor stays behind the read cursor. */
    method RelocateSection(env: Linkage, data: array<Octet>) returns (written: nat)
      requires AllKnown(env, rels[..]) && InSection(env, rels[..], data.Length)
      modifies rels, data
      ensures forall i :: 0 <= i < |old(rels[..])| ==> Fits(EditsOf(env, old(rels[..]))[i], |old(data[..])|)
      ensures data[..] == ApplyAll(old(data[..]), EditsOf(env, old(rels[..])))
      ensures written == |Dynamic(env, old(rels[..]))| <= rels.Length
      ensures rels[..written] == Dynamic(env, old(rels[..]))
      ensures rels[written..] == old(rels[..])[written..]
      ensures !env.dll ==> written == 0
      ensures SitesApart(old(rels[..])) ==> AllHaveValue(env, old(rels[..]), old(data[..]), data[..])
    {
      hide Dynamic, ApplyAll, Get32, Put32, Touches, AllHaveValue, SitesApart;
      ghost var was, bytes := rels[..], data[..];
      ghost var es := EditsOf(env, was);
      written := 0;
      DynamicEmpty(env);
      ApplyEmpty(bytes);
      assert was[..0] == [] && es[..0] == [];
      var rel := 0;
      while rel < rels.Length
        invariant written <= rel <= rels.Length
        invariant rels[..written] == Dynamic(env, was[..rel]) && written == |Dynamic(env, was[..rel])|
        invariant forall k :: written <= k < rels.Length ==> rels[k] == was[k]
        invariant data[..] == ApplyAll(bytes, es[..rel])
      {
        DynamicSnoc(env, was, rel);
        ApplySnoc(bytes, es[..rel], es[rel]);
        assert es[..rel] + [es[rel]] == es[..rel + 1];
        var r := rels[rel];
        assert r == was[rel];
        var symIndex := RelSym(r);
        var val := env.value[symIndex];
        var typ := RelType(r);
        var addr := env.sectionAddr + r.offset;
        var esymIndex := env.toDynsym[symIndex];
        var patch := true;
        match typ {
          case 1 =>
            if env.dll {
              if esymIndex != 0 {
                rels[written] := Rel(r.offset, RelInfo(esymIndex, R_386_32));
                written := written + 1;
                patch := false;
              } else {
                rels[written] := Rel(r.offset, RelInfo(0, R_386_RELATIVE));
                written := written + 1;
              }
            }
            if patch {
              AddWord(data, r.offset, val);
            }
          case 2 =>
            if env.dll {
              if esymIndex != 0 {
                rels[written] := Rel(r.offset, RelInfo(esymIndex, R_386_PC32));
                written := written + 1;
                patch := false;
              }
            }
            if patch {
              AddWord(data, r.offset, val - addr);
            }
          case 4 => AddWord(data, r.offset, val - addr);
          case 6 => Store32(data, r.offset, val);
          case 7 => Store32(data, r.offset, val);
          case 10 => AddWord(data, r.offset, env.gotAddr - addr);
          case 9 => AddWord(data, r.offset, val - env.gotAddr);
          case 3 => AddWord(data, r.offset, env.gotOffset[symIndex]);
          case _ =>
        }
        rel := rel + 1;
      }
      assert was[..rel] == was && es[..rel] == es;
      SectionValues(env, bytes, was);
    }

    /** Offsets become addresses, in leftover entries behind those that will be loaded too. */
    method RelocateRel(sectionAddr: int)
      modifies rels
      ensures forall k :: 0 <= k < rels.Length ==> rels[k] == old(rels[k]).(offset := old(rels[k]).offset + sectionAddr)
    {
      var rel := 0;
      while rel < rels.Length
        invariant rel <= rels.Length
        invariant forall k :: 0 <= k < rel ==> rels[k] == old(rels[k]).(offset := old(rels[k]).offset + sectionAddr)
        invariant forall k :: rel <= k < rels.Length ==> rels[k] == old(rels[k])
      {
        rels[rel] := rels[rel].(offset := rels[rel].offset + sectionAddr);
        rel := rel + 1;
      }
    }
  }

  method AddWord(data: array<Octet>, off: nat, delta: int)
    requires off + 4 <= data.Length
    modifies data
    ensures data[..] == Apply(old(data[..]), Edit(off, false, delta))
  {
    var w := Load32(data, off);
    Store32(data, off, Mod32(w + delta));
  }

  lemma DynamicEmpty(env: Linkage)
    ensures Dynamic(env, []) == []
  {
  }

  lemma ApplyEmpty(s: seq<Octet>)
    ensures ApplyAll(s, []) == s
  {
  }

  /** What the dynamic linker does for one entry when the object is loaded with a bias. */
  function LoadEdit(env: Linkage, bias: int, symbol: nat -> Word32, e: Rel): Edit
    requires e.offset >= 0
  {
    var t := e.info % 256;
    if t == 1 then Edit(e.offset, false, symbol(e.info / 256))
    else if t == 2 then Edit(e.offset, false, symbol(e.info / 256) - (env.sectionAddr + e.offset + bias))
    else if t == 8 then Edit(e.offset, false, bias)
    else Keep
  }

  function LoadEdits(env: Linkage, bias: int, symbol: nat -> Word32, rels: seq<Rel>): (es: seq<Edit>)
    requires AllKnown(env, rels)
    ensures |es| == |Dynamic(env, rels)|
  {
    DynamicOffsets(env, rels);
    var d := Dynamic(env, rels);
    seq(|d|, i requires 0 <= i < |d| => LoadEdit(env, bias, symbol, d[i]))
  }

  lemma {:induction false} DynamicOffsets(env: Linkage, rels: seq<Rel>)
    requires AllKnown(env, rels)
    ensures forall i :: 0 <= i < |Dynamic(env, rels)| ==> Dynamic(env, rels)[i].offset >= 0
  {
    if rels != [] {
      DynamicOffsets(env, rels[..|rels| - 1]);
      assert Known(env, rels[|rels| - 1]);
    }
  }

  /** Every entry left for the dynamic linker stands for one relocation, in order. */
  lemma {:induction false} DynamicOrigin(env: Linkage, rels: seq<Rel>, i: nat) returns (j: nat)
    requires AllKnown(env, rels) && i < |Dynamic(env, rels)|
    ensures j < |rels| && Originates(env, rels, j, i)
    decreases |rels|
  {
    var n := |rels| - 1;
    var before := rels[..n];
    if i < |Dynamic(env, before)| {
      j := DynamicOrigin(env, before, i);
      assert before[..j] == rels[..j];
    } else {
      j := n;
    }
  }

  ghost predicate Originates(env: Linkage, rels: seq<Rel>, j: nat, i: nat)
    requires AllKnown(env, rels) && j < |rels| && i < |Dynamic(env, rels)|
  {
    && DynamicOf(env, rels[j]) == [Dynamic(env, rels)[i]]
    && i == |Dynamic(env, rels[..j])|
  }

  lemma {:induction false} DynamicAt(env: Linkage, rels: seq<Rel>, j: nat)
    requires AllKnown(env, rels) && j < |rels| && DynamicOf(env, rels[j]) != []
    ensures |Dynamic(env, rels[..j])| < |Dynamic(env, rels)|
    ensures Originates(env, rels, j, |Dynamic(env, rels[..j])|)
    decreases |rels|
  {
    hide DynamicOf;
    var n := |rels| - 1;
    if j < n {
      var before := rels[..n];
      assert before[..j] == rels[..j];
      DynamicAt(env, before, j);
    }
  }

  predicate SitesApart(rels: seq<Rel>) {
    forall i, j :: 0 <= i < j < |rels| ==>
      rels[i].offset + 4 <= rels[j].offset || rels[j].offset + 4 <= rels[i].offset
  }

  /** The edits of the dynamic linker at the site of relocation k: one if it left an entry, else none. */
  lemma LoadTouches(env: Linkage, bias: int, symbol: nat -> Word32, rels: seq<Rel>, k: nat)
    requires AllKnown(env, rels) && SitesApart(rels) && k < |rels|
    ensures var es := LoadEdits(env, bias, symbol, rels); var p := |Dynamic(env, rels[..k])|;
      && (DynamicOf(env, rels[k]) != [] ==> p < |es| && es[p] == LoadEdit(env, bias, symbol, DynamicOf(env, rels[k])[0]))
      && (forall i :: 0 <= i < |es| && !(i == p && DynamicOf(env, rels[k]) != []) ==> !Touches(es[i], rels[k].offset))
  {
    hide Dynamic;
    var es, p := LoadEdits(env, bias, symbol, rels), |Dynamic(env, rels[..k])|;
    var d := Dynamic(env, rels);
    DynamicOffsets(env, rels);
    if DynamicOf(env, rels[k]) != [] {
      DynamicAt(env, rels, k);
      assert d[p] == DynamicOf(env, rels[k])[0];
    }
    forall i | 0 <= i < |es| && !(i == p && DynamicOf(env, rels[k]) != []) ensures !Touches(es[i], rels[k].offset) {
      var j := DynamicOrigin(env, rels, i);
      assert DynamicOf(env, rels[j]) == [d[i]];
      assert j != k && d[i].offset == rels[j].offset;
    }
  }

  /** Static relocation changes the word of each site once, or not at all if the symbol is dynamic. */
  lemma StaticWord(env: Linkage, data: seq<Octet>, rels: seq<Rel>, k: nat)
    requires AllKnown(env, rels) && InSection(env, rels, |data|) && SitesApart(rels)
    requires k < |rels| && rels[k].offset + 4 <= |data|
    ensures var w := Get32(data, rels[k].offset); var e := EditOf(env, rels[k]);
      Get32(ApplyAll(data, EditsOf(env, rels)), rels[k].offset) == if e.Keep? then w else EditedWord(e, w)
  {
    hide Get32, ApplyAll;
    var es := EditsOf(env, rels);
    forall i | 0 <= i < |es| && i != k ensures !Touches(es[i], rels[k].offset) {
    }
    if es[k].Keep? {
      UntouchedWord(data, es, rels[k].offset);
    } else {
      EditedOnce(data, es, k);
    }
  }

  /**
    The word w of a relocation before and now after static relocation, by the number of its type:
    with S, P, GOT and G of the processor supplement, A being the word before. What is left to the
    dynamic linker under the number of its symbol stays as it was.
   */
  predicate HasValue(env: Linkage, r: Rel, w: Word32, now: Word32)
    requires Known(env, r)
  {
    var sym, s, p := r.info / 256, env.value[r.info / 256], env.sectionAddr + r.offset;
    var left := env.dll && env.toDynsym[sym] != 0;
    match r.info % 256
    case 1 => now == if left then w else Mod32(w + s)
    case 2 => now == if left then w else Mod32(w + s - p)
    case 3 => now == Mod32(w + env.gotOffset[sym])
    case 4 => now == Mod32(w + s - p)
    case 6 => now == s
    case 7 => now == s
    case 9 => now == Mod32(w + s - env.gotAddr)
    case 10 => now == Mod32(w + env.gotAddr - p)
    case _ => now == w
  }

  ghost predicate AllHaveValue(env: Linkage, rels: seq<Rel>, data: seq<Octet>, now: seq<Octet>)
    requires AllKnown(env, rels)
  {
    |now| == |data| && forall r :: r in rels && r.offset + 4 <= |data| ==>
      HasValue(env, r, Get32(data, r.offset), Get32(now, r.offset))
  }

  lemma StaticValue(env: Linkage, data: seq<Octet>, rels: seq<Rel>, k: nat)
    requires AllKnown(env, rels) && InSection(env, rels, |data|) && SitesApart(rels)
    requires k < |rels| && rels[k].offset + 4 <= |data|
    ensures HasValue(env, rels[k], Get32(data, rels[k].offset), Get32(ApplyAll(data, EditsOf(env, rels)), rels[k].offset))
  {
    hide Get32, ApplyAll, EditOf, EditedWord, HasValue;
    StaticWord(env, data, rels, k);
    EditMeans(env, rels[k], Get32(data, rels[k].offset));
  }

  lemma EditMeans(env: Linkage, r: Rel, w: Word32)
    requires Known(env, r)
    ensures var e := EditOf(env, r); HasValue(env, r, w, if e.Keep? then w else EditedWord(e, w))
  {
  }

  lemma SectionValues(env: Linkage, data: seq<Octet>, rels: seq<Rel>)
    requires AllKnown(env, rels) && InSection(env, rels, |data|)
    ensures !env.dll ==> Dynamic(env, rels) == []
    ensures SitesApart(rels) ==> AllHaveValue(env, rels, data, ApplyAll(data, EditsOf(env, rels)))
  {
    hide HasValue, ApplyAll, Get32, SitesApart;
    if !env.dll { NothingDynamic(env, rels); }
    if SitesApart(rels) {
      forall r | r in rels && r.offset + 4 <= |data|
        ensures HasValue(env, r, Get32(data, r.offset), Get32(ApplyAll(data, EditsOf(env, rels)), r.offset))
      {
        var k :| 0 <= k < |rels| && rels[k] == r;
        StaticValue(env, data, rels, k);
      }
    }
  }

  /** An executable leaves nothing to the dynamic linker. */
  lemma {:induction false} NothingDynamic(env: Linkage, rels: seq<Rel>)
    requires AllKnown(env, rels) && !env.dll
    ensures Dynamic(env, rels) == []
  {
    if rels != [] { NothingDynamic(env, rels[..|rels| - 1]); }
  }

  /** What the psABI calls S: the dynamic symbol, or the section-relative value moved by the bias. */
  function SymbolAt(env: Linkage, bias: int, symbol: nat -> Word32, r: Rel): int
    requires Known(env, r)
  {
    if env.toDynsym[RelSym(r)] != 0 then symbol(env.toDynsym[RelSym(r)]) else env.value[RelSym(r)] + bias
  }

  /**
    Static relocation of a shared object followed by dynamic relocation of what was left
    gives, at any load address, A + S for R_386_32 and A + S - P for R_386_PC32.
   */
  lemma RelocatedWhereverLoaded(
      env: Linkage, data: seq<Octet>, rels: seq<Rel>, bias: int, symbol: nat -> Word32, k: nat)
    requires env.dll && AllKnown(env, rels) && SitesApart(rels)
    requires forall i :: 0 <= i < |rels| ==> rels[i].offset + 4 <= |data|
    requires k < |rels| && (RelType(rels[k]) == R_386_32 || RelType(rels[k]) == R_386_PC32)
    ensures forall i :: 0 <= i < |rels| ==> Fits(EditsOf(env, rels)[i], |data|)
    ensures forall i :: 0 <= i < |Dynamic(env, rels)| ==> Fits(LoadEdits(env, bias, symbol, rels)[i], |data|)
    ensures var loaded := ApplyAll(ApplyAll(data, EditsOf(env, rels)), LoadEdits(env, bias, symbol, rels));
      var off := rels[k].offset; var p := env.sectionAddr + off + bias;
      Get32(loaded, off) == Mod32(Get32(data, off) + SymbolAt(env, bias, symbol, rels[k])
        - if RelType(rels[k]) == R_386_PC32 then p else 0)
  {
    hide Get32, ApplyAll, Dynamic, LoadEdits, EditOf, DynamicOf, LoadEdit, EditedWord, SymbolAt;
    var es, ls := EditsOf(env, rels), LoadEdits(env, bias, symbol, rels);
    SitesFit(env, rels, |data|);
    LoadFits(env, bias, symbol, rels, |data|);
    var off := rels[k].offset;
    StaticWord(env, data, rels, k);
    LoadTouches(env, bias, symbol, rels, k);
    TwoStages(env, bias, symbol, rels[k], Get32(data, off));
    var now, p := ApplyAll(data, es), |Dynamic(env, rels[..k])|;
    if DynamicOf(env, rels[k]) != [] {
      EditedOnce(now, ls, p);
    } else {
      UntouchedWord(now, ls, off);
    }
  }

  lemma SitesFit(env: Linkage, rels: seq<Rel>, size: nat)
    requires AllKnown(env, rels) && forall i :: 0 <= i < |rels| ==> rels[i].offset + 4 <= size
    ensures InSection(env, rels, size)
  {
  }

  /** One word through both stages. */
  lemma TwoStages(env: Linkage, bias: int, symbol: nat -> Word32, r: Rel, a: Word32)
    requires env.dll && Known(env, r) && (RelType(r) == R_386_32 || RelType(r) == R_386_PC32)
    ensures var e := EditOf(env, r); var d := DynamicOf(env, r);
      var w := if e.Keep? then a else EditedWord(e, a);
      && (d != [] ==> var l := LoadEdit(env, bias, symbol, d[0]); l.Edit? && l.off == r.offset)
      && (if d == [] then w else EditedWord(LoadEdit(env, bias, symbol, d[0]), w))
        == Mod32(a + SymbolAt(env, bias, symbol, r)
          - if RelType(r) == R_386_PC32 then env.sectionAddr + r.offset + bias else 0)
  {
    InfoDecodes(env.toDynsym[RelSym(r)], RelType(r));
    InfoDecodes(0, R_386_RELATIVE);
  }

  lemma LoadFits(env: Linkage, bias: int, symbol: nat -> Word32, rels: seq<Rel>, size: nat)
    requires AllKnown(env, rels)
    requires forall i :: 0 <= i < |rels| ==> rels[i].offset + 4 <= size
    ensures forall i :: 0 <= i < |Dynamic(env, rels)| ==> Fits(LoadEdits(env, bias, symbol, rels)[i], size)
  {
    hide Dynamic;
    var d := Dynamic(env, rels);
    DynamicOffsets(env, rels);
    forall i | 0 <= i < |d| ensures d[i].offset + 4 <= size {
      var j := DynamicOrigin(env, rels, i);
      assert DynamicOf(env, rels[j]) == [d[i]];
    }
  }

  lemma InfoDecodes(sym: nat, typ: nat)
    requires sym < 0x100_0000 && typ < 256
    ensures RelInfo(sym, typ) / 256 == sym && RelInfo(sym, typ) % 256 == typ
  {
  }
}
