/**
  The multi-object loader of otccelf/elf_loader.c. `link` works in three phases over all
  objects: collect exports and undefined symbols, resolve the undefined ones, relocate.

  The objects and the memory they were copied to are the loader's state; `dlsym` is an
  arbitrary function, 0 meaning that the host does not know the name.
 */
module ElfLoaderSpec {
  import opened Options
  import opened Memory
  import opened Edits

  datatype Symbol = Symbol(name: string, value: Word32, typ: nat, bind: nat, shndx: nat)

  datatype Export = Export(name: string, address: Word32)

  /** An undefined symbol, and where its value is. */
  datatype Undefined = Undefined(name: string, symbol: nat)

  datatype Relocation = Relocation(offset: nat, typ: nat, symbol: nat)

  /** obj_struct: the slots up to the section numbers hold the section addresses. */
  datatype Object = Object(
    linked: bool, slots: seq<Word32>, symtab: seq<Symbol>,
    exports: Option<seq<Export>>, unds: Option<seq<Undefined>>,
    text: nat, relText: seq<Relocation>, data: nat, relData: seq<Relocation>)

  const STT_OBJECT := 1
  const STT_FUNC := 2
  const ST_GLOBAL := 1
  const R_386_32 := 1
  const R_386_PC32 := 2
  const TABLE_SIZE := 1024

  predicate Linkable(s: Symbol) { s.typ == STT_OBJECT || s.typ == STT_FUNC }

  predicate IsUndefined(s: Symbol) { Linkable(s) && s.shndx == 0 }

  predicate IsDefined(s: Symbol) { Linkable(s) && s.shndx != 0 }

  predicate IsExported(s: Symbol) { IsDefined(s) && s.bind == ST_GLOBAL }

  /** Section numbers denote sections, relocations denote symbols and places in memory. */
  ghost predicate WellFormed(o: Object, size: nat) {
    && (forall i :: 0 <= i < |o.symtab| && IsDefined(o.symtab[i]) ==> o.symtab[i].shndx < |o.slots|)
    && (o.unds.Some? ==> forall m :: 0 <= m < |o.unds.value| ==> o.unds.value[m].symbol < |o.symtab|)
    && RelocationsFit(o.relText, o.text, |o.symtab|, size)
    && RelocationsFit(o.relData, o.data, |o.symtab|, size)
  }

  ghost predicate RelocationsFit(rs: seq<Relocation>, base: nat, symbols: nat, size: nat) {
    forall i :: 0 <= i < |rs| ==> rs[i].symbol < symbols && base + rs[i].offset + 4 <= size
  }

  /** The value of a symbol once section-relative values are absolute. */
  function Based(o: Object, i: nat): Word32
    requires i < |o.symtab| && (IsDefined(o.symtab[i]) ==> o.symtab[i].shndx < |o.slots|)
  {
    var s := o.symtab[i];
    if IsDefined(s) then Mod32(o.slots[s.shndx] + s.value) else s.value
  }

  ghost predicate SlotsFit(o: Object) {
    forall i :: 0 <= i < |o.symtab| && IsDefined(o.symtab[i]) ==> o.symtab[i].shndx < |o.slots|
  }

  function ExportsOf(o: Object, k: nat): (es: seq<Export>)
    requires k <= |o.symtab| && SlotsFit(o)
    ensures |es| <= k
  {
    if k == 0 then []
    else
      var s := o.symtab[k - 1];
      ExportsOf(o, k - 1) + if IsExported(s) then [Export(s.name, Based(o, k - 1))] else []
  }

  function UndefinedOf(o: Object, k: nat): (us: seq<Undefined>)
    requires k <= |o.symtab|
    ensures |us| <= k
    ensures forall m :: 0 <= m < |us| ==> us[m].symbol < k
  {
    if k == 0 then []
    else UndefinedOf(o, k - 1) + if IsUndefined(o.symtab[k - 1]) then [Undefined(o.symtab[k - 1].name, k - 1)] else []
  }

  function BasedSymbols(o: Object, k: nat): (ss: seq<Symbol>)
    requires k <= |o.symtab| && SlotsFit(o)
    ensures |ss| == |o.symtab|
  {
    seq(|o.symtab|, i requires 0 <= i < |o.symtab| => o.symtab[i].(value := if i < k then Based(o, i) else o.symtab[i].value))
  }

  /** An object after `gen_und_exports`. */
  function Generated(o: Object): Object
    requires SlotsFit(o)
  {
    var n := |o.symtab|;
    o.(symtab := BasedSymbols(o, n), exports := Some(ExportsOf(o, n)), unds := Some(UndefinedOf(o, n)))
  }

  /** The first export of the name in one table. */
  function Match(es: seq<Export>, name: string): Option<Word32> {
    if es == [] then None
    else if es[0].name == name then Some(es[0].address)
    else Match(es[1..], name)
  }

  /** `find_sym`: the first match in object order, else what the host knows. */
  function Lookup(os: seq<Object>, host: string -> Word32, name: string): Word32 {
    if os == [] then host(name)
    else
      var found: Option<Word32> := if os[0].exports.None? then None else Match(os[0].exports.value, name);
      if found.Some? then found.value else Lookup(os[1..], host, name)
  }

  lemma {:induction false} LookupByExports(os: seq<Object>, qs: seq<Object>, host: string -> Word32, name: string)
    requires |os| == |qs| && forall i :: 0 <= i < |os| ==> os[i].exports == qs[i].exports
    ensures Lookup(os, host, name) == Lookup(qs, host, name)
  {
    if os != [] { LookupByExports(os[1..], qs[1..], host, name); }
  }

  /** An object after the first k of its undefined symbols have been resolved. */
  function Resolved(o: Object, address: string -> Word32, k: nat): (r: Object)
    requires o.unds.Some? && k <= |o.unds.value|
    requires forall m :: 0 <= m < k ==> o.unds.value[m].symbol < |o.symtab|
    ensures |r.symtab| == |o.symtab| && r == o.(symtab := r.symtab)
    ensures forall i :: 0 <= i < |o.symtab| ==> r.symtab[i] == o.symtab[i].(value := r.symtab[i].value)
  {
    if k == 0 then o
    else
      var r, u := Resolved(o, address, k - 1), o.unds.value[k - 1];
      r.(symtab := r.symtab[u.symbol := r.symtab[u.symbol].(value := address(u.name))])
  }

  /** Every symbol of a generated object in the end: its section address or the address found for its name. */
  lemma {:induction false} ResolvedValues(o: Object, address: string -> Word32, k: nat)
    requires SlotsFit(o) && k <= |o.symtab|
    ensures var g := Generated(o); var us := UndefinedOf(o, k);
      && |us| <= |g.unds.value| && g.unds.value[..|us|] == us
      && forall i :: 0 <= i < |o.symtab| ==>
        Resolved(g, address, |us|).symtab[i] == o.symtab[i].(value :=
          if i < k && IsUndefined(o.symtab[i]) then address(o.symtab[i].name) else Based(o, i))
  {
    hide ExportsOf, UndefinedOf, Resolved, Based;
    var g, us := Generated(o), UndefinedOf(o, k);
    UndefinedPrefix(o, k, |o.symtab|);
    UndefinedUnfold(o, k);
    ResolvedUnfold(g, address, |us|);
    if k > 0 {
      ResolvedValues(o, address, k - 1);
      if IsUndefined(o.symtab[k - 1]) {
        assert g.unds.value[|us| - 1] == g.unds.value[..|us|][|us| - 1];
      }
    }
  }

  lemma UndefinedUnfold(o: Object, k: nat)
    requires k <= |o.symtab|
    ensures UndefinedOf(o, k) == if k == 0 then [] else
      UndefinedOf(o, k - 1) + if IsUndefined(o.symtab[k - 1]) then [Undefined(o.symtab[k - 1].name, k - 1)] else []
  {
  }

  lemma ResolvedUnfold(o: Object, address: string -> Word32, k: nat)
    requires o.unds.Some? && k <= |o.unds.value|
    requires forall m :: 0 <= m < |o.unds.value| ==> o.unds.value[m].symbol < |o.symtab|
    ensures k == 0 ==> Resolved(o, address, k) == o
    ensures k > 0 ==> var r, u := Resolved(o, address, k - 1), o.unds.value[k - 1];
      Resolved(o, address, k) == r.(symtab := r.symtab[u.symbol := r.symtab[u.symbol].(value := address(u.name))])
  {
  }

  lemma {:induction false} UndefinedPrefix(o: Object, k: nat, n: nat)
    requires k <= n <= |o.symtab|
    ensures UndefinedOf(o, k) <= UndefinedOf(o, n)
    decreases n
  {
    if k < n { UndefinedPrefix(o, k, n - 1); }
  }

  /** The update of memory for one relocation. */
  function EditOf(r: Relocation, base: nat, value: Word32): Edit {
    var loc := base + r.offset;
    if r.typ == R_386_32 then Edit(loc, false, value)
    else Edit(loc, true, value - loc - 4)
  }

  predicate Supported(r: Relocation) { r.typ == R_386_32 || r.typ == R_386_PC32 }

  function EditsOf(rs: seq<Relocation>, base: nat, symtab: seq<Symbol>): (es: seq<Edit>)
    requires forall i :: 0 <= i < |rs| ==> rs[i].symbol < |symtab|
    ensures |es| == |rs|
  {
    seq(|rs|, i requires 0 <= i < |rs| => EditOf(rs[i], base, symtab[rs[i].symbol].value))
  }

  ghost predicate AllSupported(o: Object) {
    && (forall i :: 0 <= i < |o.relText| ==> Supported(o.relText[i]))
    && (forall i :: 0 <= i < |o.relData| ==> Supported(o.relData[i]))
  }

  ghost predicate SymbolsFit(o: Object) {
    && (forall i :: 0 <= i < |o.relText| ==> o.relText[i].symbol < |o.symtab|)
    && (forall i :: 0 <= i < |o.relData| ==> o.relData[i].symbol < |o.symtab|)
  }

  function ObjectEdits(o: Object): seq<Edit>
    requires SymbolsFit(o)
  {
    EditsOf(o.relText, o.text, o.symtab) + EditsOf(o.relData, o.data, o.symtab)
  }

  // What a name stands for, read off the symbol tables and the section addresses alone. The numbers are those of
  // the ELF specification: types 1 (object) and 2 (function), binding 1 (global), section 0 (undefined).

  predicate Provides(s: Symbol, name: string) {
    (s.typ == 1 || s.typ == 2) && s.shndx != 0 && s.bind == 1 && s.name == name
  }

  predicate Wants(s: Symbol) { (s.typ == 1 || s.typ == 2) && s.shndx == 0 }

  ghost predicate NoneBefore(o: Object, k: nat, name: string)
    requires k <= |o.symtab|
  {
    forall i :: 0 <= i < k ==> !Provides(o.symtab[i], name)
  }

  ghost predicate ProvidesNone(o: Object, name: string) { NoneBefore(o, |o.symtab|, name) }

  ghost predicate FirstSymbol(o: Object, name: string, i: int) {
    0 <= i < |o.symtab| && Provides(o.symtab[i], name) && NoneBefore(o, i, name)
  }

  /** Where a defined symbol is: linking has made its value absolute. */
  function Place(o: Object, i: nat): int
    requires i < |o.symtab|
  {
    var s := o.symtab[i];
    if o.linked || s.shndx >= |o.slots| then s.value else (o.slots[s.shndx] + s.value) % 0x1_0000_0000
  }

  /** Symbol i of object n is the first, in object order and then in table order, that provides the name. */
  ghost predicate FirstProvider(os: seq<Object>, name: string, n: int, i: int) {
    0 <= n < |os| && FirstSymbol(os[n], name, i) && forall j :: 0 <= j < n ==> ProvidesNone(os[j], name)
  }

  ghost predicate NoProvider(os: seq<Object>, name: string) {
    forall n :: 0 <= n < |os| ==> ProvidesNone(os[n], name)
  }

  /** The name stands for its first provider, and for what the host knows only if there is none. */
  ghost predicate Denoted(os: seq<Object>, host: string -> Word32, name: string, a: Word32) {
    && (forall n, i :: FirstProvider(os, name, n, i) ==> a == Place(os[n], i))
    && (NoProvider(os, name) ==> a == host(name))
  }

  ghost predicate NotNamed(es: seq<Export>, name: string) {
    forall m :: 0 <= m < |es| ==> es[m].name != name
  }

  ghost predicate FirstEntry(es: seq<Export>, name: string, m: int) {
    0 <= m < |es| && es[m].name == name && forall j :: 0 <= j < m ==> es[j].name != name
  }

  ghost predicate EntryAgrees(o: Object, es: seq<Export>, name: string) {
    && (forall m, i :: FirstEntry(es, name, m) && FirstSymbol(o, name, i) ==> es[m].address == Place(o, i))
    && (ProvidesNone(o, name) <==> NotNamed(es, name))
  }

  /** The tables that an object linked earlier keeps say of every name what its symbols say. */
  ghost predicate Recorded(o: Object) {
    o.linked ==>
      && o.exports.Some? && o.unds.Some?
      && (forall name :: EntryAgrees(o, o.exports.value, name))
      && (forall m :: 0 <= m < |o.unds.value| ==> UndefinedHere(o, o.unds.value[m]))
      && (forall i :: 0 <= i < |o.symtab| && Wants(o.symtab[i]) ==> Undefined(o.symtab[i].name, i) in o.unds.value)
  }

  predicate UndefinedHere(o: Object, u: Undefined) {
    u.symbol < |o.symtab| && Wants(o.symtab[u.symbol]) && o.symtab[u.symbol].name == u.name
  }

  ghost predicate AllRecorded(os: seq<Object>) { forall n :: 0 <= n < |os| ==> Recorded(os[n]) }

  /** Every undefined symbol stands for something. */
  ghost predicate AllDenoted(os: seq<Object>, host: string -> Word32) {
    forall n, i :: 0 <= n < |os| && 0 <= i < |os[n].symtab| && Wants(os[n].symtab[i]) ==>
      !Denoted(os, host, os[n].symtab[i].name, 0)
  }

  /** After linking the value of a symbol is what its name stands for, or its section's address plus its value. */
  ghost predicate Bound(os: seq<Object>, host: string -> Word32, n: nat, i: nat, v: Word32)
    requires n < |os| && i < |os[n].symtab|
  {
    var s := os[n].symtab[i];
    if Wants(s) then Denoted(os, host, s.name, v)
    else if s.typ == 1 || s.typ == 2 then v == Place(os[n], i)
    else v == s.value
  }

  /** Linking changes no more than the values of symbols, and binds all of them. */
  ghost predicate AllBound(os: seq<Object>, host: string -> Word32, ls: seq<Object>) {
    && |ls| == |os|
    && forall n :: 0 <= n < |os| ==>
      && |ls[n].symtab| == |os[n].symtab|
      && forall i :: 0 <= i < |os[n].symtab| ==>
        && Bound(os, host, n, i, ls[n].symtab[i].value)
        && ls[n].symtab[i] == os[n].symtab[i].(value := ls[n].symtab[i].value)
  }

  ghost predicate TypesKnown(rs: seq<Relocation>) {
    forall i :: 0 <= i < |rs| ==> rs[i].typ == 1 || rs[i].typ == 2
  }

  ghost predicate AllTypesKnown(os: seq<Object>) {
    forall n :: 0 <= n < |os| && !os[n].linked ==> TypesKnown(os[n].relText) && TypesKnown(os[n].relData)
  }

  lemma {:induction false} MatchFirst(es: seq<Export>, name: string)
    ensures Match(es, name).None? <==> NotNamed(es, name)
    ensures forall m :: FirstEntry(es, name, m) ==> Match(es, name) == Some(es[m].address)
  {
    if es != [] && es[0].name != name {
      MatchFirst(es[1..], name);
      forall m | 0 <= m < |es| && es[m].name == name ensures m > 0 && es[1..][m - 1] == es[m] {
      }
      forall m | FirstEntry(es, name, m) ensures Match(es, name) == Some(es[m].address) {
        assert FirstEntry(es[1..], name, m - 1);
      }
    }
  }

  /** In a table that is generated the first entry of a name is that of its first provider. */
  lemma {:induction false} ExportsAgree(o: Object, k: nat, name: string)
    requires SlotsFit(o) && !o.linked && k <= |o.symtab|
    ensures NoneBefore(o, k, name) <==> NotNamed(ExportsOf(o, k), name)
    ensures forall m, i :: FirstEntry(ExportsOf(o, k), name, m) && FirstSymbol(o, name, i) && i < k ==>
      ExportsOf(o, k)[m].address == Place(o, i)
  {
    if k > 0 {
      ExportsAgree(o, k - 1, name);
      var es, fs := ExportsOf(o, k - 1), ExportsOf(o, k);
      assert forall m :: 0 <= m < |es| ==> es[m] == fs[m];
      if Provides(o.symtab[k - 1], name) {
        assert fs[|es|].name == name;
      } else {
        assert NoneBefore(o, k, name) <==> NoneBefore(o, k - 1, name);
      }
      forall m, i | FirstEntry(fs, name, m) && FirstSymbol(o, name, i) && i < k ensures fs[m].address == Place(o, i) {
        if m < |es| { assert FirstEntry(es, name, m); }
      }
    }
  }
}

module ElfLoader {
  import opened Options
  import opened Memory
  import opened Edits
  import opened ElfLoaderSpec

  /** All objects after the collection phase. */
  function Collected(os: seq<Object>): (cs: seq<Object>)
    requires forall n :: 0 <= n < |os| ==> SlotsFit(os[n])
    ensures |cs| == |os|
  {
    seq(|os|, n requires 0 <= n < |os| => if os[n].linked then os[n] else Generated(os[n]))
  }

  ghost predicate UndefinedFit(o: Object) {
    o.unds.Some? ==> forall m :: 0 <= m < |o.unds.value| ==> o.unds.value[m].symbol < |o.symtab|
  }

  function ResolvedObject(o: Object, address: string -> Word32): (r: Object)
    requires UndefinedFit(o)
    ensures |r.symtab| == |o.symtab| && r == o.(symtab := r.symtab)
    ensures forall i :: 0 <= i < |o.symtab| ==> r.symtab[i] == o.symtab[i].(value := r.symtab[i].value)
  {
    if o.unds.None? then o else Resolved(o, address, |o.unds.value|)
  }

  /** All objects after the resolution phase. */
  function AllResolved(os: seq<Object>, address: string -> Word32): (rs: seq<Object>)
    requires forall n :: 0 <= n < |os| ==> UndefinedFit(os[n])
    ensures |rs| == |os|
  {
    seq(|os|, n requires 0 <= n < |os| => ResolvedObject(os[n], address))
  }

  /** The memory updates of the relocation phase for the first k objects. */
  ghost function LinkEdits(os: seq<Object>, k: nat): seq<Edit>
    requires k <= |os| && forall n :: 0 <= n < k ==> SymbolsFit(os[n])
  {
    if k == 0 then []
    else
      var o := os[k - 1];
      assert SymbolsFit(o);
      LinkEdits(os, k - 1) + if o.linked then [] else ObjectEdits(o)
  }

  function AddressIn(os: seq<Object>, host: string -> Word32): string -> Word32 {
    name => Lookup(os, host, name)
  }

  function Linked(os: seq<Object>): seq<Object> {
    seq(|os|, n requires 0 <= n < |os| => os[n].(linked := true))
  }

  /** Every undefined symbol has an address. */
  ghost predicate Resolvable(os: seq<Object>, address: string -> Word32) {
    forall n :: 0 <= n < |os| ==> ObjectResolvable(os[n], address)
  }

  ghost predicate ObjectResolvable(o: Object, address: string -> Word32) {
    o.unds.Some? ==> forall m :: 0 <= m < |o.unds.value| ==> address(o.unds.value[m].name) != 0
  }

  ghost predicate Relocatable(os: seq<Object>) {
    forall n :: 0 <= n < |os| && !os[n].linked ==> AllSupported(os[n])
  }

  ghost predicate TablesFit(o: Object)
    requires SlotsFit(o)
  {
    |ExportsOf(o, |o.symtab|)| < TABLE_SIZE && |UndefinedOf(o, |o.symtab|)| < TABLE_SIZE
  }

  ghost predicate Ready(os: seq<Object>, size: nat) {
    forall n :: 0 <= n < |os| ==> WellFormed(os[n], size) && TablesFit(os[n])
  }

  class Loader {
    var objs: seq<Object>
    var mem: seq<Octet>
    const host: string -> Word32

    constructor (objs: seq<Object>, mem: seq<Octet>, host: string -> Word32)
      ensures this.objs == objs && this.mem == mem && this.host == host
    {
      this.objs := objs;
      this.mem := mem;
      this.host := host;
    }

    /** Patches the values of defined symbols in place and fills both tables. */
    method GenUndExports(n: nat)
      requires n < |objs| && SlotsFit(objs[n]) && TablesFit(objs[n])
      modifies this`objs
      ensures objs == old(objs)[n := Generated(old(objs)[n])]
      ensures !old(objs)[n].linked ==> TablesMean(old(objs)[n], objs[n])
    {
      TablesGenerated(objs[n]);
      hide ExportsOf, UndefinedOf;
      ghost var o := objs[n];
      var symtab := objs[n].symtab;
      var exports: seq<Export>, unds: seq<Undefined> := [], [];
      var i := 0;
      TablesStart(o);
      while i < |symtab|
        invariant i <= |symtab| == |o.symtab| && objs == old(objs)
        invariant symtab == BasedSymbols(o, i)
        invariant exports == ExportsOf(o, i) && unds == UndefinedOf(o, i)
      {
        TablesStep(o, i);
        var s := symtab[i];
        if s.typ == STT_OBJECT || s.typ == STT_FUNC {
          if s.shndx == 0 {
            unds := unds + [Undefined(s.name, i)];
          } else {
            var v := Mod32(objs[n].slots[s.shndx] + s.value);
            symtab := symtab[i := s.(value := v)];
            if s.bind == ST_GLOBAL {
              exports := exports + [Export(s.name, v)];
            }
          }
        }
        i := i + 1;
        assert symtab == BasedSymbols(o, i);
      }
      objs := objs[n := objs[n].(symtab := symtab, exports := Some(exports), unds := Some(unds))];
    }

    method FindSym(name: string) returns (address: Word32)
      ensures address == Lookup(objs, host, name)
    {
      hide Match, Lookup;
      var n := 0;
      assert objs[0..] == objs;
      while n < |objs|
        invariant n <= |objs|
        invariant Lookup(objs[n..], host, name) == Lookup(objs, host, name)
      {
        LookupUnfold(objs[n..], host, name);
        assert objs[n..][1..] == objs[n + 1..];
        if objs[n].exports.Some? {
          var exports := objs[n].exports.value;
          var m := 0;
          assert exports[0..] == exports;
          while m < |exports|
            invariant m <= |exports|
            invariant Match(exports[m..], name) == Match(exports, name)
          {
            MatchUnfold(exports[m..], name);
            assert exports[m..][1..] == exports[m + 1..];
            if exports[m].name == name {
              return exports[m].address;
            }
            m := m + 1;
          }
          MatchUnfold(exports[m..], name);
        }
        n := n + 1;
      }
      LookupUnfold(objs[n..], host, name);
      address := host(name);
    }

    /** Writes the address of every undefined symbol to its place; the program stops at an unknown one. */
    method ResolveUnd() returns (ok: bool)
      requires forall n :: 0 <= n < |objs| ==> UndefinedFit(objs[n])
      modifies this`objs
      ensures ok <==> Resolvable(old(objs), AddressIn(old(objs), host))
      ensures ok ==> objs == AllResolved(old(objs), AddressIn(old(objs), host))
    {
      hide Resolved, Lookup;
      ghost var os, address := objs, AddressIn(objs, host);
      var n := 0;
      while n < |objs|
        invariant n <= |objs| == |os|
        invariant forall j :: 0 <= j < n ==> objs[j] == ResolvedObject(os[j], address)
        invariant forall j :: n <= j < |os| ==> objs[j] == os[j]
        invariant forall j :: 0 <= j < n ==> ObjectResolvable(os[j], address)
      {
        if objs[n].unds.Some? {
          var unds := objs[n].unds.value;
          var m := 0;
          ResolvedUnfold(os[n], address, 0);
          while m < |unds|
            invariant m <= |unds| && |objs| == |os|
            invariant forall j :: 0 <= j < n ==> objs[j] == ResolvedObject(os[j], address)
            invariant forall j :: n < j < |os| ==> objs[j] == os[j]
            invariant objs[n] == Resolved(os[n], address, m)
            invariant forall i :: 0 <= i < m ==> address(unds[i].name) != 0
          {
            var u := unds[m];
            SameExports(objs, os, host, address, u.name, n, m);
            var addr := FindSym(u.name);
            if addr == 0 {
              return false;
            }
            ResolvedUnfold(os[n], address, m + 1);
            var o := objs[n];
            objs := objs[n := o.(symtab := o.symtab[u.symbol := o.symtab[u.symbol].(value := addr)])];
            m := m + 1;
          }
        }
        n := n + 1;
      }
      ok := true;
    }

    /** One pass over the relocations of a section that was copied to base. */
    method RelocateSection(symtab: seq<Symbol>, rels: seq<Relocation>, base: nat) returns (ok: bool)
      requires RelocationsFit(rels, base, |symtab|, |mem|)
      modifies this`mem
      ensures |mem| == |old(mem)|
      ensures ok <==> forall i :: 0 <= i < |rels| ==> Supported(rels[i])
      ensures forall i :: 0 <= i < |rels| ==> Fits(EditsOf(rels, base, symtab)[i], |old(mem)|)
      ensures ok ==> mem == ApplyAll(old(mem), EditsOf(rels, base, symtab))
    {
      hide Get32, Put32, ApplyAll;
      ghost var bytes, es := mem, EditsOf(rels, base, symtab);
      var i := 0;
      AppliedNone(bytes);
      assert es[..0] == [];
      while i < |rels|
        invariant i <= |rels| && |mem| == |bytes|
        invariant forall k :: 0 <= k < i ==> Supported(rels[k])
        invariant mem == ApplyAll(bytes, es[..i])
      {
        ApplySnoc(bytes, es[..i], es[i]);
        assert es[..i] + [es[i]] == es[..i + 1];
        var r := rels[i];
        var val := symtab[r.symbol].value;
        var loc := base + r.offset;
        if r.typ == R_386_32 {
          mem := Put32(mem, loc, Mod32(Get32(mem, loc) + val));
        } else if r.typ == R_386_PC32 {
          mem := Put32(mem, loc, Mod32(val - loc - 4));
        } else {
          return false;
        }
        i := i + 1;
      }
      assert es[..i] == es;
      ok := true;
    }

    method Relocate(n: nat) returns (ok: bool)
      requires n < |objs| && WellFormed(objs[n], |mem|)
      modifies this
      ensures |mem| == |old(mem)| && ok == AllSupported(old(objs)[n])
      ensures forall e :: e in ObjectEdits(old(objs)[n]) ==> Fits(e, |old(mem)|)
      ensures ok ==> objs == old(objs)[n := old(objs)[n].(linked := true)]
      ensures ok ==> mem == ApplyAll(old(mem), ObjectEdits(old(objs)[n]))
    {
      hide ApplyAll, EditOf;
      var o := objs[n];
      ok := RelocateSection(o.symtab, o.relText, o.text);
      if ok {
        ghost var middle := mem;
        ok := RelocateSection(o.symtab, o.relData, o.data);
        if ok {
          objs := objs[n := o.(linked := true)];
          AppliedTwice(old(mem), EditsOf(o.relText, o.text, o.symtab), EditsOf(o.relData, o.data, o.symtab));
        }
      }
      ObjectEditsFit(o, |mem|);
    }

    /** The first loop of `link`: the tables of every object that is not linked yet. */
    method CollectAll()
      requires Ready(objs, |mem|)
      modifies this`objs
      ensures forall n :: 0 <= n < |old(objs)| ==> SlotsFit(old(objs)[n])
      ensures objs == Collected(old(objs))
    {
      hide WellFormed, ExportsOf, UndefinedOf;
      ghost var os := objs;
      forall n | 0 <= n < |os| ensures SlotsFit(os[n]) {
        assert WellFormed(os[n], |mem|);
        WellFormedSlots(os[n], |mem|);
      }
      var i := 0;
      while i < |objs|
        invariant i <= |objs| == |os|
        invariant forall n :: 0 <= n < i ==> objs[n] == Collected(os)[n]
        invariant forall n :: i <= n < |os| ==> objs[n] == os[n]
      {
        if !objs[i].linked {
          GenUndExports(i);
        }
        i := i + 1;
      }
      assert objs == Collected(os);
    }

    /** The last loop of `link`: relocates and marks every object that is not linked yet. */
    method RelocateAll() returns (ok: bool)
      requires forall n :: 0 <= n < |objs| ==> WellFormed(objs[n], |mem|) && SymbolsFit(objs[n]) && EditsFit(objs[n], |mem|)
      modifies this
      ensures forall i :: 0 <= i < |LinkEdits(old(objs), |old(objs)|)| ==> Fits(LinkEdits(old(objs), |old(objs)|)[i], |old(mem)|)
      ensures ok <==> Relocatable(old(objs))
      ensures ok ==> objs == Linked(old(objs)) && mem == ApplyAll(old(mem), LinkEdits(old(objs), |old(objs)|))
    {
      hide ApplyAll, ObjectEdits, WellFormed, AllSupported, LinkEdits;
      ghost var rs, bytes := objs, mem;
      var i := 0;
      forall k | 0 <= k <= |rs| ensures forall j :: 0 <= j < |LinkEdits(rs, k)| ==> Fits(LinkEdits(rs, k)[j], |bytes|) {
        LinkEditsFit(rs, k, |bytes|);
      }
      AppliedNone(bytes);
      LinkEditsNone(rs);
      while i < |objs|
        invariant i <= |objs| == |rs| && |mem| == |bytes|
        invariant forall n :: 0 <= n < i ==> objs[n] == rs[n].(linked := true)
        invariant forall n :: i <= n < |rs| ==> objs[n] == rs[n]
        invariant forall n :: 0 <= n < i && !rs[n].linked ==> AllSupported(rs[n])
        invariant mem == ApplyAll(bytes, LinkEdits(rs, i))
      {
        LinkEditsStep(rs, i, |bytes|);
        if !objs[i].linked {
          ok := Relocate(i);
          if !ok {
            return;
          }
          AppliedTwice(bytes, LinkEdits(rs, i), ObjectEdits(rs[i]));
        }
        i := i + 1;
      }
      assert objs == Linked(rs);
      ok := true;
    }

    /** Collects, resolves and relocates; objects that are linked already take part only with their exports. */
    method Link() returns (ok: bool)
      requires Ready(objs, |mem|)
      modifies this
      ensures Prepared(old(objs), host, |old(mem)|)
      ensures var cs := Collected(old(objs)); var address := AddressIn(cs, host);
        var rs := AllResolved(cs, address);
        && (ok <==> Resolvable(cs, address) && Relocatable(old(objs)))
        && (ok ==> objs == Linked(rs) && mem == ApplyAll(old(mem), LinkEdits(rs, |rs|)))
      ensures AllRecorded(old(objs)) ==>
        && (ok <==> AllDenoted(old(objs), host) && AllTypesKnown(old(objs)))
        && (ok ==> AllBound(old(objs), host, objs) && AllRecorded(objs))
    {
      hide ApplyAll, Resolved, WellFormed, LinkEdits, Resolvable, Relocatable,
        AllRecorded, AllDenoted, AllBound, AllTypesKnown;
      ghost var os, size := objs, |mem|;
      PreparedAll(os, host, size);
      if AllRecorded(os) { LinkMeans(os, host, size); }
      CollectAll();
      ok := ResolveUnd();
      if ok {
        SameRelocatable(os, objs);
        ok := RelocateAll();
      }
    }
  }

  ghost predicate EditsFit(o: Object, size: nat) {
    SymbolsFit(o) && forall e :: e in ObjectEdits(o) ==> Fits(e, size)
  }

  /** What the phases need of the objects holds for all of them. */
  ghost predicate Prepared(os: seq<Object>, host: string -> Word32, size: nat) {
    && (forall n :: 0 <= n < |os| ==> SlotsFit(os[n]))
    && (forall n :: 0 <= n < |os| ==> UndefinedFit(Collected(os)[n]))
    && var rs := AllResolved(Collected(os), AddressIn(Collected(os), host));
      && (forall n :: 0 <= n < |os| ==> WellFormed(rs[n], size) && SymbolsFit(rs[n]) && EditsFit(rs[n], size))
      && (forall k, i :: 0 <= k <= |rs| && 0 <= i < |LinkEdits(rs, k)| ==> Fits(LinkEdits(rs, k)[i], size))
  }

  lemma WellFormedSlots(o: Object, size: nat)
    requires WellFormed(o, size)
    ensures SlotsFit(o)
  {
  }

  lemma SameRelocatable(os: seq<Object>, rs: seq<Object>)
    requires |os| == |rs|
    requires forall n :: 0 <= n < |os| ==>
      rs[n].linked == os[n].linked && rs[n].relText == os[n].relText && rs[n].relData == os[n].relData
    ensures Relocatable(os) <==> Relocatable(rs)
  {
    forall n | 0 <= n < |os| ensures AllSupported(os[n]) <==> AllSupported(rs[n]) {
    }
  }

  lemma SameShape(o: Object, r: Object, size: nat)
    requires WellFormed(o, size) && |r.symtab| == |o.symtab| && r == o.(symtab := r.symtab)
    requires forall i :: 0 <= i < |o.symtab| ==> r.symtab[i] == o.symtab[i].(value := r.symtab[i].value)
    ensures WellFormed(r, size) && SymbolsFit(r)
  {
  }

  lemma PreparedAll(os: seq<Object>, host: string -> Word32, size: nat)
    requires Ready(os, size)
    ensures Prepared(os, host, size)
  {
    hide ExportsOf, Resolved, ObjectEdits;
    forall n | 0 <= n < |os| ensures SlotsFit(os[n]) {
    }
    var cs := Collected(os);
    forall n | 0 <= n < |os| ensures WellFormed(cs[n], size) && UndefinedFit(cs[n]) {
    }
    var rs := AllResolved(cs, AddressIn(cs, host));
    forall n | 0 <= n < |os| ensures WellFormed(rs[n], size) && SymbolsFit(rs[n]) && EditsFit(rs[n], size) {
      SameShape(cs[n], rs[n], size);
      ObjectEditsFit(rs[n], size);
    }
    forall k | 0 <= k <= |rs| ensures forall i :: 0 <= i < |LinkEdits(rs, k)| ==> Fits(LinkEdits(rs, k)[i], size) {
      LinkEditsFit(rs, k, size);
    }
  }

  lemma TablesStart(o: Object)
    requires SlotsFit(o)
    ensures BasedSymbols(o, 0) == o.symtab && ExportsOf(o, 0) == [] && UndefinedOf(o, 0) == []
  {
  }

  lemma TablesStep(o: Object, i: nat)
    requires SlotsFit(o) && i < |o.symtab|
    ensures var s := o.symtab[i];
      && ExportsOf(o, i + 1) == ExportsOf(o, i) + (if IsExported(s) then [Export(s.name, Based(o, i))] else [])
      && UndefinedOf(o, i + 1) == UndefinedOf(o, i) + (if IsUndefined(s) then [Undefined(s.name, i)] else [])
  {
  }

  lemma LookupUnfold(os: seq<Object>, host: string -> Word32, name: string)
    ensures Lookup(os, host, name) ==
      if os == [] then host(name)
      else if os[0].exports.Some? && Match(os[0].exports.value, name).Some? then Match(os[0].exports.value, name).value
      else Lookup(os[1..], host, name)
  {
  }

  lemma MatchUnfold(es: seq<Export>, name: string)
    ensures Match(es, name) ==
      if es == [] then None else if es[0].name == name then Some(es[0].address) else Match(es[1..], name)
  {
  }

  /** Resolution does not change what a name resolves to. */
  lemma SameExports(objs: seq<Object>, os: seq<Object>, host: string -> Word32, address: string -> Word32, name: string, n: nat, m: nat)
    requires n < |objs| == |os| && forall j :: 0 <= j < |os| ==> UndefinedFit(os[j])
    requires UndefinedFit(os[n]) && os[n].unds.Some? && m <= |os[n].unds.value|
    requires forall j :: 0 <= j < n ==> objs[j] == ResolvedObject(os[j], address)
    requires forall j :: n < j < |os| ==> objs[j] == os[j]
    requires objs[n] == Resolved(os[n], address, m)
    requires address(name) == Lookup(os, host, name)
    ensures Lookup(objs, host, name) == address(name)
  {
    LookupByExports(os, objs, host, name);
  }

  lemma AppliedNone(s: seq<Octet>)
    ensures ApplyAll(s, []) == s
  {
  }

  lemma {:induction false} AppliedTwice(s: seq<Octet>, a: seq<Edit>, b: seq<Edit>)
    requires forall i :: 0 <= i < |a| ==> Fits(a[i], |s|)
    requires forall i :: 0 <= i < |b| ==> Fits(b[i], |s|)
    ensures forall i :: 0 <= i < |a + b| ==> Fits((a + b)[i], |s|)
    ensures ApplyAll(ApplyAll(s, a), b) == ApplyAll(s, a + b)
    decreases |b|
  {
    hide Get32, Put32;
    if b == [] {
      assert a + b == a;
    } else {
      var c, e := b[..|b| - 1], b[|b| - 1];
      AppliedTwice(s, a, c);
      assert (a + b)[..|a + b| - 1] == a + c && (a + b)[|a + b| - 1] == e;
    }
  }

  lemma ObjectEditsFit(o: Object, size: nat)
    requires WellFormed(o, size)
    ensures forall e :: e in ObjectEdits(o) ==> Fits(e, size)
    ensures forall i :: 0 <= i < |ObjectEdits(o)| ==> Fits(ObjectEdits(o)[i], size)
  {
  }

  lemma LinkEditsNone(os: seq<Object>)
    ensures LinkEdits(os, 0) == []
  {
  }

  lemma {:induction false} LinkEditsFit(os: seq<Object>, k: nat, size: nat)
    requires k <= |os| && forall n :: 0 <= n < |os| ==> SymbolsFit(os[n]) && EditsFit(os[n], size)
    ensures forall e :: e in LinkEdits(os, k) ==> Fits(e, size)
  {
    hide ObjectEdits;
    if k > 0 { LinkEditsFit(os, k - 1, size); }
  }

  lemma LinkEditsStep(os: seq<Object>, k: nat, size: nat)
    requires k < |os| && forall n :: 0 <= n < |os| ==> SymbolsFit(os[n]) && EditsFit(os[n], size)
    ensures LinkEdits(os, k + 1) == if os[k].linked then LinkEdits(os, k) else LinkEdits(os, k) + ObjectEdits(os[k])
    ensures forall i :: 0 <= i < |LinkEdits(os, k)| ==> Fits(LinkEdits(os, k)[i], size)
  {
    hide ObjectEdits;
    LinkEditsFit(os, k, size);
  }

  /** The places that relocations of an object touch, in the order of the relocation phase. */
  function Sites(o: Object): (ls: seq<nat>)
    ensures |ls| == |o.relText| + |o.relData|
  {
    seq(|o.relText|, i requires 0 <= i < |o.relText| => o.text + o.relText[i].offset)
    + seq(|o.relData|, i requires 0 <= i < |o.relData| => o.data + o.relData[i].offset)
  }

  function AllSites(os: seq<Object>, k: nat): seq<nat>
    requires k <= |os|
  {
    if k == 0 then [] else AllSites(os, k - 1) + if os[k - 1].linked then [] else Sites(os[k - 1])
  }

  predicate SitesApart(ls: seq<nat>) {
    forall p, q :: 0 <= p < q < |ls| ==> ls[p] + 4 <= ls[q] || ls[q] + 4 <= ls[p]
  }

  /** All objects after a successful `link`, apart from the linked flags. */
  ghost function Final(os: seq<Object>, host: string -> Word32): seq<Object>
    requires forall n :: 0 <= n < |os| ==> SlotsFit(os[n])
    requires forall n :: 0 <= n < |os| ==> UndefinedFit(Collected(os)[n])
  {
    AllResolved(Collected(os), AddressIn(Collected(os), host))
  }

  /** What S is for a symbol of object n: its section's address plus its value, or the address found for its name. */
  function SymbolAddress(os: seq<Object>, host: string -> Word32, n: nat, i: nat): Word32
    requires n < |os| && i < |os[n].symtab| && forall n :: 0 <= n < |os| ==> SlotsFit(os[n])
  {
    assert SlotsFit(os[n]);
    if IsUndefined(os[n].symtab[i]) then Lookup(Collected(os), host, os[n].symtab[i].name) else Based(os[n], i)
  }

  /** Every symbol of an object linked now ends with the value S. */
  lemma SymbolFinal(os: seq<Object>, host: string -> Word32, n: nat, i: nat)
    requires n < |os| && !os[n].linked && i < |os[n].symtab|
    requires forall n :: 0 <= n < |os| ==> SlotsFit(os[n])
    requires forall n :: 0 <= n < |os| ==> UndefinedFit(Collected(os)[n])
    ensures Final(os, host)[n].symtab[i] == os[n].symtab[i].(value := SymbolAddress(os, host, n, i))
  {
    hide ExportsOf, UndefinedOf, Resolved, Lookup;
    ResolvedValues(os[n], AddressIn(Collected(os), host), |os[n].symtab|);
  }

  lemma FirstNamed(es: seq<Export>, name: string) returns (m: nat)
    requires !NotNamed(es, name)
    ensures FirstEntry(es, name, m)
  {
    m := 0;
    while es[m].name != name
      invariant m < |es| && forall j :: 0 <= j < m ==> es[j].name != name
      decreases |es| - m
    {
      m := m + 1;
    }
  }

  lemma SomeProvider(os: seq<Object>, name: string) returns (n: nat, i: nat)
    requires !NoProvider(os, name)
    ensures FirstProvider(os, name, n, i)
  {
    n, i := 0, 0;
    while ProvidesNone(os[n], name)
      invariant n < |os| && forall j :: 0 <= j < n ==> ProvidesNone(os[j], name)
      decreases |os| - n
    {
      n := n + 1;
    }
    while !Provides(os[n].symtab[i], name)
      invariant i < |os[n].symtab| && NoneBefore(os[n], i, name)
      decreases |os[n].symtab| - i
    {
      i := i + 1;
    }
  }

  ghost predicate TablesAgree(os: seq<Object>, cs: seq<Object>, name: string) {
    |os| == |cs| && forall n :: 0 <= n < |os| ==> cs[n].exports.Some? && EntryAgrees(os[n], cs[n].exports.value, name)
  }

  lemma {:induction false} LookupFrom(os: seq<Object>, cs: seq<Object>, host: string -> Word32, name: string, k: nat)
    requires TablesAgree(os, cs, name)
    requires k <= |os| && forall j :: 0 <= j < k ==> ProvidesNone(os[j], name)
    ensures Denoted(os, host, name, Lookup(cs[k..], host, name))
    decreases |os| - k
  {
    hide Lookup, Match, Place;
    LookupUnfold(cs[k..], host, name);
    if k < |os| {
      var es := cs[k].exports.value;
      MatchFirst(es, name);
      if NotNamed(es, name) {
        assert cs[k..][1..] == cs[k + 1..];
        LookupFrom(os, cs, host, name, k + 1);
      } else {
        var m := FirstNamed(es, name);
        assert !ProvidesNone(os[k], name);
      }
    }
  }

  lemma TablesOfCollected(os: seq<Object>, name: string)
    requires AllRecorded(os) && forall n :: 0 <= n < |os| ==> SlotsFit(os[n])
    ensures TablesAgree(os, Collected(os), name)
  {
    hide ExportsOf, UndefinedOf, NoneBefore, Place, SlotsFit;
    forall n | 0 <= n < |os| ensures Collected(os)[n].exports.Some? && EntryAgrees(os[n], Collected(os)[n].exports.value, name) {
      assert Recorded(os[n]) && SlotsFit(os[n]);
      if !os[n].linked { ExportsAgree(os[n], |os[n].symtab|, name); }
    }
  }

  /** What `find_sym` answers is what the name stands for, and nothing else is. */
  lemma DenotedExactly(os: seq<Object>, host: string -> Word32, name: string, a: Word32)
    requires AllRecorded(os) && forall n :: 0 <= n < |os| ==> SlotsFit(os[n])
    ensures Denoted(os, host, name, a) <==> a == Lookup(Collected(os), host, name)
  {
    hide Lookup, Match, NoneBefore, Place, Recorded, Collected, SlotsFit;
    var cs := Collected(os);
    TablesOfCollected(os, name);
    assert cs[0..] == cs;
    LookupFrom(os, cs, host, name, 0);
    if !NoProvider(os, name) {
      var n, i := SomeProvider(os, name);
    }
  }

  /** The table of undefined symbols lists exactly those of the object. */
  ghost predicate UndefinedExactly(o: Object, us: seq<Undefined>) {
    && (forall m :: 0 <= m < |us| ==> UndefinedHere(o, us[m]))
    && (forall i :: 0 <= i < |o.symtab| && Wants(o.symtab[i]) ==> Undefined(o.symtab[i].name, i) in us)
  }

  lemma {:induction false} UndefinedListed(o: Object, k: nat)
    requires k <= |o.symtab|
    ensures forall m :: 0 <= m < |UndefinedOf(o, k)| ==> UndefinedHere(o, UndefinedOf(o, k)[m])
    ensures forall i :: 0 <= i < k && Wants(o.symtab[i]) ==> Undefined(o.symtab[i].name, i) in UndefinedOf(o, k)
  {
    if k > 0 { UndefinedListed(o, k - 1); }
  }

  /** What the tables of an object say of its symbols: addresses by name, undefined names, and values made absolute. */
  ghost predicate TablesMean(o: Object, g: Object) {
    && g.exports.Some? && g.unds.Some? && |g.symtab| == |o.symtab|
    && (forall name :: EntryAgrees(o, g.exports.value, name)) && UndefinedExactly(o, g.unds.value)
    && forall i :: 0 <= i < |o.symtab| ==> g.symtab[i].value == AbsoluteValue(o, i)
  }

  function AbsoluteValue(o: Object, i: nat): int
    requires i < |o.symtab|
  {
    var s := o.symtab[i];
    if (s.typ == 1 || s.typ == 2) && s.shndx != 0 then Place(o, i) else s.value
  }

  lemma TablesGenerated(o: Object)
    requires SlotsFit(o)
    ensures !o.linked ==> TablesMean(o, Generated(o))
  {
    hide ExportsOf, UndefinedOf, EntryAgrees, UndefinedHere;
    if !o.linked {
      forall name ensures EntryAgrees(o, Generated(o).exports.value, name) {
        TableAgrees(o, name);
      }
      UndefinedListed(o, |o.symtab|);
    }
  }

  lemma TableAgrees(o: Object, name: string)
    requires SlotsFit(o) && !o.linked
    ensures EntryAgrees(o, ExportsOf(o, |o.symtab|), name)
  {
    hide ExportsOf, Place, NoneBefore;
    ExportsAgree(o, |o.symtab|, name);
  }

  lemma UndefinedOfCollected(os: seq<Object>, n: nat)
    requires n < |os| && Recorded(os[n]) && forall n :: 0 <= n < |os| ==> SlotsFit(os[n])
    ensures Collected(os)[n].unds.Some? && UndefinedExactly(os[n], Collected(os)[n].unds.value)
  {
    hide ExportsOf, UndefinedOf, UndefinedHere, EntryAgrees, Wants, Based;
    UndefinedListed(os[n], |os[n].symtab|);
  }

  lemma ResolvableDenoted(os: seq<Object>, host: string -> Word32)
    requires AllRecorded(os) && forall n :: 0 <= n < |os| ==> SlotsFit(os[n])
    ensures var cs := Collected(os); Resolvable(cs, AddressIn(cs, host)) <==> AllDenoted(os, host)
  {
    hide Lookup, Denoted, Collected, Recorded, SlotsFit, Wants;
    var cs := Collected(os);
    var address := AddressIn(cs, host);
    forall name ensures Denoted(os, host, name, 0) <==> address(name) == 0 {
      DenotedExactly(os, host, name, 0);
    }
    forall n | 0 <= n < |os| ensures cs[n].unds.Some? && UndefinedExactly(os[n], cs[n].unds.value) {
      UndefinedOfCollected(os, n);
    }
    if AllDenoted(os, host) {
      forall n | 0 <= n < |os| ensures ObjectResolvable(cs[n], address) {
        assert UndefinedExactly(os[n], cs[n].unds.value);
      }
    }
    if Resolvable(cs, address) {
      forall n, i | 0 <= n < |os| && 0 <= i < |os[n].symtab| && Wants(os[n].symtab[i])
        ensures !Denoted(os, host, os[n].symtab[i].name, 0)
      {
        assert ObjectResolvable(cs[n], address) && UndefinedExactly(os[n], cs[n].unds.value);
        assert Undefined(os[n].symtab[i].name, i) in cs[n].unds.value;
      }
    }
  }

  lemma {:induction false} ValueFor(us: seq<Undefined>, address: string -> Word32, k: nat, i: nat, v: Word32, name: string)
    requires k <= |us| && forall m :: 0 <= m < k && us[m].symbol == i ==> us[m].name == name
    ensures (exists m :: 0 <= m < k && us[m].symbol == i) ==> ValueAfter(us, address, k, i, v) == address(name)
    ensures (forall m :: 0 <= m < k ==> us[m].symbol != i) ==> ValueAfter(us, address, k, i, v) == v
  {
    if k > 0 && us[k - 1].symbol != i { ValueFor(us, address, k - 1, i, v, name); }
  }

  /** Resolution gives the undefined symbols the addresses of their names and keeps all other values. */
  lemma ResolvedExactly(o: Object, c: Object, address: string -> Word32, i: nat)
    requires c.unds.Some? && UndefinedFit(c) && UndefinedExactly(o, c.unds.value)
    requires |c.symtab| == |o.symtab| && i < |o.symtab|
    ensures ResolvedObject(c, address).symtab[i].value
      == if Wants(o.symtab[i]) then address(o.symtab[i].name) else c.symtab[i].value
  {
    hide Resolved, ValueAfter;
    var us := c.unds.value;
    ResolvedAt(c, address, |us|);
    forall m | 0 <= m < |us| && us[m].symbol == i ensures us[m].name == o.symtab[i].name && Wants(o.symtab[i]) {
      assert UndefinedHere(o, us[m]);
    }
    ValueFor(us, address, |us|, i, c.symtab[i].value, o.symtab[i].name);
    if Wants(o.symtab[i]) {
      var u := Undefined(o.symtab[i].name, i);
      var m :| 0 <= m < |us| && us[m] == u;
    }
  }

  /** What the collection leaves of a symbol. */
  lemma CollectedSymbol(os: seq<Object>, n: nat, i: nat)
    requires n < |os| && forall n :: 0 <= n < |os| ==> SlotsFit(os[n])
    ensures var c := Collected(os)[n]; |c.symtab| == |os[n].symtab| && (i < |c.symtab| ==>
      var s := os[n].symtab[i];
      && c.symtab[i] == s.(value := c.symtab[i].value)
      && (s.typ == 1 || s.typ == 2 ==> s.shndx != 0 ==> c.symtab[i].value == Place(os[n], i))
      && (s.typ != 1 && s.typ != 2 ==> c.symtab[i].value == s.value))
  {
    hide ExportsOf, UndefinedOf;
    assert SlotsFit(os[n]);
  }

  lemma SymbolBound(os: seq<Object>, host: string -> Word32, n: nat, i: nat)
    requires AllRecorded(os) && n < |os| && i < |os[n].symtab|
    requires forall n :: 0 <= n < |os| ==> SlotsFit(os[n])
    requires forall n :: 0 <= n < |os| ==> UndefinedFit(Collected(os)[n])
    ensures |Final(os, host)[n].symtab| == |os[n].symtab|
    ensures var r := Final(os, host)[n].symtab[i];
      && Bound(os, host, n, i, r.value) && r == os[n].symtab[i].(value := r.value)
  {
    hide Lookup, Denoted, Recorded, SlotsFit, Collected, Resolved, Place, UndefinedExactly;
    var cs := Collected(os);
    assert Recorded(os[n]) && UndefinedFit(cs[n]);
    CollectedSymbol(os, n, i);
    UndefinedOfCollected(os, n);
    ResolvedExactly(os[n], cs[n], AddressIn(cs, host), i);
    DenotedExactly(os, host, os[n].symtab[i].name, Lookup(cs, host, os[n].symtab[i].name));
  }

  /** An object that has been linked keeps tables that say what its symbols say. */
  lemma RecordedAfter(o: Object, l: Object, c: Object)
    requires c.exports.Some? && c.unds.Some? && l.linked && l.exports == c.exports && l.unds == c.unds
    requires forall name :: EntryAgrees(o, c.exports.value, name)
    requires UndefinedExactly(o, c.unds.value)
    requires |l.symtab| == |o.symtab| && forall i :: 0 <= i < |o.symtab| ==>
      && l.symtab[i] == o.symtab[i].(value := l.symtab[i].value)
      && (Provides(o.symtab[i], o.symtab[i].name) ==> l.symtab[i].value == Place(o, i))
    ensures Recorded(l)
  {
    hide Place;
    var es := c.exports.value;
    forall name ensures EntryAgrees(l, es, name) {
      assert EntryAgrees(o, es, name);
      SameProviders(o, l, name);
      forall m, i | FirstEntry(es, name, m) && FirstSymbol(l, name, i) ensures es[m].address == Place(l, i) {
        assert FirstSymbol(o, name, i);
        AbsoluteAlready(l, i);
      }
    }
    forall m | 0 <= m < |l.unds.value| ensures UndefinedHere(l, l.unds.value[m]) {
      assert UndefinedHere(o, c.unds.value[m]);
    }
  }

  lemma AbsoluteAlready(l: Object, i: nat)
    requires l.linked && i < |l.symtab|
    ensures Place(l, i) == l.symtab[i].value
  {
  }

  lemma SameProviders(o: Object, l: Object, name: string)
    requires |l.symtab| == |o.symtab|
    requires forall i :: 0 <= i < |o.symtab| ==> l.symtab[i] == o.symtab[i].(value := l.symtab[i].value)
    ensures forall k :: 0 <= k <= |o.symtab| ==> (NoneBefore(l, k, name) <==> NoneBefore(o, k, name))
    ensures forall i :: 0 <= i < |o.symtab| ==> (Provides(l.symtab[i], name) <==> Provides(o.symtab[i], name))
  {
    forall k | 0 <= k <= |o.symtab| ensures NoneBefore(l, k, name) <==> NoneBefore(o, k, name) {
      assert forall i :: 0 <= i < k ==> (Provides(l.symtab[i], name) <==> Provides(o.symtab[i], name));
    }
  }

  /** `link` in terms of the symbol tables: when it succeeds and what it binds every symbol to. */
  lemma LinkMeans(os: seq<Object>, host: string -> Word32, size: nat)
    requires AllRecorded(os) && Prepared(os, host, size)
    ensures var cs := Collected(os); Resolvable(cs, AddressIn(cs, host)) <==> AllDenoted(os, host)
    ensures Relocatable(os) <==> AllTypesKnown(os)
    ensures AllBound(os, host, Linked(Final(os, host)))
    ensures AllRecorded(Linked(Final(os, host)))
  {
    hide Recorded, SlotsFit, Collected, Resolved, UndefinedExactly, EntryAgrees, Bound, Lookup, AllDenoted, Resolvable;
    ResolvableDenoted(os, host);
    SupportMeans(os);
    var cs, rs := Collected(os), Final(os, host);
    var ls := Linked(rs);
    forall n | 0 <= n < |os| ensures Recorded(ls[n]) {
      ObjectRecorded(os, host, n);
    }
    forall n, i | 0 <= n < |os| && 0 <= i < |os[n].symtab|
      ensures |ls[n].symtab| == |os[n].symtab| && Bound(os, host, n, i, ls[n].symtab[i].value)
        && ls[n].symtab[i] == os[n].symtab[i].(value := ls[n].symtab[i].value)
    {
      SymbolBound(os, host, n, i);
    }
    forall n | 0 <= n < |os| ensures |ls[n].symtab| == |os[n].symtab| {
      CollectedSymbol(os, n, 0);
    }
  }

  lemma ObjectRecorded(os: seq<Object>, host: string -> Word32, n: nat)
    requires AllRecorded(os) && n < |os|
    requires forall n :: 0 <= n < |os| ==> SlotsFit(os[n])
    requires forall n :: 0 <= n < |os| ==> UndefinedFit(Collected(os)[n])
    ensures Recorded(Linked(Final(os, host))[n])
  {
    hide Recorded, SlotsFit, Collected, Resolved, UndefinedExactly, EntryAgrees, Lookup, Place;
    var cs := Collected(os);
    var l := Linked(Final(os, host))[n];
    UndefinedOfCollected(os, n);
    CollectedSymbol(os, n, 0);
    TablesOfCollected(os, "");
    forall name ensures cs[n].exports.Some? && EntryAgrees(os[n], cs[n].exports.value, name) {
      TablesOfCollected(os, name);
    }
    forall i | 0 <= i < |os[n].symtab|
      ensures l.symtab[i] == os[n].symtab[i].(value := l.symtab[i].value)
      ensures Provides(os[n].symtab[i], os[n].symtab[i].name) ==> l.symtab[i].value == Place(os[n], i)
    {
      SymbolBound(os, host, n, i);
    }
    RecordedAfter(os[n], l, cs[n]);
  }

  lemma SupportMeans(os: seq<Object>)
    ensures Relocatable(os) <==> AllTypesKnown(os)
  {
    forall n | 0 <= n < |os| ensures AllSupported(os[n]) <==> TypesKnown(os[n].relText) && TypesKnown(os[n].relData) {
    }
  }

  /** S, read off the symbol tables. */
  lemma SymbolMeans(os: seq<Object>, host: string -> Word32, n: nat, i: nat)
    requires AllRecorded(os) && n < |os| && !os[n].linked && i < |os[n].symtab|
    requires forall n :: 0 <= n < |os| ==> SlotsFit(os[n])
    requires forall n :: 0 <= n < |os| ==> UndefinedFit(Collected(os)[n])
    ensures Bound(os, host, n, i, SymbolAddress(os, host, n, i))
  {
    hide Bound, SymbolAddress, AllRecorded, SlotsFit;
    SymbolFinal(os, host, n, i);
    SymbolBound(os, host, n, i);
  }

  lemma {:induction false} SitesOfEdits(os: seq<Object>, rs: seq<Object>, k: nat)
    requires k <= |os| == |rs| && forall n :: 0 <= n < |os| ==> SymbolsFit(rs[n]) && SameRelocations(os[n], rs[n])
    ensures |LinkEdits(rs, k)| == |AllSites(os, k)|
    ensures forall q :: 0 <= q < |AllSites(os, k)| ==> LinkEdits(rs, k)[q].Edit? && LinkEdits(rs, k)[q].off == AllSites(os, k)[q]
  {
    hide ObjectEdits, Sites;
    if k > 0 {
      SitesOfEdits(os, rs, k - 1);
      if !os[k - 1].linked { ObjectSites(os[k - 1], rs[k - 1]); }
    }
  }

  predicate SameRelocations(o: Object, r: Object) {
    r.linked == o.linked && r.relText == o.relText && r.relData == o.relData && r.text == o.text && r.data == o.data
  }

  lemma ObjectSites(o: Object, r: Object)
    requires SymbolsFit(r) && SameRelocations(o, r)
    ensures |ObjectEdits(r)| == |Sites(o)|
    ensures forall q :: 0 <= q < |Sites(o)| ==> ObjectEdits(r)[q].Edit? && ObjectEdits(r)[q].off == Sites(o)[q]
  {
  }

  /** Where the edits of object n are in the whole list. */
  lemma {:induction false} EditsOfObject(rs: seq<Object>, n: nat, k: nat)
    requires n < k <= |rs| && !rs[n].linked && forall n :: 0 <= n < |rs| ==> SymbolsFit(rs[n])
    ensures |LinkEdits(rs, n)| + |ObjectEdits(rs[n])| <= |LinkEdits(rs, k)|
    ensures forall q :: 0 <= q < |ObjectEdits(rs[n])| ==> LinkEdits(rs, k)[|LinkEdits(rs, n)| + q] == ObjectEdits(rs[n])[q]
    decreases k
  {
    hide ObjectEdits;
    if n < k - 1 { EditsOfObject(rs, n, k - 1); }
  }

  function RelocationsOf(o: Object, inData: bool): seq<Relocation> { if inData then o.relData else o.relText }

  function BaseOf(o: Object, inData: bool): nat { if inData then o.data else o.text }

  /** R_386_32 adds S to the word; R_386_PC32 stores S - P - 4, whatever the word was. */
  function RelocatedWord(typ: nat, word: Word32, s: Word32, place: nat): Word32 {
    if typ == 1 then Mod32(word + s) else Mod32(s - place - 4)
  }

  /** The word of every relocation after linking, computed from the word before. */
  lemma LinkedWord(os: seq<Object>, host: string -> Word32, mem: seq<Octet>, n: nat, inData: bool, i: nat)
    requires Ready(os, |mem|) && n < |os| && !os[n].linked && i < |RelocationsOf(os[n], inData)|
    requires SitesApart(AllSites(os, |os|))
    requires Prepared(os, host, |mem|) && Relocatable(os)
    ensures var rs := Final(os, host); var r := RelocationsOf(os[n], inData)[i];
      var place := BaseOf(os[n], inData) + r.offset;
      && place + 4 <= |mem| && r.symbol < |os[n].symtab|
      && Get32(ApplyAll(mem, LinkEdits(rs, |rs|)), place)
        == RelocatedWord(r.typ, Get32(mem, place), SymbolAddress(os, host, n, r.symbol), place)
  {
    hide Get32, ApplyAll, ExportsOf, Resolved, Lookup, LinkEdits, ObjectEdits, AllSites, Final, SymbolAddress;
    var rs := FinalShape(os, host);
    var r := RelocationsOf(os[n], inData)[i];
    WellFormedPlace(os[n], |mem|, inData, i);
    SymbolFinal(os, host, n, r.symbol);
    var q := (if inData then |os[n].relText| else 0) + i;
    ObjectEditAt(rs[n], inData, i);
    EditsOfObject(rs, n, |rs|);
    SitesOfEdits(os, rs, |rs|);
    var es, p := LinkEdits(rs, |rs|), |LinkEdits(rs, n)| + q;
    assert es[p] == ObjectEdits(rs[n])[q];
    forall j | 0 <= j < |es| && j != p ensures !Touches(es[j], es[p].off) {
    }
    EditedOnce(mem, es, p);
    SupportedType(os, n, inData, i);
  }

  lemma FinalShape(os: seq<Object>, host: string -> Word32) returns (rs: seq<Object>)
    requires forall n :: 0 <= n < |os| ==> SlotsFit(os[n])
    requires forall n :: 0 <= n < |os| ==> UndefinedFit(Collected(os)[n])
    ensures rs == Final(os, host) && |rs| == |os|
    ensures rs == AllResolved(Collected(os), AddressIn(Collected(os), host))
    ensures forall n :: 0 <= n < |os| ==> SameRelocations(os[n], rs[n]) && |rs[n].symtab| == |os[n].symtab|
  {
    rs := Final(os, host);
  }

  lemma WellFormedPlace(o: Object, size: nat, inData: bool, i: nat)
    requires WellFormed(o, size) && i < |RelocationsOf(o, inData)|
    ensures var r := RelocationsOf(o, inData)[i]; r.symbol < |o.symtab| && BaseOf(o, inData) + r.offset + 4 <= size
  {
  }

  lemma ObjectEditAt(o: Object, inData: bool, i: nat)
    requires SymbolsFit(o) && i < |RelocationsOf(o, inData)|
    ensures var r := RelocationsOf(o, inData)[i]; var q := (if inData then |o.relText| else 0) + i;
      && q < |ObjectEdits(o)| && r.symbol < |o.symtab|
      && ObjectEdits(o)[q] == EditOf(r, BaseOf(o, inData), o.symtab[r.symbol].value)
  {
  }

  lemma SupportedType(os: seq<Object>, n: nat, inData: bool, i: nat)
    requires Relocatable(os) && n < |os| && !os[n].linked && i < |RelocationsOf(os[n], inData)|
    ensures Supported(RelocationsOf(os[n], inData)[i])
  {
    assert AllSupported(os[n]);
  }

  /** The psABI adds the word at the place to S - P; the loader's formula agrees exactly when that word is -4. */
  lemma PcRelativeExact(word: Word32, s: Word32, place: nat)
    ensures RelocatedWord(R_386_PC32, word, s, place) == Mod32(word + s - place) <==> word == 0xffff_fffc
  {
  }

  /** The psABI's value for a relocation whose word holds the addend a: S + A, or S + A - P. */
  function AbiWord(typ: nat, a: Word32, s: Word32, place: nat): Word32 {
    if typ == 2 then Mod32(a + s - place) else Mod32(a + s)
  }

  /** After linking a word has the value of the psABI if and only if the relocation is absolute or its addend was -4. */
  lemma AbiExactly(os: seq<Object>, host: string -> Word32, mem: seq<Octet>, n: nat, inData: bool, i: nat)
    requires Ready(os, |mem|) && n < |os| && !os[n].linked && i < |RelocationsOf(os[n], inData)|
    requires SitesApart(AllSites(os, |os|))
    requires Prepared(os, host, |mem|) && Relocatable(os)
    ensures var rs := Final(os, host); var r := RelocationsOf(os[n], inData)[i];
      var place := BaseOf(os[n], inData) + r.offset;
      && place + 4 <= |mem| && r.symbol < |os[n].symtab|
      && (Get32(ApplyAll(mem, LinkEdits(rs, |rs|)), place)
        == AbiWord(r.typ, Get32(mem, place), SymbolAddress(os, host, n, r.symbol), place)
        <==> r.typ == 1 || Get32(mem, place) == 0xffff_fffc)
  {
    hide Get32, ApplyAll, LinkEdits, AllSites, Final, SymbolAddress;
    LinkedWord(os, host, mem, n, inData, i);
    SupportedType(os, n, inData, i);
    var r := RelocationsOf(os[n], inData)[i];
    var place := BaseOf(os[n], inData) + r.offset;
    if r.typ == R_386_PC32 {
      PcRelativeExact(Get32(mem, place), SymbolAddress(os, host, n, r.symbol), place);
    }
  }

  /** What the first k resolutions leave in the value of symbol i. */
  function ValueAfter(us: seq<Undefined>, address: string -> Word32, k: nat, i: nat, v: Word32): Word32
    requires k <= |us|
  {
    if k == 0 then v
    else if us[k - 1].symbol == i then address(us[k - 1].name)
    else ValueAfter(us, address, k - 1, i, v)
  }

  lemma {:induction false} ResolvedAt(o: Object, address: string -> Word32, k: nat)
    requires UndefinedFit(o) && o.unds.Some? && k <= |o.unds.value|
    ensures forall i :: 0 <= i < |o.symtab| ==>
      Resolved(o, address, k).symtab[i] == o.symtab[i].(value := ValueAfter(o.unds.value, address, k, i, o.symtab[i].value))
  {
    if k > 0 { ResolvedAt(o, address, k - 1); }
  }

  lemma {:induction false} ValueTwice(us: seq<Undefined>, address: string -> Word32, k: nat, i: nat, v: Word32, w: Word32)
    requires k <= |us|
    ensures ValueAfter(us, address, k, i, v) != ValueAfter(us, address, k, i, w) ==>
      ValueAfter(us, address, k, i, v) == v && ValueAfter(us, address, k, i, w) == w
  {
    if k > 0 && us[k - 1].symbol != i { ValueTwice(us, address, k - 1, i, v, w); }
  }

  /** Resolving an object again with the same addresses changes nothing. */
  lemma ResolvedTwice(o: Object, address: string -> Word32, again: string -> Word32)
    requires UndefinedFit(o) && forall name :: again(name) == address(name)
    ensures ResolvedObject(ResolvedObject(o, address).(linked := true), again) == ResolvedObject(o, address).(linked := true)
  {
    hide Resolved, ValueAfter;
    if o.unds.Some? {
      var n := |o.unds.value|;
      var r := ResolvedObject(o, address).(linked := true);
      ResolvedAt(o, address, n);
      ResolvedAt(r, again, n);
      forall i | 0 <= i < |o.symtab| ensures ResolvedObject(r, again).symtab[i] == r.symtab[i] {
        SameAddresses(o.unds.value, address, again, n, i, r.symtab[i].value);
        ValueTwice(o.unds.value, address, n, i, o.symtab[i].value, r.symtab[i].value);
      }
    }
  }

  lemma {:induction false} SameAddresses(us: seq<Undefined>, a: string -> Word32, b: string -> Word32, k: nat, i: nat, v: Word32)
    requires k <= |us| && forall name :: a(name) == b(name)
    ensures ValueAfter(us, a, k, i, v) == ValueAfter(us, b, k, i, v)
  {
    if k > 0 { SameAddresses(us, a, b, k - 1, i, v); }
  }

  /** No object is relocated twice: linking what is linked already changes neither objects nor memory. */
  lemma LinkTwice(os: seq<Object>, host: string -> Word32, size: nat)
    requires Ready(os, size)
    requires Prepared(os, host, size)
    ensures var ls := Linked(Final(os, host));
      && (forall n :: 0 <= n < |ls| ==> SlotsFit(ls[n]))
      && Collected(ls) == ls
      && (forall n :: 0 <= n < |ls| ==> UndefinedFit(ls[n]) && SymbolsFit(ls[n]))
      && AllResolved(ls, AddressIn(ls, host)) == ls
      && LinkEdits(ls, |ls|) == []
  {
    hide ExportsOf, Resolved, Lookup, ObjectEdits, LinkEdits;
    var cs, rs := Collected(os), Final(os, host);
    var ls := Linked(rs);
    forall n | 0 <= n < |ls| ensures SlotsFit(ls[n]) && UndefinedFit(ls[n]) && SymbolsFit(ls[n]) {
      LinkedFits(rs[n], size);
    }
    forall name ensures AddressIn(ls, host)(name) == AddressIn(cs, host)(name) {
      LookupByExports(cs, ls, host, name);
    }
    forall n | 0 <= n < |ls| ensures ResolvedObject(ls[n], AddressIn(ls, host)) == ls[n] {
      ResolvedTwice(cs[n], AddressIn(cs, host), AddressIn(ls, host));
    }
    NothingToRelocate(ls, |ls|);
  }

  lemma LinkedFits(o: Object, size: nat)
    requires WellFormed(o, size)
    ensures var l := o.(linked := true); SlotsFit(l) && UndefinedFit(l) && SymbolsFit(l)
  {
  }

  lemma {:induction false} NothingToRelocate(os: seq<Object>, k: nat)
    requires k <= |os| && forall n :: 0 <= n < |os| ==> SymbolsFit(os[n]) && os[n].linked
    ensures LinkEdits(os, k) == []
  {
    if k > 0 { NothingToRelocate(os, k - 1); }
  }
}
