/**
  The symbol table of tcc_10/tccelf.c: an array of symbol records whose names live in a
  string table, with the chained hash index of 'Hash Table' in chapter 5 of the System V
  gABI beside it, and the rule by which `add_elf_sym` merges strong and weak symbols.

  A C string is a byte sequence without NUL; a section is a growable sequence.
 */
module ElfEntry {

  type Byte = bv8
  type CString = s: seq<Byte> | 0 !in s witness []
  type InfoByte = x: nat | x < 256

  /** A symbol record with its name spelled out. */
  datatype Entry = Entry(name: seq<Byte>, value: int, size: int, info: InfoByte, other: int, shndx: int)

  const STB_LOCAL := 0
  const STB_GLOBAL := 1
  const STB_WEAK := 2
  const SHN_UNDEF := 0

  function Bind(info: InfoByte): nat { info / 16 }

  function Type(info: InfoByte): nat { info % 16 }

  function Info(bind: nat, typ: nat): InfoByte
    requires bind < 16
  {
    bind * 16 + typ % 16
  }

  predicate NonLocal(e: Entry) { Bind(e.info) != STB_LOCAL }

  /** `elf_hash`, one character. */
  function HashStep(h: bv32, c: Byte): bv32 { Fold((h << 4) + c as bv32) }

  function Fold(h: bv32): bv32 {
    var g := h & 0xf000_0000;
    var h1 := if g != 0 then h ^ (g >> 24) else h;
    h1 & !g
  }

  function HashFrom(h: bv32, name: seq<Byte>): bv32
    decreases |name|
  {
    if name == [] then h else HashFrom(HashStep(h, name[0]), name[1..])
  }

  function Hash(name: seq<Byte>): bv32 { HashFrom(0, name) }

  method ElfHash(name: seq<Byte>) returns (h: bv32)
    ensures h == Hash(name)
  {
    hide HashFrom, HashStep;
    h := 0;
    var i := 0;
    assert name[0..] == name;
    while i < |name|
      invariant i <= |name| && HashFrom(h, name[i..]) == Hash(name)
    {
      HashUnfold(h, name[i..]);
      assert name[i..][1..] == name[i + 1..];
      h := HashStep(h, name[i]);
      i := i + 1;
    }
    HashUnfold(h, name[i..]);
  }

  lemma HashUnfold(h: bv32, name: seq<Byte>)
    ensures HashFrom(h, name) == if name == [] then h else HashFrom(HashStep(h, name[0]), name[1..])
  {
  }

  /** The four top bits are always clear, so that no value exceeds 28 bits. */
  lemma {:induction false} HashTopBits(h: bv32, name: seq<Byte>)
    requires h & 0xf000_0000 == 0
    ensures HashFrom(h, name) & 0xf000_0000 == 0
    decreases |name|
  {
    if name != [] {
      TopBitsStep(h, name[0]);
      HashTopBits(HashStep(h, name[0]), name[1..]);
    }
  }

  lemma TopBitsStep(h: bv32, c: Byte)
    ensures HashStep(h, c) & 0xf000_0000 == 0
  {
    hide Fold;
    FoldTopBits((h << 4) + c as bv32);
  }

  lemma FoldTopBits(x: bv32)
    ensures Fold(x) & 0xf000_0000 == 0
  {
  }

  lemma {:induction false} HashSnoc(h: bv32, name: seq<Byte>, c: Byte)
    ensures HashFrom(h, name + [c]) == HashStep(HashFrom(h, name), c)
    decreases |name|
  {
    hide HashStep;
    if name == [] {
      assert (name + [c])[1..] == [];
    } else {
      assert (name + [c])[1..] == name[1..] + [c];
      HashSnoc(HashStep(h, name[0]), name[1..], c);
    }
  }

  /** One more digit in base 16. */
  function Append16(h: bv32, c: Byte): bv32 { h * 16 + c as bv32 }

  /** The sum of the bytes, each times its power of sixteen. */
  function Base16(name: seq<Byte>): bv32 {
    if name == [] then 0 else Append16(Base16(name[..|name| - 1]), name[|name| - 1])
  }

  /** h is x with its four top bits folded into bits 4 to 7. */
  predicate FoldedTo(x: bv32, h: bv32) { FoldedLow(x, h) && FoldedHigh(x, h) }

  predicate FoldedLow(x: bv32, h: bv32) {
    h & 0xf == x & 0xf && h & 0xf0 == (x & 0xf0) ^ ((x & 0xf000_0000) >> 24)
  }

  predicate FoldedHigh(x: bv32, h: bv32) {
    && h & 0xff00 == x & 0xff00 && h & 0xff_0000 == x & 0xff_0000
    && h & 0x0f00_0000 == x & 0x0f00_0000 && h & 0xf000_0000 == 0
  }

  lemma LowFolds(x: bv32)
    ensures FoldedLow(x, Fold(x))
  {
  }

  lemma HighFolds(x: bv32)
    ensures FoldedHigh(x, Fold(x))
  {
  }

  lemma FoldPlain(x: bv32)
    requires x & 0xf000_0000 == 0
    ensures Fold(x) == x
  {
  }

  lemma SixteenTimes(h: bv32, c: Byte)
    ensures HashStep(h, c) == Fold(Append16(h, c))
  {
    hide Fold;
    assert h << 4 == h * 16;
  }

  /** One more character: sixteen times the hash plus the character, folded. */
  lemma HashFolds(name: seq<Byte>, c: Byte)
    ensures Hash([]) == 0 && FoldedTo(Append16(Hash(name), c), Hash(name + [c]))
  {
    hide HashFrom, HashStep, FoldedLow, FoldedHigh, Append16, Fold;
    HashSnoc(0, name, c);
    HashUnfold(0, []);
    var h := HashFrom(0, name);
    SixteenTimes(h, c);
    LowFolds(Append16(h, c));
    HighFolds(Append16(h, c));
  }

  /** Up to six ASCII characters hash to their base-16 sum: nothing is folded. */
  lemma {:induction false} ShortHash(name: seq<Byte>)
    requires |name| <= 6 && forall i :: 0 <= i < |name| ==> name[i] <= 0x7f
    ensures Hash(name) == Base16(name) && AtMost(Base16(name), |name|)
  {
    hide HashFrom, HashStep, AtMost, Append16, Fold;
    HashUnfold(0, []);
    AtMostStart();
    if name != [] {
      var most, c := name[..|name| - 1], name[|name| - 1];
      ShortHash(most);
      assert most + [c] == name;
      HashSnoc(0, most, c);
      SixteenTimes(Base16(most), c);
      AtMostStep(Base16(most), c, |most|);
      FoldPlain(Append16(Base16(most), c));
    }
  }

  /** The greatest base-16 sum of n ASCII characters. */
  predicate AtMost(h: bv32, n: nat) {
    && (n == 0 ==> h == 0) && (n == 1 ==> h <= 0x7f) && (n == 2 ==> h <= 0x86f) && (n == 3 ==> h <= 0x876f)
    && (n == 4 ==> h <= 0x8_776f) && (n == 5 ==> h <= 0x87_776f) && (n == 6 ==> h <= 0x877_776f)
  }

  lemma AtMostStart()
    ensures AtMost(0, 0)
  {
  }

  lemma AtMostStep(h: bv32, c: Byte, n: nat)
    requires n <= 5 && AtMost(h, n) && c <= 0x7f
    ensures AtMost(Append16(h, c), n + 1) && Append16(h, c) & 0xf000_0000 == 0
  {
  }

  /** The bucket of a name. */
  function Bucket(name: seq<Byte>, nb: nat): (h: nat)
    requires nb > 0
    ensures h < nb
  {
    (Hash(name) as nat) % nb
  }

  /** The last non-local entry below k in a bucket, 0 if there is none. */
  function Prev(v: seq<Entry>, nb: nat, h: nat, k: nat): (i: nat)
    requires nb > 0 && k <= |v|
    ensures i < k || i == 0
  {
    if k == 0 then 0
    else if NonLocal(v[k - 1]) && Bucket(v[k - 1].name, nb) == h then k - 1
    else Prev(v, nb, h, k - 1)
  }

  /** Backward linear search below k for a non-local entry of the given name, 0 if none. */
  function Linear(v: seq<Entry>, name: seq<Byte>, k: nat): (i: nat)
    requires k <= |v|
    ensures i < k || i == 0
    ensures i > 0 ==> NonLocal(v[i]) && v[i].name == name
  {
    if k == 0 then 0
    else if NonLocal(v[k - 1]) && v[k - 1].name == name then k - 1
    else Linear(v, name, k - 1)
  }

  function CountNonLocal(v: seq<Entry>): nat {
    if v == [] then 0
    else CountNonLocal(v[..|v| - 1]) + if NonLocal(v[|v| - 1]) then 1 else 0
  }

  /** Entries of another bucket can be skipped by the search. */
  lemma {:induction false} LinearSkips(v: seq<Entry>, nb: nat, name: seq<Byte>, k: nat)
    requires nb > 0 && k <= |v|
    ensures var i := Prev(v, nb, Bucket(name, nb), k);
      Linear(v, name, k) == if i == 0 then 0 else Linear(v, name, i + 1)
  {
    hide Bucket;
    if k > 0 && !(NonLocal(v[k - 1]) && Bucket(v[k - 1].name, nb) == Bucket(name, nb)) {
      LinearSkips(v, nb, name, k - 1);
    }
    if k == 1 { assert Linear(v, name, 1) == 0; }
  }

  /** The chain words: what the hash section must hold for a given symbol sequence. */
  function Chain(v: seq<Entry>, nb: nat, i: nat): (p: nat)
    requires nb > 0 && i < |v|
    ensures p == 0 || p < i
  {
    if NonLocal(v[i]) then Prev(v, nb, Bucket(v[i].name, nb), i) else 0
  }

  ghost predicate Buckets(v: seq<Entry>, hash: seq<int>, nb: nat, k: nat)
    requires nb > 0 && k <= |v| && 2 + nb <= |hash|
  {
    forall h :: 0 <= h < nb ==> hash[2 + h] == Prev(v, nb, h, k)
  }

  ghost predicate Chains(v: seq<Entry>, hash: seq<int>, nb: nat, k: nat)
    requires nb > 0 && k <= |v| && 2 + nb + k <= |hash|
  {
    forall i :: 0 <= i < k ==> hash[2 + nb + i] == Chain(v, nb, i)
  }

  /** The hash section indexes v: header words, buckets, chains, and nothing else. */
  ghost predicate Indexes(hash: seq<int>, v: seq<Entry>) {
    && |hash| > 2 && hash[0] > 0 && hash[1] == |v|
    && |hash| == 2 + hash[0] + |v|
    && Buckets(v, hash, hash[0], |v|)
    && Chains(v, hash, hash[0], |v|)
  }

  lemma {:induction false} PrevAppend(v: seq<Entry>, e: Entry, nb: nat, h: nat, k: nat)
    requires nb > 0 && k <= |v|
    ensures Prev(v + [e], nb, h, k) == Prev(v, nb, h, k)
  {
    if k > 0 { PrevAppend(v, e, nb, h, k - 1); }
  }

  /** hash' is hash with one more chain word, and that entry at the head of its bucket. */
  ghost predicate Linked(hash: seq<int>, e: Entry, index: int, hash': seq<int>)
    requires |hash| > 2 && 0 < hash[0] <= |hash| - 2
  {
    var nb := hash[0];
    var b := Bucket(e.name, nb);
    && |hash'| == |hash| + 1
    && hash'[0] == nb && hash'[1] == hash[1] + 1
    && (forall h :: 2 <= h < |hash| && !(NonLocal(e) && h == 2 + b) ==> hash'[h] == hash[h])
    && hash'[|hash|] == (if NonLocal(e) then hash[2 + b] else 0)
    && (NonLocal(e) ==> hash'[2 + b] == index)
  }

  /** Adding one entry and linking it into its bucket keeps the index. */
  lemma IndexAppend(hash: seq<int>, v: seq<Entry>, e: Entry, hash': seq<int>)
    requires Indexes(hash, v) && Linked(hash, e, |v|, hash')
    ensures Indexes(hash', v + [e])
  {
    hide Bucket, Prev;
    var nb: nat := hash[0];
    var w := v + [e];
    forall h | 0 <= h < nb
      ensures hash'[2 + h] == Prev(w, nb, h, |w|)
    {
      PrevAppend(v, e, nb, h, |v|);
      PrevLast(w, nb, h);
    }
    forall i | 0 <= i < |w|
      ensures hash'[2 + nb + i] == Chain(w, nb, i)
    {
      PrevAppend(v, e, nb, Bucket(w[i].name, nb), i);
      if i < |v| {
        assert w[i] == v[i];
        assert hash'[2 + nb + i] == hash[2 + nb + i] == Chain(v, nb, i);
      }
    }
  }

  lemma PrevLast(v: seq<Entry>, nb: nat, h: nat)
    requires nb > 0 && v != []
    ensures var e := v[|v| - 1];
      Prev(v, nb, h, |v|) == if NonLocal(e) && Bucket(e.name, nb) == h then |v| - 1 else Prev(v, nb, h, |v| - 1)
  {
  }
}

module ElfSymbolTable {
  import opened Options
  import opened ElfEntry

  /** Elf32_Sym. */
  datatype Sym = Sym(name: int, value: int, size: int, info: InfoByte, other: int, shndx: int)

  /** The C string that starts at an offset. */
  function StringAt(s: seq<Byte>, off: nat): seq<Byte>
    requires off <= |s|
    decreases |s| - off
  {
    if off == |s| || s[off] == 0 then [] else [s[off]] + StringAt(s, off + 1)
  }

  /** Every string that starts inside the table ends inside it. */
  ghost predicate Terminated(s: seq<Byte>) {
    |s| > 0 && s[0] == 0 && s[|s| - 1] == 0
  }

  lemma {:induction false} StringAtAppend(s: seq<Byte>, t: seq<Byte>, off: nat)
    requires Terminated(s) && off < |s|
    ensures StringAt(s + t, off) == StringAt(s, off)
    decreases |s| - off
  {
    if off < |s| - 1 { StringAtAppend(s, t, off + 1); }
  }

  lemma {:induction false} StringAtNew(s: seq<Byte>, name: CString, k: nat)
    requires k <= |name|
    ensures StringAt(s + name + [0], |s| + k) == name[k..]
    decreases |name| - k
  {
    if k < |name| {
      StringAtNew(s, name, k + 1);
      assert (s + name + [0])[|s| + k] == name[k];
    }
  }

  function View(data: seq<Sym>, strings: seq<Byte>): (v: seq<Entry>)
    requires forall i :: 0 <= i < |data| ==> 0 <= data[i].name <= |strings|
    ensures |v| == |data|
  {
    seq(|data|, i requires 0 <= i < |data| =>
      var s := data[i]; Entry(StringAt(strings, s.name), s.value, s.size, s.info, s.other, s.shndx))
  }

  /** Names keep their meaning when the string table and the symbol array grow. */
  lemma ViewAppend(data: seq<Sym>, strings: seq<Byte>, more: seq<Byte>, s: Sym)
    requires Terminated(strings)
    requires forall i :: 0 <= i < |data| ==> 0 <= data[i].name < |strings|
    requires 0 <= s.name <= |strings + more|
    ensures View(data + [s], strings + more) == View(data, strings)
      + [Entry(StringAt(strings + more, s.name), s.value, s.size, s.info, s.other, s.shndx)]
  {
    forall i | 0 <= i < |data|
      ensures StringAt(strings + more, data[i].name) == StringAt(strings, data[i].name)
    {
      StringAtAppend(strings, more, data[i].name);
    }
  }

  /** What `add_elf_sym` is asked to enter; a symbol without a name is local. */
  datatype Request = Request(name: seq<Byte>, value: int, size: int, info: InfoByte, shndx: int)

  function EntryOf(r: Request): Entry {
    Entry(r.name, r.value, r.size, r.info, 0, r.shndx)
  }

  datatype Added = Added(v: seq<Entry>, index: nat) | DefinedTwice

  /** The rule of `add_elf_sym` on the symbol sequence. */
  function Add(v: seq<Entry>, r: Request, dynamic: bool): Added {
    var i := Linear(v, r.name, |v|);
    if Bind(r.info) == STB_LOCAL || i == 0 then Added(v + [EntryOf(r)], |v|)
    else
      var e := v[i];
      var patched := v[i := EntryOf(r).(other := e.other)];
      if e.shndx == SHN_UNDEF then Added(patched, i)
      else if r.shndx == SHN_UNDEF then Added(v, i)
      else if Bind(r.info) == STB_GLOBAL && Bind(e.info) == STB_WEAK then Added(patched, i)
      else if Bind(r.info) == STB_WEAK && Bind(e.info) == STB_GLOBAL then Added(v, i)
      else if dynamic then Added(v, i)
      else DefinedTwice
  }

  /** A patched entry stays in its bucket, so the index stays right. */
  lemma {:induction false} PrevPatch(v: seq<Entry>, i: nat, e: Entry, nb: nat, h: nat, k: nat)
    requires nb > 0 && i < |v| && k <= |v|
    requires e.name == v[i].name && NonLocal(e) == NonLocal(v[i])
    ensures Prev(v[i := e], nb, h, k) == Prev(v, nb, h, k)
  {
    if k > 0 { PrevPatch(v, i, e, nb, h, k - 1); }
  }

  lemma IndexPatch(hash: seq<int>, v: seq<Entry>, i: nat, e: Entry)
    requires Indexes(hash, v) && i < |v|
    requires e.name == v[i].name && NonLocal(e) == NonLocal(v[i])
    ensures Indexes(hash, v[i := e])
  {
    hide Bucket, Prev;
    var w, nb: nat := v[i := e], hash[0];
    forall h | 0 <= h < nb ensures hash[2 + h] == Prev(w, nb, h, |w|) {
      PrevPatch(v, i, e, nb, h, |v|);
    }
    forall j | 0 <= j < |w| ensures hash[2 + nb + j] == Chain(w, nb, j) {
      PrevPatch(v, i, e, nb, Bucket(v[j].name, nb), j);
      assert hash[2 + nb + j] == Chain(v, nb, j);
    }
  }

  lemma {:induction false} CountPatch(v: seq<Entry>, i: nat, e: Entry)
    requires i < |v| && NonLocal(e) == NonLocal(v[i])
    ensures CountNonLocal(v[i := e]) == CountNonLocal(v)
  {
    var n := |v| - 1;
    if i < n {
      assert v[i := e][..n] == v[..n][i := e];
      CountPatch(v[..n], i, e);
    } else {
      assert v[i := e][..n] == v[..n];
    }
  }

  class SymbolTable {
    var data: seq<Sym>
    var strings: seq<Byte>
    var hash: seq<int>
    var hasHash: bool
    var hashed: nat
    const dynamic: bool

    ghost predicate Names()
      reads this
    {
      && Terminated(strings)
      && (forall i :: 0 <= i < |data| ==> 0 <= data[i].name < |strings|)
    }

    ghost function Entries(): seq<Entry>
      requires Names()
      reads this
    {
      View(data, strings)
    }

    /** The index agrees with the records, and buckets are half as many as hashed symbols at worst. */
    ghost predicate Valid()
      reads this
      ensures Valid() ==> Names()
    {
      && Names() && |data| > 0 && !NonLocal(Entries()[0])
      && (hasHash ==> Indexes(hash, Entries()) && hashed <= 2 * hash[0])
      && hashed == (if hasHash then CountNonLocal(Entries()) else 0)
    }

    method PutElfStr(s: CString) returns (offset: nat)
      modifies this`strings
      ensures offset == |old(strings)| && strings == old(strings) + s + [0]
    {
      offset := |strings|;
      strings := strings + s + [0];
    }

    /** Fills the buckets and the chains again, for a new number of buckets. */
    method RebuildHash(nb: nat)
      requires nb > 0 && Names() && |data| > 0 && !NonLocal(Entries()[0])
      modifies this`hash
      ensures Indexes(hash, Entries()) && hash[0] == nb
    {
      hide Prev, Bucket, StringAt, Hash;
      ghost var v := Entries();
      var n := |data|;
      hash := seq(2 + nb + n, j => 0);
      hash := hash[0 := nb];
      hash := hash[1 := n];
      var ptr := 2 + nb + 1;
      var i := 1;
      FirstPrev(v, nb);
      while i < n
        invariant 1 <= i <= n && ptr == 2 + nb + i
        invariant |hash| == 2 + nb + n && hash[0] == nb && hash[1] == n
        invariant Buckets(v, hash, nb, i) && Chains(v, hash, nb, i)
      {
        ghost var before := hash;
        if Bind(data[i].info) != STB_LOCAL {
          var h := ElfHash(StringAt(strings, data[i].name));
          var b := (h as nat) % nb;
          BucketOf(v[i].name, nb, b);
          hash := hash[ptr := hash[2 + b]];
          hash := hash[2 + b := i];
        } else {
          hash := hash[ptr := 0];
        }
        RebuildStep(v, before, hash, nb, i);
        ptr := ptr + 1;
        i := i + 1;
      }
    }

    /** Appends a symbol; a symbol that is not local has a name and enters the index. */
    method PutElfSym(value: int, size: int, info: InfoByte, other: int, shndx: int, name: Option<CString>)
      returns (index: nat)
      requires Valid() && (Bind(info) != STB_LOCAL ==> name.Some?)
      modifies this`data, this`strings, this`hash, this`hashed
      ensures Valid() && index == old(|data|)
      ensures Entries() == old(Entries())
        + [Entry(if name.Some? then name.value else [], value, size, info, other, shndx)]
    {
      hide Prev, Bucket, StringAt, Hash, CountNonLocal, Linked, View;
      ghost var v := Entries();
      var nameOffset := 0;
      if name.Some? {
        nameOffset := PutElfStr(name.value);
      }
      NewName(old(strings), strings, name, nameOffset);
      var sym := Sym(nameOffset, value, size, info, other, shndx);
      ViewAppend(data, old(strings), strings[|old(strings)|..], sym);
      ghost var e := Entry(if name.Some? then name.value else [], value, size, info, other, shndx);
      assert old(strings) + strings[|old(strings)|..] == strings;
      index := |data|;
      data := data + [sym];
      assert Entries() == v + [e];
      CountAppend(v, e);
      if hasHash {
        hash := hash + [0];
        if Bind(info) != STB_LOCAL {
          var nbuckets := hash[0];
          var h := ElfHash(name.value);
          var b := (h as nat) % nbuckets;
          BucketOf(name.value, nbuckets, b);
          hash := hash[|hash| - 1 := hash[2 + b]];
          hash := hash[2 + b := index];
          hash := hash[1 := hash[1] + 1];
          LinkedIntro(old(hash), e, index, hash);
          IndexAppend(old(hash), v, e, hash);
          hashed := hashed + 1;
          if hashed > 2 * nbuckets {
            RebuildHash(2 * nbuckets);
          }
        } else {
          hash := hash[1 := hash[1] + 1];
          LinkedIntro(old(hash), e, index, hash);
          IndexAppend(old(hash), v, e, hash);
        }
      }
    }

    /** Follows one chain: the answer is that of a backward search of the whole table. */
    method FindElfSym(name: seq<Byte>) returns (index: nat)
      requires Valid()
      ensures index == if hasHash then Linear(Entries(), name, |data|) else 0
    {
      hide Prev, Bucket, StringAt, Hash, CountNonLocal, Linear;
      if !hasHash {
        return 0;
      }
      ghost var v := Entries();
      var nbuckets := hash[0];
      var h := ElfHash(name);
      var b := (h as nat) % nbuckets;
      BucketOf(name, nbuckets, b);
      assert hash[2 + b] == Prev(v, nbuckets, b, |v|);
      index := hash[2 + b];
      ghost var k: nat := |data|;
      LinearSkips(v, nbuckets, name, k);
      while index != 0
        invariant index < k <= |v| || (index == 0 && k <= |v|)
        invariant index == Prev(v, nbuckets, b, k)
        invariant Linear(v, name, |v|) == if index == 0 then 0 else Linear(v, name, index + 1)
        decreases index
      {
        PrevIn(v, nbuckets, b, k);
        LinearUnfold(v, name, index + 1);
        if StringAt(strings, data[index].name) == name {
          return index;
        }
        k := index;
        assert hash[2 + nbuckets + index] == Chain(v, nbuckets, index);
        LinearSkips(v, nbuckets, name, k);
        index := hash[2 + nbuckets + index];
      }
    }

    /** Enters a symbol or merges it with the one of that name; the program stops on a clash. */
    method AddElfSym(value: int, size: int, info: InfoByte, shndx: int, name: CString) returns (result: Option<nat>)
      requires Valid() && hasHash
      modifies this`data, this`strings, this`hash, this`hashed
      ensures Valid()
      ensures var a := Add(old(Entries()), Request(name, value, size, info, shndx), dynamic);
        && result == (if a.Added? then Some(a.index) else None)
        && Entries() == (if a.Added? then a.v else old(Entries()))
    {
      hide Prev, Bucket, StringAt, Hash, CountNonLocal, Linear, Indexes;
      var bind, typ := Bind(info), Type(info);
      ghost var v, r := Entries(), Request(name, value, size, info, shndx);
      var index := 0;
      if bind != STB_LOCAL {
        index := FindElfSym(name);
      }
      if index == 0 {
        index := PutElfSym(value, size, Info(bind, typ), 0, shndx, Some(name));
        return Some(index);
      }
      var sym := data[index];
      var patch := sym.shndx == SHN_UNDEF;
      if sym.shndx != SHN_UNDEF && shndx != SHN_UNDEF {
        var oldBind := Bind(sym.info);
        if bind == STB_GLOBAL && oldBind == STB_WEAK {
          patch := true;
        } else if bind == STB_WEAK && oldBind == STB_GLOBAL {
        } else if !dynamic {
          return None;
        }
      }
      if patch {
        data := data[index := sym.(info := Info(bind, typ), shndx := shndx, value := value, size := size)];
        var e := EntryOf(r).(other := v[index].other);
        assert Entries() == v[index := e];
        IndexPatch(hash, v, index, e);
        CountPatch(v, index, e);
      }
      result := Some(index);
    }

    /** A table with the null symbol and one bucket. */
    constructor (dyn: bool)
      ensures Valid() && hasHash && dynamic == dyn
      ensures Entries() == [Entry([], 0, 0, 0, 0, 0)]
    {
      dynamic := dyn;
      data := [Sym(0, 0, 0, 0, 0, 0)];
      strings := [0];
      hash := [1, 1, 0, 0];
      hasHash := true;
      hashed := 0;
      new;
      FirstPrev(Entries(), 1);
      assert Entries()[..0] == [];
    }
  }

  lemma NewName(strings: seq<Byte>, strings': seq<Byte>, name: Option<CString>, offset: nat)
    requires Terminated(strings)
    requires strings' == if name.Some? then strings + name.value + [0] else strings
    requires offset == if name.Some? then |strings| else 0
    ensures Terminated(strings') && offset < |strings'|
    ensures StringAt(strings', offset) == if name.Some? then name.value else []
    ensures |strings| <= |strings'| && strings'[..|strings|] == strings
  {
    if name.Some? { StringAtNew(strings, name.value, 0); }
  }

  lemma CountAppend(v: seq<Entry>, e: Entry)
    ensures CountNonLocal(v + [e]) == CountNonLocal(v) + if NonLocal(e) then 1 else 0
  {
    assert (v + [e])[..|v|] == v;
  }

  lemma LinkedIntro(hash: seq<int>, e: Entry, index: int, hash': seq<int>)
    requires |hash| > 2 && 0 < hash[0] <= |hash| - 2
    requires var b := Bucket(e.name, hash[0]); var h := hash + [0];
      hash' == if NonLocal(e) then h[|hash| := h[2 + b]][2 + b := index][1 := h[1] + 1] else h[1 := h[1] + 1]
    ensures Linked(hash, e, index, hash')
  {
  }

  /** What the head of a bucket is. */
  lemma {:induction false} PrevIn(v: seq<Entry>, nb: nat, h: nat, k: nat)
    requires nb > 0 && k <= |v| && Prev(v, nb, h, k) > 0
    ensures var i := Prev(v, nb, h, k); i < k && NonLocal(v[i]) && Bucket(v[i].name, nb) == h
  {
    if !(NonLocal(v[k - 1]) && Bucket(v[k - 1].name, nb) == h) { PrevIn(v, nb, h, k - 1); }
  }

  lemma LinearUnfold(v: seq<Entry>, name: seq<Byte>, k: nat)
    requires 0 < k <= |v|
    ensures Linear(v, name, k) == if NonLocal(v[k - 1]) && v[k - 1].name == name then k - 1 else Linear(v, name, k - 1)
  {
  }

  lemma BucketOf(name: seq<Byte>, nb: nat, b: int)
    requires nb > 0 && b == (Hash(name) as nat) % nb
    ensures b == Bucket(name, nb)
  {
  }

  lemma FirstPrev(v: seq<Entry>, nb: nat)
    requires nb > 0 && |v| > 0 && !NonLocal(v[0])
    ensures forall h :: Prev(v, nb, h, 1) == 0
    ensures Chain(v, nb, 0) == 0
  {
  }

  lemma RebuildStep(v: seq<Entry>, hash: seq<int>, hash': seq<int>, nb: nat, i: nat)
    requires nb > 0 && i < |v| && |hash| == 2 + nb + |v|
    requires Buckets(v, hash, nb, i) && Chains(v, hash, nb, i)
    requires var b := Bucket(v[i].name, nb);
      hash' == if NonLocal(v[i]) then hash[2 + nb + i := hash[2 + b]][2 + b := i] else hash[2 + nb + i := 0]
    ensures Buckets(v, hash', nb, i + 1) && Chains(v, hash', nb, i + 1)
  {
    hide Bucket, Prev;
    var k := i + 1;
    forall h | 0 <= h < nb ensures hash'[2 + h] == Prev(v, nb, h, k) {
      PrevUnfold(v, nb, h, k);
    }
    forall j | 0 <= j <= i ensures hash'[2 + nb + j] == Chain(v, nb, j) {
      if j < i { assert hash'[2 + nb + j] == hash[2 + nb + j]; }
    }
  }

  lemma PrevUnfold(v: seq<Entry>, nb: nat, h: nat, k: nat)
    requires nb > 0 && 0 < k <= |v|
    ensures Prev(v, nb, h, k) == if NonLocal(v[k - 1]) && Bucket(v[k - 1].name, nb) == h then k - 1 else Prev(v, nb, h, k - 1)
  {
  }
}

/**
  Whole sequences of `add_elf_sym` on a table other than the dynamic one: which sequences
  stop with an error, and what each name denotes after the others.
 */
module ElfResolution {
  import opened Options
  import opened ElfEntry
  import opened ElfSymbolTable

  const NULL_SYMBOL := Entry([], 0, 0, 0, 0, 0)

  function AddAll(rs: seq<Request>): Option<seq<Entry>> {
    if rs == [] then Some([NULL_SYMBOL])
    else
      var before := AddAll(rs[..|rs| - 1]);
      if before.None? then None
      else
        var a := Add(before.value, rs[|rs| - 1], false);
        if a.Added? then Some(a.v) else None
  }

  // Bindings as in the ELF specification: 0 local, 1 global, 2 weak; section number 0 is undefined.

  predicate Global(r: Request) { r.info / 16 != 0 }

  predicate Defines(r: Request, name: seq<Byte>) {
    Global(r) && r.name == name && r.shndx != 0
  }

  predicate Strong(r: Request) { r.info / 16 == 1 }

  ghost predicate Defined(rs: seq<Request>, name: seq<Byte>) {
    exists k :: 0 <= k < |rs| && Defines(rs[k], name)
  }

  ghost predicate DefinedStrong(rs: seq<Request>, name: seq<Byte>) {
    exists k :: 0 <= k < |rs| && Defines(rs[k], name) && Strong(rs[k])
  }

  /** The entry is one of the requests, the strong definition if there is one, else a definition if there is one. */
  ghost predicate Justified(e: Entry, rs: seq<Request>) {
    && (exists k :: 0 <= k < |rs| && Global(rs[k]) && EntryOf(rs[k]) == e)
    && (DefinedStrong(rs, e.name) ==> e.shndx != 0 && e.info / 16 == 1)
    && (Defined(rs, e.name) ==> e.shndx != 0)
  }

  ghost predicate OneEntryEach(v: seq<Entry>) {
    forall i, j :: 0 <= i < j < |v| && NonLocal(v[i]) && NonLocal(v[j]) ==> v[i].name != v[j].name
  }

  ghost predicate Resolved(v: seq<Entry>, rs: seq<Request>) {
    && |v| > 0 && v[0] == NULL_SYMBOL
    && OneEntryEach(v)
    && (forall i :: 0 <= i < |v| && NonLocal(v[i]) ==> Justified(v[i], rs))
    && (forall k :: 0 <= k < |rs| && Global(rs[k]) ==> Linear(v, rs[k].name, |v|) > 0)
  }

  /** A search that comes back empty has seen every non-local entry. */
  lemma {:induction false} LinearFinds(v: seq<Entry>, name: seq<Byte>, k: nat, i: nat)
    requires i < k <= |v| && 0 < i && NonLocal(v[i]) && v[i].name == name
    ensures i <= Linear(v, name, k)
  {
    if i < k - 1 && !(NonLocal(v[k - 1]) && v[k - 1].name == name) { LinearFinds(v, name, k - 1, i); }
  }

  lemma DefinedSplit(rs: seq<Request>, r: Request, name: seq<Byte>)
    ensures Defined(rs + [r], name) <==> Defined(rs, name) || Defines(r, name)
    ensures DefinedStrong(rs + [r], name) <==> DefinedStrong(rs, name) || (Defines(r, name) && Strong(r))
  {
    var after := rs + [r];
    assert after[|rs|] == r;
    assert forall k :: 0 <= k < |rs| ==> after[k] == rs[k];
  }

  lemma JustifiedAfter(e: Entry, rs: seq<Request>, r: Request)
    requires Justified(e, rs)
    requires Defines(r, e.name) ==> e.shndx != SHN_UNDEF && (Strong(r) ==> Bind(e.info) == STB_GLOBAL)
    ensures Justified(e, rs + [r])
  {
    var k :| 0 <= k < |rs| && Global(rs[k]) && EntryOf(rs[k]) == e;
    assert (rs + [r])[k] == rs[k];
    DefinedSplit(rs, r, e.name);
  }

  /** The request itself is a just entry if nothing before it takes precedence. */
  lemma JustifiedNew(rs: seq<Request>, r: Request)
    requires Global(r)
    requires r.shndx == SHN_UNDEF ==> !Defined(rs, r.name)
    requires DefinedStrong(rs, r.name) ==> r.shndx != SHN_UNDEF && Strong(r)
    ensures Justified(EntryOf(r), rs + [r])
  {
    assert (rs + [r])[|rs|] == r;
    DefinedSplit(rs, r, r.name);
  }

  lemma LinearStays(v: seq<Entry>, w: seq<Entry>, name: seq<Byte>)
    requires |v| <= |w| && Linear(v, name, |v|) > 0
    requires forall i :: 0 <= i < |v| ==> w[i].name == v[i].name && NonLocal(w[i]) == NonLocal(v[i])
    ensures Linear(w, name, |w|) > 0
  {
    LinearFinds(w, name, |w|, Linear(v, name, |v|));
  }

  lemma ResolvedStep(v: seq<Entry>, rs: seq<Request>, r: Request)
    requires Resolved(v, rs) && Add(v, r, false).Added?
    ensures Resolved(Add(v, r, false).v, rs + [r])
  {
    hide Justified, Linear;
    var w := Add(v, r, false).v;
    var after := rs + [r];
    var i := Linear(v, r.name, |v|);
    AddShape(v, r);
    forall j | 0 <= j < |w| && NonLocal(w[j]) ensures Justified(w[j], after) {
      StepJustified(v, rs, r, j);
    }
    assert OneEntryEach(w) by {
      if w == v + [EntryOf(r)] && Global(r) {
        forall j | 0 <= j < |v| && NonLocal(v[j]) ensures v[j].name != r.name {
          if v[j].name == r.name { LinearFinds(v, r.name, |v|, j); }
        }
      }
    }
    forall k | 0 <= k < |after| && Global(after[k]) ensures Linear(w, after[k].name, |w|) > 0 {
      if k < |rs| || i > 0 {
        LinearStays(v, w, after[k].name);
      } else {
        LinearFinds(w, r.name, |w|, |v|);
      }
    }
  }

  /** An addition appends, patches one entry in its place, or leaves the table alone. */
  lemma AddShape(v: seq<Entry>, r: Request)
    requires Add(v, r, false).Added?
    ensures var w := Add(v, r, false).v; var i := Linear(v, r.name, |v|);
      if !Global(r) || i == 0 then w == v + [EntryOf(r)]
      else w == v || w == v[i := EntryOf(r).(other := v[i].other)]
  {
  }

  lemma OtherIsZero(e: Entry, rs: seq<Request>)
    requires Justified(e, rs)
    ensures e.other == 0
  {
  }

  /** Every entry is justified by the requests so far, whichever branch `add_elf_sym` takes. */
  lemma StepJustified(v: seq<Entry>, rs: seq<Request>, r: Request, j: nat)
    requires Resolved(v, rs) && Add(v, r, false).Added?
    requires var w := Add(v, r, false).v; j < |w| && NonLocal(w[j])
    ensures Justified(Add(v, r, false).v[j], rs + [r])
  {
    hide Linear;
    var w := Add(v, r, false).v;
    var i := Linear(v, r.name, |v|);
    AddShape(v, r);
    if j < |v| && w[j] == v[j] {
      if Global(r) && v[j].name == r.name {
        LinearFinds(v, r.name, |v|, j);
      }
      JustifiedAfter(v[j], rs, r);
    } else if j < |v| {
      OtherIsZero(v[i], rs);
      JustifiedNew(rs, r);
    } else {
      UnknownName(v, rs, r);
      JustifiedNew(rs, r);
    }
  }

  lemma UnknownName(v: seq<Entry>, rs: seq<Request>, r: Request)
    requires Resolved(v, rs) && Linear(v, r.name, |v|) == 0
    ensures !Defined(rs, r.name) && !DefinedStrong(rs, r.name)
  {
  }

  /** After any error-free sequence the table is resolved: the invariant of whole runs. */
  lemma {:induction false} AllResolved(rs: seq<Request>)
    requires AddAll(rs).Some?
    ensures Resolved(AddAll(rs).value, rs)
  {
    if rs != [] {
      var before := rs[..|rs| - 1];
      AllResolved(before);
      ResolvedStep(AddAll(before).value, before, rs[|rs| - 1]);
      assert before + [rs[|rs| - 1]] == rs;
    }
  }

  /** The definition a request clashes with, as the sequence before it tells. */
  ghost predicate Clash(before: seq<Request>, r: Request) {
    && Defines(r, r.name)
    && if Strong(r) then exists k :: 0 <= k < |before| && Defines(before[k], r.name) && before[k].info / 16 != 2
       else if r.info / 16 == 2 then Defined(before, r.name) && !DefinedStrong(before, r.name)
       else Defined(before, r.name)
  }

  /** Which request stops the run: `add_elf_sym` sees a clash in the table exactly when there is one in the sequence. */
  lemma StopsExactlyOnClash(rs: seq<Request>, r: Request)
    requires AddAll(rs).Some?
    ensures AddAll(rs + [r]).None? <==> Clash(rs, r)
    decreases |rs|, 2
  {
    hide Linear;
    AllResolved(rs);
    var v := AddAll(rs).value;
    assert (rs + [r])[..|rs|] == rs;
    var i := Linear(v, r.name, |v|);
    if Defines(r, r.name) {
      if i == 0 {
        UnknownName(v, rs, r);
      } else {
        EntryDefined(v[i], rs);
        if v[i].shndx != SHN_UNDEF {
          var m :| 0 <= m < |rs| && Defines(rs[m], r.name) && EntryOf(rs[m]) == v[i];
          forall k | 0 <= k < |rs| && k != m && Defines(rs[k], r.name) && !DefinedStrong(rs, r.name) ensures false {
            DefinitionUnique(rs, r.name, if k < m then k else m, if k < m then m else k);
          }
        }
      }
    }
  }

  /** What the entry of a name tells about the requests for it. */
  lemma EntryDefined(e: Entry, rs: seq<Request>)
    requires Justified(e, rs)
    ensures e.shndx != SHN_UNDEF <==> Defined(rs, e.name)
    ensures e.shndx != SHN_UNDEF && Bind(e.info) == STB_GLOBAL <==> DefinedStrong(rs, e.name)
    ensures e.shndx != SHN_UNDEF ==> exists k :: 0 <= k < |rs| && Defines(rs[k], e.name) && EntryOf(rs[k]) == e
  {
    var k :| 0 <= k < |rs| && Global(rs[k]) && EntryOf(rs[k]) == e;
    assert e.shndx != SHN_UNDEF ==> Defines(rs[k], e.name);
  }

  /** The exact condition for a run without error. */
  lemma {:induction false} ErrorFreeExactly(rs: seq<Request>)
    ensures AddAll(rs).Some? <==> forall k :: 0 <= k < |rs| ==> !Clash(rs[..k], rs[k])
    decreases |rs|, 0
  {
    if rs != [] {
      var before, r := rs[..|rs| - 1], rs[|rs| - 1];
      assert before + [r] == rs;
      ErrorFreeExactly(before);
      forall k | 0 <= k < |before| ensures rs[..k] == before[..k] && rs[k] == before[k] {
      }
      if AddAll(before).Some? {
        StopsExactlyOnClash(before, r);
      }
    }
  }

  /** In a run without error a name has at most one strong definition, and at most one at all if none is strong. */
  lemma DefinitionUnique(rs: seq<Request>, name: seq<Byte>, i: nat, j: nat)
    requires AddAll(rs).Some? && i < j < |rs|
    requires Defines(rs[i], name) && Defines(rs[j], name)
    ensures !(Strong(rs[i]) && Strong(rs[j]))
    ensures DefinedStrong(rs, name)
    decreases |rs|, 1
  {
    ErrorFreeExactly(rs);
    assert !Clash(rs[..j], rs[j]);
    assert rs[..j][i] == rs[i];
    if !Strong(rs[j]) {
      assert Defined(rs[..j], name);
      assert DefinedStrong(rs[..j], name);
      var k :| 0 <= k < j && Defines(rs[..j][k], name) && Strong(rs[..j][k]);
      assert rs[k] == rs[..j][k];
    }
  }

  /** What a name denotes after the run: the strong definition, else the only definition, else nothing. */
  lemma Denotes(rs: seq<Request>, k: nat)
    requires AddAll(rs).Some? && k < |rs| && Global(rs[k])
    ensures var v := AddAll(rs).value; var name := rs[k].name; var i := Linear(v, name, |v|);
      && i > 0
      && (forall j :: 0 <= j < |v| && NonLocal(v[j]) && v[j].name == name ==> j == i)
      && (Defines(rs[k], name) && (Strong(rs[k]) || !DefinedStrong(rs, name)) ==> v[i] == EntryOf(rs[k]))
      && (!Defined(rs, name) ==> v[i].shndx == 0)
  {
    hide Linear, AddAll;
    AllResolved(rs);
    var v, name := AddAll(rs).value, rs[k].name;
    var i := Linear(v, name, |v|);
    EntryDefined(v[i], rs);
    if Defines(rs[k], name) && (Strong(rs[k]) || !DefinedStrong(rs, name)) {
      var m :| 0 <= m < |rs| && Defines(rs[m], name) && EntryOf(rs[m]) == v[i];
      if m < k {
        DefinitionUnique(rs, name, m, k);
      } else if k < m {
        DefinitionUnique(rs, name, k, m);
      }
    }
  }

  lemma SameMembers(rs: seq<Request>, qs: seq<Request>, name: seq<Byte>)
    requires multiset(rs) == multiset(qs)
    ensures forall r :: r in rs <==> r in qs
    ensures Defined(rs, name) <==> Defined(qs, name)
    ensures DefinedStrong(rs, name) <==> DefinedStrong(qs, name)
  {
    forall r ensures r in rs <==> r in qs {
      assert r in multiset(rs) <==> r in multiset(qs);
    }
    DefinedMembers(rs, name);
    DefinedMembers(qs, name);
  }

  lemma DefinedMembers(rs: seq<Request>, name: seq<Byte>)
    ensures Defined(rs, name) <==> exists r :: r in rs && Defines(r, name)
    ensures DefinedStrong(rs, name) <==> exists r :: r in rs && Defines(r, name) && Strong(r)
  {
  }

  /** The order of the requests does not matter to what a defined name denotes. */
  lemma OrderIrrelevant(rs: seq<Request>, qs: seq<Request>, name: seq<Byte>)
    requires multiset(rs) == multiset(qs) && AddAll(rs).Some? && AddAll(qs).Some?
    requires Defined(rs, name)
    ensures var v, w := AddAll(rs).value, AddAll(qs).value;
      var i, j := Linear(v, name, |v|), Linear(w, name, |w|);
      i > 0 && j > 0 && v[i] == w[j]
  {
    hide Linear, AddAll;
    SameMembers(rs, qs, name);
    var k :| 0 <= k < |rs| && Defines(rs[k], name) && (DefinedStrong(rs, name) ==> Strong(rs[k]));
    assert rs[k] in qs;
    var m :| 0 <= m < |qs| && qs[m] == rs[k];
    Denotes(rs, k);
    Denotes(qs, m);
  }

  /** Whether the run stops does depend on the order: a strong definition hides any number of later weak ones. */
  lemma OrderDecidesError(name: seq<Byte>)
    ensures var s := Request(name, 1, 0, 16, 1); var w := Request(name, 2, 0, 32, 1);
      AddAll([s, w, w]).Some? && AddAll([w, w, s]).None?
  {
    var s, w := Request(name, 1, 0, 16, 1), Request(name, 2, 0, 32, 1);
    ErrorFreeExactly([s, w, w]);
    ErrorFreeExactly([w, w, s]);
    var a, b := [s, w, w], [w, w, s];
    assert a[..1] == [s] && a[..2] == [s, w] && a[..0] == [] && b[..1] == [w];
    assert Defines([s][0], name) && Strong([s][0]) && Defines([s, w][0], name) && Strong([s, w][0]);
    assert !Clash(a[..0], a[0]) && !Clash(a[..1], a[1]) && !Clash(a[..2], a[2]);
    assert Defines([w][0], name);
    assert Clash(b[..1], b[1]);
  }
}
