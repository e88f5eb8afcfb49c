/**
  Memory as the linkers see it: bytes, and little-endian 32-bit words at any offset.
 */
module Memory {

  type Octet = x: nat | x < 256

  const WORD: nat := 0x1_0000_0000

  type Word32 = x: nat | x < WORD

  /** Arithmetic of `unsigned long` on the target. */
  function Mod32(x: int): Word32 { x % WORD }

  function LittleEndian(b0: int, b1: int, b2: int, b3: int): int {
    b0 + 0x100 * b1 + 0x1_0000 * b2 + 0x100_0000 * b3
  }

  function Get32(s: seq<Octet>, off: nat): Word32
    requires off + 4 <= |s|
  {
    LittleEndian(s[off], s[off + 1], s[off + 2], s[off + 3])
  }

  function Bytes(v: Word32): (b: seq<Octet>)
    ensures |b| == 4
  {
    [v % 256, v / 256 % 256, v / 0x1_0000 % 256, v / 0x100_0000]
  }

  function Put32(s: seq<Octet>, off: nat, v: Word32): (t: seq<Octet>)
    requires off + 4 <= |s|
    ensures |t| == |s|
  {
    s[..off] + Bytes(v) + s[off + 4..]
  }

  lemma BytesValue(v: Word32)
    ensures Get32(Bytes(v), 0) == v
  {
  }

  /** What is stored is what is read, and every other byte stays. */
  lemma PutGet(s: seq<Octet>, off: nat, v: Word32)
    requires off + 4 <= |s|
    ensures Get32(Put32(s, off, v), off) == v
    ensures forall i :: 0 <= i < |s| && !(off <= i < off + 4) ==> Put32(s, off, v)[i] == s[i]
  {
    BytesValue(v);
    var t := Put32(s, off, v);
    assert t[off] == Bytes(v)[0] && t[off + 1] == Bytes(v)[1] && t[off + 2] == Bytes(v)[2] && t[off + 3] == Bytes(v)[3];
  }

  lemma PutGetOther(s: seq<Octet>, off: nat, v: Word32, other: nat)
    requires off + 4 <= |s| && other + 4 <= |s|
    requires other + 4 <= off || off + 4 <= other
    ensures Get32(Put32(s, off, v), other) == Get32(s, other)
  {
    PutGet(s, off, v);
  }

  /** The byte at the lowest address is the least significant one, and memory outside the word stays. */
  lemma StoredBytes(s: seq<Octet>, off: nat, v: Word32)
    requires off + 4 <= |s|
    ensures var t := Put32(s, off, v);
      && t[off] == v % 0x100 && t[off + 1] == v / 0x100 % 0x100 && t[off + 2] == v / 0x1_0000 % 0x100 && t[off + 3] == v / 0x100_0000
      && v == t[off] as int + t[off + 1] as int * 0x100 + t[off + 2] as int * 0x1_0000 + t[off + 3] as int * 0x100_0000
      && Get32(t, off) == v
  {
    PutGet(s, off, v);
    var t := Put32(s, off, v);
    assert t[off] == Bytes(v)[0] && t[off + 1] == Bytes(v)[1] && t[off + 2] == Bytes(v)[2] && t[off + 3] == Bytes(v)[3];
  }

  /** Two memories that agree on the bytes of a word read the same word there. */
  lemma GetAgrees(s: seq<Octet>, t: seq<Octet>, off: nat)
    requires off + 4 <= |s| && off + 4 <= |t|
    requires forall i :: off <= i < off + 4 ==> s[i] == t[i]
    ensures Get32(s, off) == Get32(t, off)
  {
  }

  /** Two memories with the same word and the same other bytes are one. */
  lemma PutUnique(s: seq<Octet>, t: seq<Octet>, off: nat, v: Word32)
    requires off + 4 <= |s| == |t|
    requires forall i :: 0 <= i < |s| && !(off <= i < off + 4) ==> t[i] == s[i]
    requires Get32(t, off) == v
    ensures t == Put32(s, off, v)
  {
    BytesOfGet(t, off);
    assert t == t[..off] + t[off..off + 4] + t[off + 4..];
    assert t[..off] == s[..off] && t[off + 4..] == s[off + 4..];
  }

  lemma BytesOfGet(t: seq<Octet>, off: nat)
    requires off + 4 <= |t|
    ensures Bytes(Get32(t, off)) == t[off..off + 4]
  {
    hide LittleEndian;
    DigitsOf(t[off], t[off + 1], t[off + 2], t[off + 3]);
  }

  lemma DigitsOf(b0: Octet, b1: Octet, b2: Octet, b3: Octet)
    ensures var v := LittleEndian(b0, b1, b2, b3);
      v % 256 == b0 && v / 256 % 256 == b1 && v / 0x1_0000 % 256 == b2 && v / 0x100_0000 == b3
  {
    var v := LittleEndian(b0, b1, b2, b3);
    assert v / 256 == b1 + 256 * b2 + 0x1_0000 * b3;
    assert v / 0x1_0000 == b2 + 256 * b3;
  }

  method Store32(a: array<Octet>, off: nat, v: Word32)
    requires off + 4 <= a.Length
    modifies a
    ensures a[..] == Put32(old(a[..]), off, v)
  {
    ghost var before := a[..];
    a[off] := v % 256;
    a[off + 1] := v / 256 % 256;
    a[off + 2] := v / 0x1_0000 % 256;
    a[off + 3] := v / 0x100_0000;
    BytesValue(v);
    PutUnique(before, a[..], off, v);
  }

  method Load32(a: array<Octet>, off: nat) returns (v: Word32)
    requires off + 4 <= a.Length
    ensures v == Get32(a[..], off)
  {
    v := LittleEndian(a[off], a[off + 1], a[off + 2], a[off + 3]);
  }
}

/** Sequences of word updates at given places, the common shape of every relocation loop. */
module Edits {
  import opened Memory

  /** Add delta to the word at off, or overwrite it; or no update at all. */
  datatype Edit = Keep | Edit(off: nat, overwrite: bool, delta: int)

  predicate Fits(e: Edit, size: nat) { e.Edit? ==> e.off + 4 <= size }

  function EditedWord(e: Edit, w: Word32): Word32
    requires e.Edit?
  {
    Mod32((if e.overwrite then 0 else w) + e.delta)
  }

  function Apply(s: seq<Octet>, e: Edit): (t: seq<Octet>)
    requires Fits(e, |s|)
    ensures |t| == |s|
  {
    if e.Keep? then s else Put32(s, e.off, EditedWord(e, Get32(s, e.off)))
  }

  function ApplyAll(s: seq<Octet>, es: seq<Edit>): (t: seq<Octet>)
    requires forall i :: 0 <= i < |es| ==> Fits(es[i], |s|)
    ensures |t| == |s|
  {
    if es == [] then s else Apply(ApplyAll(s, es[..|es| - 1]), es[|es| - 1])
  }

  predicate Touches(e: Edit, off: nat) { e.Edit? && e.off < off + 4 && off < e.off + 4 }

  /** A word no edit touches keeps its value. */
  lemma {:induction false} UntouchedWord(s: seq<Octet>, es: seq<Edit>, off: nat)
    requires off + 4 <= |s|
    requires forall i :: 0 <= i < |es| ==> Fits(es[i], |s|) && !Touches(es[i], off)
    ensures Get32(ApplyAll(s, es), off) == Get32(s, off)
  {
    hide Get32, Put32;
    if es != [] {
      var e, before := es[|es| - 1], es[..|es| - 1];
      UntouchedWord(s, before, off);
      if e.Edit? {
        var now := ApplyAll(s, before);
        PutGetOther(now, e.off, EditedWord(e, Get32(now, e.off)), off);
      }
    }
  }

  lemma {:induction false} UntouchedByte(s: seq<Octet>, es: seq<Edit>, i: nat)
    requires i < |s|
    requires forall k :: 0 <= k < |es| ==> Fits(es[k], |s|) && (es[k].Edit? ==> !(es[k].off <= i < es[k].off + 4))
    ensures ApplyAll(s, es)[i] == s[i]
  {
    hide Get32, Put32;
    if es != [] {
      var e, before := es[|es| - 1], es[..|es| - 1];
      UntouchedByte(s, before, i);
      if e.Edit? {
        var now := ApplyAll(s, before);
        PutGet(now, e.off, EditedWord(e, Get32(now, e.off)));
      }
    }
  }

  /** A word that exactly one edit touches gets that edit, computed from the original contents. */
  lemma {:induction false} EditedOnce(s: seq<Octet>, es: seq<Edit>, k: nat)
    requires k < |es| && es[k].Edit?
    requires forall i :: 0 <= i < |es| ==> Fits(es[i], |s|)
    requires forall i :: 0 <= i < |es| && i != k ==> !Touches(es[i], es[k].off)
    ensures Get32(ApplyAll(s, es), es[k].off) == EditedWord(es[k], Get32(s, es[k].off))
  {
    hide Get32, Put32;
    var n := |es| - 1;
    var now := ApplyAll(s, es[..n]);
    var e := es[n];
    if e.Edit? {
      PutGet(now, e.off, EditedWord(e, Get32(now, e.off)));
    }
    if k == n {
      UntouchedWord(s, es[..n], e.off);
    } else {
      EditedOnce(s, es[..n], k);
      if e.Edit? {
        PutGetOther(now, e.off, EditedWord(e, Get32(now, e.off)), es[k].off);
      }
    }
  }

  lemma ApplySnoc(s: seq<Octet>, es: seq<Edit>, e: Edit)
    requires forall i :: 0 <= i < |es| ==> Fits(es[i], |s|)
    requires Fits(e, |s|)
    ensures ApplyAll(s, es + [e]) == Apply(ApplyAll(s, es), e)
  {
    assert (es + [e])[..|es|] == es;
  }
}
