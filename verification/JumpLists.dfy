/**
  The backpatched jumps of tcc_10/i386-gen.c. A jump whose target is not known yet has a
  4-byte hole in the code buffer; the hole holds the address of the next hole with the same
  target, 0 ends the list. Lists are extended at the head, concatenated by overwriting the
  terminator of one of them, and patched all at once.
 */
module JumpLists {
  import opened Options
  import opened Memory

  /** The list of holes that starts at t. */
  ghost predicate Threads(code: seq<Octet>, t: nat, holes: seq<nat>)
    decreases |holes|
  {
    if holes == [] then t == 0
    else t == holes[0] && t > 0 && t + 4 <= |code| && Threads(code, Get32(code, t), holes[1..])
  }

  lemma {:induction false} ThreadsUnique(code: seq<Octet>, t: nat, a: seq<nat>, b: seq<nat>)
    requires Threads(code, t, a) && Threads(code, t, b)
    ensures a == b
    decreases |a|
  {
    if a != [] && b != [] {
      ThreadsUnique(code, Get32(code, t), a[1..], b[1..]);
      assert a == [t] + a[1..] && b == [t] + b[1..];
    }
  }

  predicate SameWord(code: seq<Octet>, code': seq<Octet>, h: nat) {
    h + 4 <= |code| ==> h + 4 <= |code'| && Get32(code', h) == Get32(code, h)
  }

  /** A list survives when its own holes do. */
  lemma {:induction false} ThreadsFrame(code: seq<Octet>, code': seq<Octet>, t: nat, holes: seq<nat>)
    requires Threads(code, t, holes)
    requires forall h :: h in holes ==> SameWord(code, code', h)
    ensures Threads(code', t, holes)
    decreases |holes|
  {
    if holes != [] {
      assert t in holes && forall h :: h in holes[1..] ==> h in holes;
      ThreadsFrame(code, code', Get32(code, t), holes[1..]);
    }
  }

  lemma {:induction false} ThreadsInside(code: seq<Octet>, t: nat, holes: seq<nat>)
    requires Threads(code, t, holes)
    ensures forall h :: h in holes ==> 0 < h && h + 4 <= |code|
    decreases |holes|
  {
    if holes != [] {
      ThreadsInside(code, Get32(code, t), holes[1..]);
      assert holes == [t] + holes[1..];
    }
  }

  /** The jumps emitted so far: open lists by their heads, and the targets of the patched ones. */
  datatype Jumps = Jumps(lists: map<nat, seq<nat>>, landed: map<nat, int>, holes: set<nat>) {
    function List(t: nat): seq<nat> { if t in lists then lists[t] else [] }

    function Without(t: nat): map<nat, seq<nat>> { map u | u in lists && u != t :: lists[u] }

    predicate Open(t: nat) { t == 0 || t in lists }
  }

  predicate Apart(a: nat, b: nat) { a + 4 <= b || b + 4 <= a }

  predicate NoDuplicates(s: seq<nat>) { forall i, j :: 0 <= i < j < |s| ==> s[i] != s[j] }

  /** Each hole belongs to exactly one open list or is patched, and no two holes overlap. */
  ghost predicate Owned(j: Jumps) {
    && (forall a, b :: a in j.holes && b in j.holes && a != b ==> Apart(a, b))
    && (forall t :: t in j.lists ==> t != 0 && j.lists[t] != [] && j.lists[t][0] == t && NoDuplicates(j.lists[t]))
    && (forall t, h :: t in j.lists && h in j.lists[t] ==> h in j.holes && h !in j.landed)
    && (forall t, u, h :: t in j.lists && u in j.lists && h in j.lists[t] && h in j.lists[u] ==> t == u)
    && (forall h :: h in j.landed ==> h in j.holes)
    && (forall h :: h in j.holes ==> h in j.landed || Listed(j, h))
  }

  ghost predicate Listed(j: Jumps, h: nat) { exists t :: t in j.lists && h in j.lists[t] }

  /** The buffer holds these jumps: lists are threaded through it, patched jumps reach their targets. */
  ghost predicate Sound(code: seq<Octet>, j: Jumps) {
    && Owned(j)
    && (forall t :: t in j.lists ==> Threads(code, t, j.lists[t]))
    && (forall h :: h in j.holes ==> 0 < h && h + 4 <= |code|)
    && (forall h :: h in j.landed ==> Get32(code, h) == Mod32(j.landed[h] - h - 4))
  }

  /** A new hole at s in front of list t. */
  function Extended(j: Jumps, t: nat, s: nat): Jumps {
    Jumps(j.Without(t)[s := [s] + j.List(t)], j.landed, j.holes + {s})
  }

  /** List c continued by list t. */
  function Merged(j: Jumps, c: nat, t: nat): Jumps {
    if c == 0 then j
    else j.(lists := j.Without(t)[c := j.List(c) + j.List(t)])
  }

  /** All holes of list t jump to a. */
  function Patched(j: Jumps, t: nat, a: int): Jumps {
    Jumps(j.Without(t), j.landed + map h | h in j.List(t) :: a, j.holes)
  }

  lemma ExtendedOwned(j: Jumps, t: nat, s: nat)
    requires Owned(j) && j.Open(t) && s > 0
    requires forall h :: h in j.holes ==> h + 4 <= s
    ensures Owned(Extended(j, t, s))
  {
    var k := Extended(j, t, s);
    assert s !in j.holes;
    forall u | u in j.lists ensures u != s {
      assert j.lists[u][0] in j.lists[u];
    }
    assert NoDuplicates(k.lists[s]);
    forall h | h in k.holes ensures h in k.landed || Listed(k, h) {
      ExtendedAccounts(j, t, s, h);
    }
  }

  lemma ExtendedAccounts(j: Jumps, t: nat, s: nat, h: nat)
    requires h in j.holes + {s} && (h in j.holes ==> h in j.landed || Listed(j, h)) && s !in j.lists
    ensures h in j.landed || Listed(Extended(j, t, s), h)
  {
    var k := Extended(j, t, s);
    if h != s && h !in j.landed {
      var u :| u in j.lists && h in j.lists[u];
      var w := if u == t then s else u;
      assert w in k.lists && h in k.lists[w];
    } else if h == s {
      assert s in k.lists && h in k.lists[s];
    }
  }

  lemma ExtendedSound(code: seq<Octet>, j: Jumps, t: nat, s: nat, code': seq<Octet>)
    requires Sound(code, j) && j.Open(t)
    requires |code| <= s && 0 < s && s + 4 <= |code'| && code <= code' && Get32(code', s) == t
    ensures Sound(code', Extended(j, t, s))
  {
    hide Threads, Get32, Owned;
    ExtendedOwned(j, t, s) by { HolesBelow(code, j, s); }
    var k := Extended(j, t, s);
    GrownSound(code, j, code');
    forall u | u in k.lists ensures Threads(code', u, k.lists[u]) {
      if u == s {
        ThreadsCons(code', s, t, j.List(t));
      }
    }
  }

  lemma HolesBelow(code: seq<Octet>, j: Jumps, s: nat)
    requires Sound(code, j) && |code| <= s
    ensures forall h :: h in j.holes ==> h + 4 <= s
    ensures forall h :: h in j.landed ==> h in j.holes
    ensures Threads(code, 0, [])
  {
  }

  lemma ThreadsCons(code: seq<Octet>, s: nat, t: nat, holes: seq<nat>)
    requires 0 < s && s + 4 <= |code| && Get32(code, s) == t && Threads(code, t, holes)
    ensures Threads(code, s, [s] + holes)
  {
    assert ([s] + holes)[1..] == holes;
  }

  /** Code emitted after them leaves the jumps as they are. */
  lemma GrownSound(code: seq<Octet>, j: Jumps, code': seq<Octet>)
    requires Sound(code, j) && code <= code'
    ensures Sound(code', j)
  {
    forall h | h in j.holes ensures Get32(code', h) == Get32(code, h) {
      GetAgrees(code, code', h);
    }
    forall t | t in j.lists ensures Threads(code', t, j.lists[t]) {
      ThreadsFrame(code, code', t, j.lists[t]);
    }
  }

  lemma MergedOwned(j: Jumps, c: nat, t: nat)
    requires Owned(j) && j.Open(c) && j.Open(t) && (c == t ==> c == 0)
    ensures Owned(Merged(j, c, t))
  {
    var k := Merged(j, c, t);
    if c != 0 {
      forall x, y | 0 <= x < y < |k.lists[c]| ensures k.lists[c][x] != k.lists[c][y] {
        if x < |j.lists[c]| <= y {
          assert k.lists[c][x] in j.lists[c] && k.lists[c][y] in j.lists[t];
        }
      }
      forall h | h in k.holes ensures h in k.landed || Listed(k, h) {
        if h !in j.landed {
          var u :| u in j.lists && h in j.lists[u];
          assert h in k.lists[if u == t then c else u];
        }
      }
    }
  }

  /** Overwriting the terminator of a list appends another list to it. */
  lemma {:induction false} ThreadsAppend(code: seq<Octet>, code': seq<Octet>, c: nat, a: seq<nat>, t: nat, b: seq<nat>)
    requires a != [] && Threads(code, c, a) && Threads(code', t, b)
    requires forall h :: h in a[..|a| - 1] ==> SameWord(code, code', h)
    requires var last := a[|a| - 1]; last + 4 <= |code'| && Get32(code', last) == t
    ensures Threads(code', c, a + b)
    decreases |a|
  {
    assert (a + b)[1..] == a[1..] + b;
    if |a| == 1 {
      assert a[1..] + b == b;
    } else {
      assert a[..|a| - 1][0] == a[0];
      assert a[1..][..|a| - 2] == a[..|a| - 1][1..];
      var front := a[..|a| - 1];
      assert forall h :: h in front[1..] ==> h in front;
      assert SameWord(code, code', a[0]);
      ThreadsAppend(code, code', Get32(code, c), a[1..], t, b);
    }
  }

  lemma MergedSound(code: seq<Octet>, j: Jumps, c: nat, t: nat, code': seq<Octet>)
    requires Sound(code, j) && j.Open(c) && j.Open(t) && (c == t ==> c == 0)
    requires t < WORD
    requires c == 0 ==> code' == code
    requires c != 0 ==>
      var last := j.lists[c][|j.lists[c]| - 1]; last + 4 <= |code| && code' == Put32(code, last, t)
    ensures Sound(code', Merged(j, c, t))
  {
    hide Threads, Get32, Owned, Put32;
    MergedOwned(j, c, t);
    if c != 0 {
      var k := Merged(j, c, t);
      ListFacts(j, c);
      var last := j.lists[c][|j.lists[c]| - 1];
      PutGet(code, last, t);
      forall h | h in j.holes && h != last ensures SameWord(code, code', h) {
        HolesApart(j, h, last);
        PutGetOther(code, last, t, h);
      }
      forall u | u in j.lists && u != c ensures Threads(code', u, j.lists[u]) {
        ListFacts(j, u);
        ListsApart(j, u, c, last);
        ThreadsFrame(code, code', u, j.lists[u]);
      }
      EmptyThreads(code');
      ThreadsAppend(code, code', c, j.lists[c], t, j.List(t));
      LandedStays(j, code, code', last);
    }
  }

  lemma EmptyThreads(code: seq<Octet>)
    ensures Threads(code, 0, [])
  {
  }

  /** What ownership says of one open list. */
  lemma ListFacts(j: Jumps, t: nat)
    requires Owned(j) && t in j.lists
    ensures forall h :: h in j.lists[t] ==> h in j.holes && h !in j.landed
    ensures j.lists[t] != [] && NoDuplicates(j.lists[t])
    ensures var a := j.lists[t]; forall h :: h in a[..|a| - 1] ==> h != a[|a| - 1] && h in a
  {
    MergeEnds(j.lists[t]);
  }

  lemma HolesApart(j: Jumps, a: nat, b: nat)
    requires Owned(j) && a in j.holes && b in j.holes && a != b
    ensures Apart(a, b)
  {
  }

  lemma ListsApart(j: Jumps, t: nat, u: nat, h: nat)
    requires Owned(j) && t in j.lists && u in j.lists && t != u && h in j.lists[u]
    ensures h !in j.lists[t]
  {
  }

  lemma LandedStays(j: Jumps, code: seq<Octet>, code': seq<Octet>, last: nat)
    requires Owned(j) && last !in j.landed && |code'| == |code|
    requires forall h :: h in j.holes ==> 0 < h && h + 4 <= |code|
    requires forall h :: h in j.holes && h != last ==> SameWord(code, code', h)
    ensures forall h :: h in j.landed ==> h + 4 <= |code| && Get32(code', h) == Get32(code, h)
  {
    hide Get32;
  }

  lemma MergeEnds(a: seq<nat>)
    requires NoDuplicates(a) && a != []
    ensures forall h :: h in a[..|a| - 1] ==> h != a[|a| - 1] && h in a
  {
  }

  lemma PatchedOwned(j: Jumps, t: nat, a: int)
    requires Owned(j)
    ensures Owned(Patched(j, t, a))
  {
    var k := Patched(j, t, a);
    forall h | h in k.holes ensures h in k.landed || Listed(k, h) {
      if h !in j.landed {
        var u :| u in j.lists && h in j.lists[u];
        assert u == t || h in k.lists[u];
      }
    }
  }

  /** The buffer after patching: the holes of the list jump to a, no other byte has changed. */
  ghost predicate PatchedCode(code: seq<Octet>, holes: seq<nat>, a: int, code': seq<Octet>) {
    && |code'| == |code|
    && (forall h :: h in holes && h + 4 <= |code'| ==> Get32(code', h) == Mod32(a - h - 4))
    && (forall i :: 0 <= i < |code| && (forall h :: h in holes ==> !(h <= i < h + 4)) ==> code'[i] == code[i])
  }

  lemma PatchedSound(code: seq<Octet>, j: Jumps, t: nat, a: int, code': seq<Octet>)
    requires Sound(code, j) && PatchedCode(code, j.List(t), a, code')
    ensures Sound(code', Patched(j, t, a))
  {
    hide Threads, Get32, Owned;
    PatchedOwned(j, t, a);
    var k := Patched(j, t, a);
    forall h | h in j.holes && h !in j.List(t) ensures SameWord(code, code', h) {
      PatchMisses(code, j, t, a, code', h);
    }
    forall u | u in k.lists ensures Threads(code', u, k.lists[u]) {
      ListFacts(j, u);
      forall h | h in j.lists[u] ensures SameWord(code, code', h) {
        if h in j.List(t) { ListsApart(j, u, t, h); }
      }
      ThreadsFrame(code, code', u, j.lists[u]);
    }
    OwnedLanded(j, t);
  }

  lemma OwnedLanded(j: Jumps, t: nat)
    requires Owned(j)
    ensures forall h :: h in j.landed ==> h in j.holes && h !in j.List(t)
    ensures forall h :: h in j.List(t) ==> h in j.holes
  {
  }

  lemma PatchMisses(code: seq<Octet>, j: Jumps, t: nat, a: int, code': seq<Octet>, h: nat)
    requires Owned(j) && PatchedCode(code, j.List(t), a, code')
    requires h in j.holes && h !in j.List(t)
    ensures SameWord(code, code', h)
  {
    if h + 4 <= |code| {
      assert forall g :: g in j.List(t) ==> Apart(g, h);
      GetAgrees(code, code', h);
    }
  }

  /** When no list is open any more, every jump of the function lands where it was patched to. */
  lemma AllLanded(code: seq<Octet>, j: Jumps, h: nat)
    requires Sound(code, j) && j.lists == map[] && h in j.holes
    ensures h in j.landed && h + 4 <= |code|
    ensures Mod32(h + 4 + Get32(code, h)) == Mod32(j.landed[h])
  {
    hide Threads, Get32;
    assert !Listed(j, h);
    ModReach(j.landed[h], h + 4);
  }

  lemma ModReach(a: int, p: int)
    ensures Mod32(p + Mod32(a - p)) == Mod32(a)
  {
  }

  lemma ListOpen(code: seq<Octet>, j: Jumps, t: nat)
    requires Sound(code, j) && j.Open(t)
    ensures Threads(code, t, j.List(t)) && NoDuplicates(j.List(t))
    ensures forall h :: h in j.List(t) ==> h in j.holes
  {
  }

  /** One more hole patched, the rest of the list still threaded. */
  lemma PatchStep(code: seq<Octet>, holes: seq<nat>, k: nat, a: int, now: seq<Octet>)
    requires k < |holes| && NoDuplicates(holes)
    requires forall x, y :: x in holes && y in holes && x != y ==> Apart(x, y)
    requires PatchedCode(code, holes[..k], a, now)
    requires Threads(now, holes[k], holes[k..])
    ensures holes[k] + 4 <= |now|
    ensures var next := Put32(now, holes[k], Mod32(a - holes[k] - 4));
      PatchedCode(code, holes[..k + 1], a, next) && Threads(next, Get32(now, holes[k]), holes[k + 1..])
  {
    hide Get32, Put32;
    var t, v := holes[k], Mod32(a - holes[k] - 4);
    var next := Put32(now, t, v);
    PutGet(now, t, v);
    assert t in holes;
    forall h | h in holes && h != t ensures SameWord(now, next, h) {
      if h + 4 <= |now| { PutGetOther(now, t, v, h); }
    }
    assert holes[k..][1..] == holes[k + 1..];
    forall h | h in holes[k + 1..] ensures h in holes && h != t {
    }
    ThreadsFrame(now, next, Get32(now, t), holes[k + 1..]);
    forall h | h in holes[..k] ensures h in holes && h != t {
    }
    PatchedMore(code, holes[..k], t, a, now, next);
    assert holes[..k + 1] == holes[..k] + [t];
  }

  lemma PatchedMore(code: seq<Octet>, done: seq<nat>, t: nat, a: int, now: seq<Octet>, next: seq<Octet>)
    requires PatchedCode(code, done, a, now) && |next| == |now| && t + 4 <= |next|
    requires Get32(next, t) == Mod32(a - t - 4)
    requires forall i :: 0 <= i < |now| && !(t <= i < t + 4) ==> next[i] == now[i]
    requires forall h :: h in done ==> SameWord(now, next, h)
    ensures PatchedCode(code, done + [t], a, next)
  {
    hide Get32;
    assert t in done + [t];
    assert forall h :: h in done ==> h in done + [t];
  }

  function LowBytes(c: nat): seq<Octet> {
    if c == 0 then [] else [c % 256] + LowBytes(c / 256)
  }

  /** Registers and conditions as `vtop` records them. */
  datatype Operand =
    | Cmp(op: Octet)                    // flags are set, op is the setcc opcode
    | Jump(inverted: bool, list: nat)   // VT_JMP, or VT_JMPI if inverted: a list of taken jumps
    | Const(value: int)
    | Register(r: nat)

  const LIMIT: nat := 0x8000_0000

  class CodeBuffer {
    var code: seq<Octet>
    ghost var jumps: Jumps

    ghost predicate Valid()
      reads this
    {
      Sound(code, jumps) && |code| < LIMIT
    }

    constructor ()
      ensures Valid() && code == [] && jumps == Jumps(map[], map[], {})
    {
      code := [];
      jumps := Jumps(map[], map[], {});
    }

    method G(c: Octet)
      requires Valid() && |code| + 1 < LIMIT
      modifies this`code
      ensures Valid() && code == old(code) + [c]
    {
      code := code + [c];
      GrownSound(old(code), jumps, code);
    }

    method O(c: nat)
      requires Valid() && |code| + |LowBytes(c)| < LIMIT
      modifies this`code
      ensures Valid() && code == old(code) + LowBytes(c)
    {
      var rest := c;
      while rest != 0
        invariant Valid() && code + LowBytes(rest) == old(code) + LowBytes(c)
      {
        G(rest % 256);
        rest := rest / 256;
      }
    }

    /** An instruction with a 4-byte operand; returns the address of the operand. */
    method Oad(c: nat, s: Word32) returns (at: nat)
      requires Valid() && |code| + |LowBytes(c)| + 4 < LIMIT
      modifies this`code
      ensures Valid() && at == |old(code)| + |LowBytes(c)|
      ensures code == old(code) + LowBytes(c) + Bytes(s)
    {
      hide Sound;
      O(c);
      at := |code|;
      code := code + Bytes(s);
      GrownSound(old(code), jumps, code);
    }

    /** The same for a jump: the operand is a hole that joins list t. */
    method Psym(c: nat, t: nat) returns (s: nat)
      requires Valid() && c != 0 && |code| + |LowBytes(c)| + 4 < LIMIT && jumps.Open(t)
      modifies this
      ensures Valid() && s == |old(code)| + |LowBytes(c)|
      ensures code == old(code) + LowBytes(c) + Bytes(t)
      ensures jumps == Extended(old(jumps), t, s)
    {
      hide Sound, Get32;
      HeadFits(code, jumps, t);
      s := Oad(c, t);
      BytesAt(old(code) + LowBytes(c), t);
      ExtendedSound(old(code), jumps, t, s, code);
      jumps := Extended(jumps, t, s);
    }

    /** Patches every jump of list t to the address a. */
    method GsymAddr(t: nat, a: int)
      requires Valid() && jumps.Open(t)
      modifies this
      ensures Valid() && jumps == Patched(old(jumps), t, a)
      ensures PatchedCode(old(code), old(jumps).List(t), a, code)
    {
      hide Sound, Threads, Get32, Put32, PatchedCode;
      ListOpen(code, jumps, t);
      ghost var holes := jumps.List(t);
      ghost var k := 0;
      var rest := t;
      PatchStart(code, holes, a);
      ListApart(code, jumps, t);
      ThreadsHead(code, rest, holes);
      while rest != 0
        invariant k <= |holes| && |code| == |old(code)| && jumps == old(jumps)
        invariant rest == 0 <==> k == |holes|
        invariant k < |holes| ==> rest == holes[k]
        invariant Threads(code, rest, holes[k..])
        invariant PatchedCode(old(code), holes[..k], a, code)
        decreases |holes| - k
      {
        PatchStep(old(code), holes, k, a, code);
        var n := Get32(code, rest);
        code := Put32(code, rest, Mod32(a - rest - 4));
        rest := n;
        k := k + 1;
        ThreadsHead(code, rest, holes[k..]);
      }
      assert holes[..k] == holes;
      PatchedSound(old(code), jumps, t, a, code);
      jumps := Patched(jumps, t, a);
    }

    method Gsym(t: nat)
      requires Valid() && jumps.Open(t)
      modifies this
      ensures Valid() && jumps == Patched(old(jumps), t, |old(code)|)
      ensures PatchedCode(old(code), old(jumps).List(t), |old(code)|, code)
    {
      GsymAddr(t, |code|);
    }

    method Gjmp(t: nat) returns (s: nat)
      requires Valid() && |code| + 5 < LIMIT && jumps.Open(t)
      modifies this
      ensures Valid() && s == |old(code)| + 1
      ensures code == old(code) + [JMP] + Bytes(t)
      ensures jumps == Extended(old(jumps), t, s)
    {
      hide Sound;
      OneByte(JMP);
      s := Psym(JMP, t);
    }

    /** The `&&` and `||` optimisation: walks list c to its end and hangs list t there. */
    method AppendList(c: nat, t: nat) returns (head: nat)
      requires Valid() && jumps.Open(c) && jumps.Open(t) && (c == t ==> c == 0)
      modifies this
      ensures Valid() && |code| == |old(code)| && jumps == Merged(old(jumps), c, t)
      ensures head == if c == 0 then t else c
      ensures forall i :: 0 <= i < |code| && (c == 0 || !(Last(old(jumps).List(c)) <= i < Last(old(jumps).List(c)) + 4)) ==>
        code[i] == old(code[i])
    {
      hide Sound, Threads, Get32, Put32;
      ListOpen(code, jumps, c);
      HeadFits(code, jumps, t);
      ghost var holes := jumps.List(c);
      ThreadsHead(code, c, holes);
      ghost var k := 0;
      var p, next := 0, c;
      assert holes[0..] == holes;
      while next != 0
        invariant jumps == old(jumps) && code == old(code)
        invariant k <= |holes| && Threads(code, next, holes[k..])
        invariant next == 0 <==> k == |holes|
        invariant k > 0 ==> p == holes[k - 1]
        decreases |holes| - k
      {
        ThreadsStep(code, next, holes[k..]);
        assert holes[k..][1..] == holes[k + 1..];
        p := next;
        next := Get32(code, p);
        k := k + 1;
        ThreadsHead(code, next, holes[k..]);
      }
      head := t;
      if c != 0 {
        LastInside(code, jumps, c);
        code := Put32(code, p, t);
        PutGet(old(code), p, t);
        head := c;
      }
      MergedSound(old(code), jumps, c, t, code);
      jumps := Merged(jumps, c, t);
    }

    /** A test of a list of jumps, which joins list t or comes to an end here. */
    method TestList(inverted: bool, list: nat, inv: nat, t: nat) returns (head: nat)
      requires Valid() && |code| + 8 < LIMIT && inv < 2 && jumps.Open(t) && jumps.Open(list) && (list == t ==> t == 0)
      modifies this
      ensures Valid()
      ensures Bit(inverted) == inv ==>
        (|code| == |old(code)| && jumps == Merged(old(jumps), list, t) && head == if list == 0 then t else list)
      ensures Bit(inverted) != inv ==>
        (|code| == |old(code)| + 5 && head == |old(code)| + 1 && jumps == Patched(Extended(old(jumps), t, head), list, |code|))
      ensures if inverted != (inv == 1) then AlwaysGoes(code, |old(code)|, head) else |code| == |old(code)|
      ensures forall h :: h in old(jumps).List(list) ==>
        if !inverted != (inv == 1) then h in jumps.List(head) else h in jumps.landed && jumps.landed[h] == |code|
    {
      hide Sound, Threads, Get32, Put32, LowBytes, Bytes, Landed, RunsTo, AlwaysGoes, PatchedCode;
      ghost var start := code;
      HeadFits(code, jumps, t);
      if Bit(inverted) == inv {
        head := AppendList(list, t);
        ListContinues(start, old(jumps), list, t);
      } else {
        OpenSmall(code, jumps, list);
        ListStops(start, old(jumps), t, |start| + 1, list, |start| + 5);
        head := Gjmp(t);
        ghost var jumped := code;
        JmpGoes(start, jumped, t);
        Gsym(list);
        HoleKept(start, old(jumps), list, t, jumped, |jumped|, code);
        GoesKept(jumped, code, |start|, head);
      }
    }

    /**
      A test: once the list of its result is patched to a place, control goes there if the truth of
      the operand is not inv, and to the code behind otherwise. The last four contracts say so for
      each kind of operand; a list of jumps is true where its jumps arrive, unless inverted.
     */
    method Gtst(v: Operand, inv: nat, t: nat) returns (head: nat)
      requires Valid() && |code| + 8 < LIMIT && inv < 2 && jumps.Open(t)
      requires v.Cmp? ==> 0x90 <= v.op < 0xa0
      requires v.Jump? ==> jumps.Open(v.list) && (v.list == t ==> t == 0)
      requires v.Register? ==> v.r < 8
      modifies this
      ensures Valid()
      ensures v.Cmp? ==>
        (head == |old(code)| + 2 && jumps == Extended(old(jumps), t, head)
        && code == old(code) + [0x0f, FlipLow(v.op - 16, inv)] + Bytes(t))
      ensures v.Jump? && Bit(v.inverted) == inv ==>
        (|code| == |old(code)| && jumps == Merged(old(jumps), v.list, t)
        && head == if v.list == 0 then t else v.list)
      ensures v.Jump? && Bit(v.inverted) != inv ==>
        (|code| == |old(code)| + 5 && head == |old(code)| + 1
        && jumps == Patched(Extended(old(jumps), t, head), v.list, |code|))
      ensures v.Const? && Bit(v.value != 0) != inv ==>
        (head == |old(code)| + 1 && jumps == Extended(old(jumps), t, head)
        && code == old(code) + [JMP] + Bytes(t))
      ensures v.Const? && Bit(v.value != 0) == inv ==> head == t && jumps == old(jumps) && code == old(code)
      ensures v.Register? ==>
        (head == |old(code)| + 4 && jumps == Extended(old(jumps), t, head)
        && code == old(code) + [0x85, 0xc0 + v.r * 9, 0x0f, FlipLow(0x85, inv)] + Bytes(t))
      ensures v.Cmp? ==> GoesOnFlags(code, |old(code)|, head, v.op - 0x90, inv)
      ensures v.Register? ==> GoesOnRegister(code, |old(code)|, head, v.r, inv)
      ensures v.Const? ==> if (v.value != 0) != (inv == 1) then AlwaysGoes(code, |old(code)|, head) else code == old(code)
      ensures v.Jump? ==> if v.inverted != (inv == 1) then AlwaysGoes(code, |old(code)|, head) else |code| == |old(code)|
      ensures v.Jump? ==> forall h :: h in old(jumps).List(v.list) ==>
        if !v.inverted != (inv == 1) then h in jumps.List(head) else h in jumps.landed && jumps.landed[h] == |code|
    {
      hide Sound, Threads, Get32, Put32, LowBytes, Bytes, Landed, RunsTo, Condition, AlwaysGoes, GoesOnFlags, GoesOnRegister, PatchedCode;
      head := t;
      ghost var start := code;
      HeadFits(code, jumps, t);
      match v {
        case Cmp(op) =>
          G(0x0f);
          OneByte(FlipLow(op - 16, inv));
          head := Psym(FlipLow(op - 16, inv), t);
          assert code == start + [0x0f, FlipLow(op - 16, inv)] + Bytes(t);
          CmpBranches(start, code, op, inv, t);
        case Jump(inverted, list) =>
          head := TestList(inverted, list, inv, t);
        case Const(value) =>
          if Bit(value != 0) != inv {
            head := Gjmp(t);
            JmpGoes(start, code, t);
          }
        case Register(r) =>
          OneByte(0x85);
          O(0x85);
          OneByte(0xc0 + r * 9);
          O(0xc0 + r * 9);
          G(0x0f);
          OneByte(FlipLow(0x85, inv));
          head := Psym(FlipLow(0x85, inv), t);
          assert code == start + [0x85, 0xc0 + r * 9, 0x0f, FlipLow(0x85, inv)] + Bytes(t);
          RegisterBranches(start, code, r, inv, t);
      }
    }

    /** `load` of a list of jumps: 1 or 0 in a register, depending on how the code is left. */
    method LoadJump(r: nat, inverted: bool, list: nat) returns (landing: nat)
      requires Valid() && |code| + 15 < LIMIT && r < 8 && jumps.Open(list)
      modifies this
      ensures Valid() && jumps == Patched(old(jumps), list, landing)
      ensures forall regs, flags :: Steps(code, Cpu(|old(code)|, regs, flags), 2) == Some(Cpu(|code|, regs[r := if inverted then 1 else 0], flags))
      ensures forall regs, flags :: Steps(code, Cpu(landing, regs, flags), 1) == Some(Cpu(|code|, regs[r := if inverted then 0 else 1], flags))
    {
      hide Sound, Threads, Get32, Put32, PatchedCode, Steps, Bytes;
      var t := Bit(inverted);
      ghost var start := |code|;
      OneByte(MOV + r);
      OneByte(JMP);
      var at := Oad(MOV + r, t);
      at := Oad(JMP, 5);
      ghost var before := code;
      landing := |code|;
      Gsym(list);
      PatchedPrefix(old(code), old(jumps), list, before, landing, code, [MOV + r] + Bytes(t) + [JMP] + Bytes(5));
      ghost var middle := code;
      at := Oad(MOV + r, 1 - t);
      LoadRuns(middle[..start], r, t, landing, code);
    }
  }

  const JMP: Octet := 0xe9
  const MOV: Octet := 0xb8

  function Bit(b: bool): nat { if b then 1 else 0 }

  /** Exclusive or with 0 or 1. */
  function FlipLow(op: Octet, inv: nat): Octet {
    if inv == 0 then op else if op % 2 == 0 then op + 1 else op - 1
  }

  function Last(s: seq<nat>): nat { if s == [] then 0 else s[|s| - 1] }

  lemma OneByte(c: Octet)
    requires c != 0
    ensures LowBytes(c) == [c]
  {
    assert LowBytes(c / 256) == [];
  }

  lemma ThreadsStep(code: seq<Octet>, t: nat, holes: seq<nat>)
    requires Threads(code, t, holes) && t != 0
    ensures holes != [] && t == holes[0] && t + 4 <= |code| && Threads(code, Get32(code, t), holes[1..])
  {
  }

  lemma LastInside(code: seq<Octet>, j: Jumps, c: nat)
    requires Sound(code, j) && c in j.lists
    ensures j.lists[c] != [] && Last(j.lists[c]) + 4 <= |code|
  {
    var h := j.lists[c][|j.lists[c]| - 1];
    assert h in j.lists[c] && h in j.holes;
  }

  lemma OpenSmall(code: seq<Octet>, j: Jumps, t: nat)
    requires Sound(code, j) && j.Open(t)
    ensures t < |code| || t == 0
  {
    if t != 0 { assert j.lists[t][0] in j.lists[t]; }
  }

  datatype Flags = Flags(carry: bool, parity: bool, zero: bool, sign: bool, overflow: bool)

  /** The condition codes of the 80386, by their four bits. */
  predicate Condition(cc: int, f: Flags) {
    var even :=
      if cc < 2 then f.overflow
      else if cc < 4 then f.carry
      else if cc < 6 then f.zero
      else if cc < 8 then f.carry || f.zero
      else if cc < 10 then f.sign
      else if cc < 12 then f.parity
      else if cc < 14 then f.sign != f.overflow
      else f.zero || f.sign != f.overflow;
    even != (cc % 2 == 1)
  }

  function Ones(b: nat): nat { if b == 0 then 0 else b % 2 + Ones(b / 2) }

  /** The flags after `test r, r`. */
  function TestFlags(x: Word32): Flags {
    Flags(false, Ones(x % 256) % 2 == 0, x == 0, x >= 0x8000_0000, false)
  }

  datatype Cpu = Cpu(pc: nat, regs: map<nat, Word32>, flags: Flags)

  /** Four of the emitted instructions: load a constant, jump, test a register with itself, jump on a condition. */
  function Step(code: seq<Octet>, cpu: Cpu): Option<Cpu> {
    var pc := cpu.pc;
    if pc + 5 <= |code| && 0xb8 <= code[pc] < 0xc0 then
      Some(cpu.(pc := pc + 5, regs := cpu.regs[code[pc] - 0xb8 := Get32(code, pc + 1)]))
    else if pc + 5 <= |code| && code[pc] == 0xe9 then
      Some(cpu.(pc := Mod32(pc + 5 + Get32(code, pc + 1))))
    else if pc + 2 <= |code| && code[pc] == 0x85 && code[pc + 1] >= 0xc0 && (code[pc + 1] - 0xc0) % 9 == 0
      && (code[pc + 1] - 0xc0) / 9 in cpu.regs then
      Some(cpu.(pc := pc + 2, flags := TestFlags(cpu.regs[(code[pc + 1] - 0xc0) / 9])))
    else if pc + 6 <= |code| && code[pc] == 0x0f && 0x80 <= code[pc + 1] < 0x90 then
      Some(cpu.(pc := if Condition(code[pc + 1] - 0x80, cpu.flags) then Mod32(pc + 6 + Get32(code, pc + 2)) else pc + 6))
    else None
  }

  /** n steps keep the registers and arrive at pc. */
  ghost predicate RunsTo(all: seq<Octet>, cpu: Cpu, n: nat, pc: nat) {
    var r := Steps(all, cpu, n);
    r.Some? && r.value.pc == pc && r.value.regs == cpu.regs
  }

  /** Later code in which the instructions from `at` to the end of `code` stand, and the hole h jumps to a. */
  ghost predicate Landed(all: seq<Octet>, code: seq<Octet>, at: nat, h: nat, a: Word32) {
    && at < h && h + 4 == |code| <= |all| && (forall i :: at <= i < h ==> all[i] == code[i])
    && Get32(all, h) == Mod32(a - h - 4)
  }

  /** From `at` control goes where the hole h is patched to. */
  ghost predicate AlwaysGoes(code: seq<Octet>, at: nat, h: nat) {
    forall all, cpu: Cpu, a: Word32 :: Landed(all, code, at, h, a) && cpu.pc == at ==> RunsTo(all, cpu, 1, a)
  }

  /** From `at` control goes where h is patched to if the condition is not inv, and to the end otherwise. */
  ghost predicate GoesOnFlags(code: seq<Octet>, at: nat, h: nat, cc: int, inv: nat) {
    forall all, cpu: Cpu, a: Word32 :: Landed(all, code, at, h, a) && cpu.pc == at ==>
      RunsTo(all, cpu, 1, if Condition(cc, cpu.flags) != (inv == 1) then a else |code|)
  }

  /** The same if the register is not zero. */
  ghost predicate GoesOnRegister(code: seq<Octet>, at: nat, h: nat, r: nat, inv: nat) {
    forall all, cpu: Cpu, a: Word32 :: Landed(all, code, at, h, a) && cpu.pc == at && r in cpu.regs ==>
      RunsTo(all, cpu, 2, if (cpu.regs[r] != 0) != (inv == 1) then a else |code|)
  }

  lemma ListContinues(code: seq<Octet>, j: Jumps, c: nat, t: nat)
    requires Sound(code, j) && j.Open(c)
    ensures if c == 0 then j.List(c) == [] else forall h :: h in j.List(c) ==> h in Merged(j, c, t).List(c)
  {
    hide Threads, Get32;
  }

  lemma ListStops(code: seq<Octet>, j: Jumps, t: nat, s: nat, c: nat, a: int)
    requires Sound(code, j) && j.Open(c) && s > |code| && (c == t ==> t == 0)
    ensures Extended(j, t, s).List(c) == j.List(c)
    ensures forall h :: h in j.List(c) ==> var p := Patched(Extended(j, t, s), c, a).landed; h in p && p[h] == a
  {
    hide Threads, Get32;
    if c in j.lists { assert c in j.lists[c]; }
  }

  lemma ModReturns(a: Word32, p: nat)
    ensures Mod32(p + Mod32(a - p)) == a
  {
  }

  lemma JmpGoes(start: seq<Octet>, code: seq<Octet>, t: Word32)
    requires code == start + [0xe9] + Bytes(t)
    ensures AlwaysGoes(code, |start|, |start| + 1)
  {
    hide Get32, Bytes, Mod32;
    assert code[|start|] == 0xe9;
    forall all, cpu: Cpu, a: Word32 | Landed(all, code, |start|, |start| + 1, a) && cpu.pc == |start| ensures RunsTo(all, cpu, 1, a) {
      ModReturns(a, |start| + 5);
      StepsOne(all, cpu);
    }
  }

  lemma GoesKept(code: seq<Octet>, code': seq<Octet>, at: nat, h: nat)
    requires AlwaysGoes(code, at, h) && |code'| == |code| && forall i :: at <= i < h && i < |code| ==> code'[i] == code[i]
    ensures AlwaysGoes(code', at, h)
  {
    hide RunsTo, Get32;
    forall all, cpu: Cpu, a: Word32 | Landed(all, code', at, h, a) && cpu.pc == at ensures RunsTo(all, cpu, 1, a) {
      assert Landed(all, code, at, h, a);
    }
  }

  /** Patching a list opened before leaves the opcode of a new jump alone. */
  lemma HoleKept(start: seq<Octet>, j: Jumps, t: nat, word: Word32, code: seq<Octet>, a: int, code': seq<Octet>)
    requires Sound(start, j) && j.Open(t) && code == start + [0xe9] + Bytes(word) && PatchedCode(code, j.List(t), a, code')
    ensures |code'| == |code| && code'[|start|] == code[|start|]
  {
    hide Bytes;
    PatchedPrefix(start, j, t, code, a, code', [0xe9] + Bytes(word));
    assert code'[|start|] == code'[|start|..][0];
  }

  lemma CmpBranches(start: seq<Octet>, code: seq<Octet>, op: Octet, inv: nat, t: Word32)
    requires inv < 2 && 0x90 <= op < 0xa0 && code == start + [0x0f, FlipLow(op - 16, inv)] + Bytes(t)
    ensures GoesOnFlags(code, |start|, |start| + 2, op - 0x90, inv)
  {
    hide Get32, Bytes, Mod32, Condition;
    var at, h := |start|, |start| + 2;
    assert code[at] == 0x0f && code[at + 1] == FlipLow(op - 16, inv);
    forall all, cpu: Cpu, a: Word32 | Landed(all, code, at, h, a) && cpu.pc == at
      ensures RunsTo(all, cpu, 1, if Condition(op - 0x90, cpu.flags) != (inv == 1) then a else |code|)
    {
      ConditionFlips(op - 16, inv, cpu.flags);
      JccSteps(all, cpu, a);
    }
  }

  lemma JccSteps(all: seq<Octet>, cpu: Cpu, a: Word32)
    requires cpu.pc + 6 <= |all| && all[cpu.pc] == 0x0f && 0x80 <= all[cpu.pc + 1] < 0x90
    requires Get32(all, cpu.pc + 2) == Mod32(a - (cpu.pc + 2) - 4)
    ensures RunsTo(all, cpu, 1, if Condition(all[cpu.pc + 1] - 0x80, cpu.flags) then a else cpu.pc + 6)
  {
    hide Get32, Mod32, Condition;
    ModReturns(a, cpu.pc + 6);
    StepsOne(all, cpu);
  }

  lemma ConditionFlips(op: Octet, inv: nat, f: Flags)
    requires inv < 2 && 0x80 <= op < 0x90
    ensures 0x80 <= FlipLow(op, inv) < 0x90
    ensures Condition(FlipLow(op, inv) - 0x80, f) == (Condition(op - 0x80, f) != (inv == 1))
  {
  }

  lemma RegisterBranches(start: seq<Octet>, code: seq<Octet>, r: nat, inv: nat, t: Word32)
    requires inv < 2 && r < 8 && code == start + [0x85, 0xc0 + r * 9, 0x0f, FlipLow(0x85, inv)] + Bytes(t)
    ensures GoesOnRegister(code, |start|, |start| + 4, r, inv)
  {
    hide Get32, Bytes, Mod32, Condition, TestFlags, FlipLow;
    var at, h := |start|, |start| + 4;
    assert code[at] == 0x85 && code[at + 1] == 0xc0 + r * 9 && code[at + 2] == 0x0f && code[at + 3] == FlipLow(0x85, inv);
    forall all, cpu: Cpu, a: Word32 | Landed(all, code, at, h, a) && cpu.pc == at && r in cpu.regs
      ensures RunsTo(all, cpu, 2, if (cpu.regs[r] != 0) != (inv == 1) then a else |code|)
    {
      TestSteps(all, cpu, r);
      var next := cpu.(pc := at + 2, flags := TestFlags(cpu.regs[r]));
      ConditionFlips(0x85, inv, next.flags);
      JccSteps(all, next, a);
      StepsOne(all, next);
      StepsTwo(all, cpu);
    }
  }

  lemma TestSteps(all: seq<Octet>, cpu: Cpu, r: nat)
    requires cpu.pc + 2 <= |all| && r < 8 && r in cpu.regs && all[cpu.pc] == 0x85 && all[cpu.pc + 1] == 0xc0 + r * 9
    ensures Step(all, cpu) == Some(cpu.(pc := cpu.pc + 2, flags := TestFlags(cpu.regs[r])))
    ensures Condition(5, TestFlags(cpu.regs[r])) <==> cpu.regs[r] != 0
  {
    assert (0xc0 + r * 9 - 0xc0) / 9 == r;
  }

  function Steps(code: seq<Octet>, cpu: Cpu, n: nat): Option<Cpu>
    decreases n
  {
    if n == 0 then Some(cpu)
    else
      var next := Step(code, cpu);
      if next.None? then None else Steps(code, next.value, n - 1)
  }

  /** Patching a list opened before some code was emitted leaves that code alone. */
  lemma PatchedPrefix(code: seq<Octet>, j: Jumps, t: nat, before: seq<Octet>, a: int, after: seq<Octet>, more: seq<Octet>)
    requires Sound(code, j) && j.Open(t) && before == code + more
    requires PatchedCode(before, j.List(t), a, after)
    ensures |after| == |code| + |more| && after[|code|..] == more
  {
    ListOpen(code, j, t);
    forall i | |code| <= i < |before| ensures after[i] == before[i] {
    }
  }

  lemma LoadRuns(code: seq<Octet>, r: nat, t: nat, landing: nat, all: seq<Octet>)
    requires landing == |code| + 10 && r < 8 && t < 2 && |code| + 15 < LIMIT
    requires all == code + ([MOV + r] + Bytes(t) + [JMP] + Bytes(5)) + [MOV + r] + Bytes(1 - t)
    ensures forall regs, flags :: Steps(all, Cpu(|code|, regs, flags), 2) == Some(Cpu(|all|, regs[r := t], flags))
    ensures forall regs, flags :: Steps(all, Cpu(landing, regs, flags), 1) == Some(Cpu(|all|, regs[r := 1 - t], flags))
  {
    hide Get32, Bytes, Condition, TestFlags;
    var a := code + [MOV + r] + Bytes(t);
    BytesAt(code + [MOV + r], t);
    BytesAt(a + [JMP], 5);
    BytesAt(a + [JMP] + Bytes(5) + [MOV + r], 1 - t);
    assert all == a + ([JMP] + Bytes(5) + [MOV + r] + Bytes(1 - t));
    assert all == a + [JMP] + Bytes(5) + [MOV + r] + Bytes(1 - t);
    GetPrefix(a, all, |code| + 1);
    GetPrefix(a + [JMP] + Bytes(5), all, |code| + 6);
    forall regs, flags
      ensures Steps(all, Cpu(|code|, regs, flags), 2) == Some(Cpu(|all|, regs[r := t], flags))
      ensures Steps(all, Cpu(landing, regs, flags), 1) == Some(Cpu(|all|, regs[r := 1 - t], flags))
    {
      assert Step(all, Cpu(|code|, regs, flags)) == Some(Cpu(|code| + 5, regs[r := t], flags));
      assert Step(all, Cpu(|code| + 5, regs[r := t], flags)) == Some(Cpu(|code| + 15, regs[r := t], flags));
      assert Step(all, Cpu(|code| + 10, regs, flags)) == Some(Cpu(|code| + 15, regs[r := 1 - t], flags));
      StepsTwo(all, Cpu(|code|, regs, flags));
      StepsOne(all, Cpu(landing, regs, flags));
    }
  }

  lemma StepsTwo(code: seq<Octet>, cpu: Cpu)
    ensures Steps(code, cpu, 1) == Step(code, cpu)
    ensures Step(code, cpu).Some? ==> Steps(code, cpu, 2) == Step(code, Step(code, cpu).value)
  {
    if Step(code, cpu).Some? {
      var next := Step(code, cpu).value;
      assert Steps(code, next, 1) == Step(code, next) by { StepsOne(code, next); }
    }
    StepsOne(code, cpu);
  }

  lemma StepsOne(code: seq<Octet>, cpu: Cpu)
    ensures Steps(code, cpu, 1) == Step(code, cpu)
  {
    if Step(code, cpu).Some? { assert Steps(code, Step(code, cpu).value, 0) == Step(code, cpu); }
  }

  lemma GetPrefix(a: seq<Octet>, all: seq<Octet>, off: nat)
    requires a <= all && off + 4 <= |a|
    ensures Get32(all, off) == Get32(a, off)
  {
    GetAgrees(a, all, off);
  }

  lemma HeadFits(code: seq<Octet>, j: Jumps, t: nat)
    requires Sound(code, j) && j.Open(t) && |code| < LIMIT
    ensures t < LIMIT
  {
    if t != 0 { assert j.lists[t][0] in j.lists[t]; }
  }

  lemma BytesAt(code: seq<Octet>, v: Word32)
    ensures Get32(code + Bytes(v), |code|) == v
  {
    BytesValue(v);
    assert (code + Bytes(v))[|code|..] == Bytes(v);
  }

  lemma PatchStart(code: seq<Octet>, holes: seq<nat>, a: int)
    ensures PatchedCode(code, holes[..0], a, code) && holes[0..] == holes
  {
  }

  lemma ListApart(code: seq<Octet>, j: Jumps, t: nat)
    requires Sound(code, j) && j.Open(t)
    ensures forall x, y :: x in j.List(t) && y in j.List(t) && x != y ==> Apart(x, y)
  {
  }

  lemma ThreadsHead(code: seq<Octet>, t: nat, holes: seq<nat>)
    requires Threads(code, t, holes)
    ensures t == 0 <==> holes == []
    ensures holes != [] ==> t == holes[0]
  {
  }
}
