/**
  Stack balance of compiled programs on the machine, at every step of every run, whether or not
  it ends. The flow analysis of M2Stack holds of the running activation and of every one that
  waits for a call to return.
 */
module M2Balance {
  import opened Options
  import opened M2Word
  import opened M2Machine
  import opened M2Codegen
  import opened M2Correct
  import opened M2Program
  import opened M2Stack
  import opened M2Boundary
  import Src = M2Source

  /** A running function: where its code is, how long the stack is up to its return address, and that address. */
  datatype Act = Act(d: Src.Fun, pos: nat, entry: nat, ret: nat)

  /** What the analysis says before the instruction at pc; before a label, what holds on every arrival there. */
  function PointAt(p: Src.Program, strict: bool, a: Act, pc: nat): Flow {
    var code, plan := FunCode(a.d), PlanOf(p, strict, a.d);
    if !(a.pos <= pc < a.pos + |code|) then Bad
    else if code[pc - a.pos].Mark? && code[pc - a.pos].l.LocalL? then
      if code[pc - a.pos].l.num < |plan.lab| then Ok(Live(AtLabel(plan, code[pc - a.pos].l.num))) else Bad
    else FlowCode(code[..pc - a.pos], Live(Start(a.d)), plan)
  }

  predicate AliveAt(p: Src.Program, strict: bool, a: Act, pc: nat) {
    PointAt(p, strict, a, pc).Ok? && PointAt(p, strict, a, pc).h.Live?
  }

  function AbsAt(p: Src.Program, strict: bool, a: Act, pc: nat): Abs
    requires AliveAt(p, strict, a, pc)
  {
    PointAt(p, strict, a, pc).h.a
  }

  /** The programs meant: in strict mode, all functions but main store to their own variables only. */
  predicate Meant(p: Src.Program, strict: bool) {
    && Distinct(p)
    && (forall d :: d in p ==> WellFormed(d))
    && (strict ==> forall d :: d in p && d.name != "main" ==> TameFun(p, d))
  }

  predicate Located(p: Src.Program, strict: bool, a: Act) {
    && Src.FindFun(p, a.d.name) == Some(a.d)
    && Find(ProgramCode(p), FunctionL(a.d.name)) == Some(a.pos)
    && Occurs(ProgramCode(p), a.pos, FunCode(a.d))
    && (strict ==> a.d.name != "main")
  }

  predicate Agrees(t: Tag, v: Value, entry: nat) {
    match t
    case Any => true
    case Base(n) => v == StackAt(-4 * (entry + n))
    case Off => !v.StackAt?
  }

  predicate RegsAgree(a: Abs, s: State, entry: nat) {
    Agrees(a.eax, s.eax, entry) && Agrees(a.ebx, s.ebx, entry) && Agrees(a.ebp, s.ebp, entry) && Agrees(a.edi, s.edi, entry)
  }

  predicate WordsAgree(words: seq<Tag>, stack: seq<Value>, entry: nat)
    requires |stack| == entry + |words|
  {
    forall k :: 0 <= k < |words| ==> Agrees(words[k], stack[entry + k], entry)
  }

  /** One activation on top of a stack. */
  predicate OnTop(p: Src.Program, strict: bool, a: Act, pc: nat, stack: seq<Value>) {
    && Located(p, strict, a) && AliveAt(p, strict, a, pc) && a.entry >= 1
    && |stack| == a.entry + |AbsAt(p, strict, a, pc).words|
    && (strict ==>
      && a.entry >= |a.d.params| + 1 && stack[a.entry - 1] == CodeAt(a.ret)
      && WordsAgree(AbsAt(p, strict, a, pc).words, stack, a.entry))
  }

  /** ebp is below the arguments of activation a, and nothing is known of them or of the other registers. */
  predicate Passes(c: Abs, entry: nat, a: Act) {
    && c.eax == Any && c.ebx == Any && c.edi == Any
    && c.ebp.Base? && c.ebp.n >= 0 && entry + c.ebp.n == a.entry - 1 - |a.d.params|
    && forall k :: c.ebp.n <= k < |c.words| ==> c.words[k] == Any
  }

  /** The caller will go on behind its call. In strict mode the callee's arguments are words that it knows nothing of. */
  predicate Called(p: Src.Program, strict: bool, caller: Act, a: Act) {
    && 0 < a.ret <= |ProgramCode(p)| && ProgramCode(p)[a.ret - 1] == Call(a.d.name)
    && (strict ==> AliveAt(p, strict, caller, a.ret) && Passes(AbsAt(p, strict, caller, a.ret), caller.entry, a))
  }

  /** All activations, the running one last, share out the stack. */
  ghost predicate Frames(p: Src.Program, strict: bool, acts: seq<Act>, pc: nat, stack: seq<Value>)
    decreases |acts|
  {
    acts != [] &&
    var a := acts[|acts| - 1];
    && OnTop(p, strict, a, pc, stack)
    && (|acts| > 1 ==>
      && Frames(p, strict, acts[..|acts| - 1], a.ret, stack[..a.entry - 1])
      && Called(p, strict, acts[|acts| - 2], a))
  }

  ghost predicate Inv(p: Src.Program, strict: bool, s: State, acts: seq<Act>) {
    && Frames(p, strict, acts, s.pc, s.stack)
    && (strict ==> RegsAgree(AbsAt(p, strict, acts[|acts| - 1], s.pc), s, acts[|acts| - 1].entry))
  }

  // ----- the analysis is sound for one step -----

  /** Instructions that go to the next one and store nothing. */
  predicate Inner(i: Instr) { !(i.StoreEbx? || i.Je? || i.Jne? || i.Jmp? || i.Call? || i.Ret?) }

  lemma InnerSound(code: Code, i: Instr, s: State, t: State, a: Abs, entry: nat, plan: Plan)
    requires Inner(i) && Exec(code, i, s) == Some(t)
    requires AbsStep(i, a, plan).Ok? && |s.stack| == entry + |a.words|
    ensures AbsStep(i, a, plan).h.Live?
    ensures var b := AbsStep(i, a, plan).h.a;
      && t.pc == s.pc + 1 && |t.stack| == entry + |b.words| && t.stack[..entry] == s.stack[..entry]
      && (WordsAgree(a.words, s.stack, entry) && RegsAgree(a, s, entry) ==>
          WordsAgree(b.words, t.stack, entry) && RegsAgree(b, t, entry))
  {
  }

  /** What holds at a label covers whatever arrives there. */
  predicate Covers(c: Abs, b: Abs) {
    c == b || (c.words == Anys(|b.words|) && c.eax == Any && c.ebx == Any && c.ebp == b.ebp && c.edi == Any)
  }

  /** The flow before the j-th instruction of a function is well formed. */
  lemma PrefixOk(p: Src.Program, strict: bool, d: Src.Fun, j: nat)
    requires Meant(p, strict) && d in p && (strict ==> d.name != "main") && j <= |FunCode(d)|
    ensures var f := FlowCode(FunCode(d)[..j], Live(Start(d)), PlanOf(p, strict, d));
      && f.Ok?
      && (f.h.Live? ==> j < |FunCode(d)|)
      && (j < |FunCode(d)| ==>
          FlowCode(FunCode(d)[..j + 1], Live(Start(d)), PlanOf(p, strict, d)) == FlowStep(FunCode(d)[j], f.h, PlanOf(p, strict, d)))
  {
    hide FlowCode, FlowStep, FunCode, TameFun;
    var code, h, plan := FunCode(d), Live(Start(d)), PlanOf(p, strict, d);
    FunctionFlow(p, strict, d);
    assert code == code[..j] + code[j..];
    FlowConcat(code[..j], code[j..], h, plan);
    if j < |code| {
      assert code[..j + 1] == code[..j] + [code[j]];
      FlowConcat(code[..j], [code[j]], h, plan);
      FlowOne(code[j], FlowCode(code[..j], h, plan).h, plan);
    } else {
      assert code[..j] == code;
    }
  }

  /** From one point to the next. */
  lemma NextPoint(p: Src.Program, strict: bool, a: Act, pc: nat)
    requires Meant(p, strict) && a.d in p && (strict ==> a.d.name != "main") && AliveAt(p, strict, a, pc)
    ensures a.pos <= pc < a.pos + |FunCode(a.d)|
    ensures var f := AbsStep(FunCode(a.d)[pc - a.pos], AbsAt(p, strict, a, pc), PlanOf(p, strict, a.d));
      f.Ok? && (f.h.Live? ==> AliveAt(p, strict, a, pc + 1) && Covers(AbsAt(p, strict, a, pc + 1), f.h.a))
  {
    hide FlowCode, FunCode, TameFun, PlanOf, Meant;
    var code, plan, j := FunCode(a.d), PlanOf(p, strict, a.d), pc - a.pos;
    PrefixOk(p, strict, a.d, j);
    PrefixOk(p, strict, a.d, j + 1);
    if j + 1 < |code| && code[j + 1].Mark? && code[j + 1].l.LocalL? {
      PrefixOk(p, strict, a.d, j + 2);
    }
  }

  // ----- labels -----

  /** The code of a program around the code of one function: the other labels have other names. */
  lemma {:induction false} AroundFunction(p: Src.Program, f: string) returns (before: Code, after: Code)
    requires Distinct(p) && Src.FindFun(p, f).Some?
    ensures ProgramCode(p) == before + FunCode(Src.FindFun(p, f).value) + after
    ensures forall l :: l in Marks(before) || l in Marks(after) ==> l.f != f
  {
    hide FunCode, Marks;
    var first, rest := FunCode(p[0]), ProgramCode(p[1..]);
    assert Distinct(p[1..]) by {
      forall i, j | 0 <= i < j < |p[1..]| ensures p[1..][i].name != p[1..][j].name { assert p[i + 1].name != p[j + 1].name; }
    }
    if p[0].name == f {
      before, after := [], rest;
      NoMarks();
      ProgramLabels(p[1..]);
      assert [] + first + rest == first + rest;
      forall l | l in Marks(rest) ensures l.f != f {
        var i :| 0 <= i < |p[1..]| && p[1..][i].name == l.f;
        assert p[0].name != p[i + 1].name;
      }
    } else {
      var b;
      b, after := AroundFunction(p[1..], f);
      before := first + b;
      FunLabels(p[0]);
      MarksConcat(first, b);
      assert first + (b + FunCode(Src.FindFun(p, f).value) + after) == first + b + FunCode(Src.FindFun(p, f).value) + after;
    }
  }

  lemma NoMarks()
    ensures Marks([]) == {}
  {
  }

  /** A function's own labels lie in its code. */
  lemma LabelInside(p: Src.Program, strict: bool, a: Act, l: Label)
    requires Distinct(p) && Located(p, strict, a) && l.f == a.d.name && Find(ProgramCode(p), l).Some?
    ensures var i := Find(ProgramCode(p), l).value;
      a.pos <= i < a.pos + |FunCode(a.d)| && FunCode(a.d)[i - a.pos] == Mark(l)
  {
    hide FunCode, ProgramCode, Marks, UniqueLabels;
    var code, own := ProgramCode(p), FunCode(a.d);
    var before, after := AroundFunction(p, a.d.name);
    ProgramLabels(p);
    assert Occurs(code, |before|, own) by { assert code[|before|..|before| + |own|] == own; }
    EntryFound(code, |before|, a.d);
    Unmarked(before, l);
    Unmarked(after, l);
    InTheMiddle(before, own, after, Find(code, l).value, l);
  }

  lemma Unmarked(code: Code, l: Label)
    requires l !in Marks(code)
    ensures forall k :: 0 <= k < |code| ==> code[k] != Mark(l)
  {
  }

  lemma InTheMiddle(before: Code, own: Code, after: Code, i: nat, l: Label)
    requires i < |before + own + after| && (before + own + after)[i] == Mark(l)
    requires forall k :: 0 <= k < |before| ==> before[k] != Mark(l)
    requires forall k :: 0 <= k < |after| ==> after[k] != Mark(l)
    ensures |before| <= i < |before| + |own| && own[i - |before|] == Mark(l)
  {
  }

  /** Calls go to the entry of the function of that name. */
  lemma EntryOf(p: Src.Program, f: string)
    requires Distinct(p) && Find(ProgramCode(p), FunctionL(f)).Some?
    ensures Src.FindFun(p, f).Some?
    ensures Occurs(ProgramCode(p), Find(ProgramCode(p), FunctionL(f)).value, FunCode(Src.FindFun(p, f).value))
  {
    hide FunCode, ProgramCode, Marks, UniqueLabels;
    var code := ProgramCode(p);
    ProgramLabels(p);
    MarkedAt(code, Find(code, FunctionL(f)).value);
    var i :| 0 <= i < |p| && p[i].name == f;
    FoundFun(p, i);
    var pos := FunOccurs(p, f);
    EntryFound(code, pos, Src.FindFun(p, f).value);
  }

  lemma {:induction false} FoundFun(p: Src.Program, i: nat)
    requires i < |p|
    ensures Src.FindFun(p, p[i].name).Some?
  {
    if i > 0 && p[0].name != p[i].name { FoundFun(p[1..], i - 1); }
  }

  /** A jump from a live point arrives at a live point that covers it. */
  lemma JumpPoint(p: Src.Program, strict: bool, a: Act, pc: nat, l: Label)
    requires Meant(p, strict) && Located(p, strict, a) && AliveAt(p, strict, a, pc)
    requires Lands(l, AbsAt(p, strict, a, pc), PlanOf(p, strict, a.d)) && Find(ProgramCode(p), l).Some?
    ensures var i := Find(ProgramCode(p), l).value;
      AliveAt(p, strict, a, i) && Covers(AbsAt(p, strict, a, i), AbsAt(p, strict, a, pc))
  {
    hide FunCode, ProgramCode, FlowCode, TameFun;
    LabelInside(p, strict, a, l);
  }

  // ----- one step keeps the invariant -----

  function Last(acts: seq<Act>): Act
    requires acts != []
  {
    acts[|acts| - 1]
  }

  function Rest(acts: seq<Act>): seq<Act>
    requires acts != []
  {
    acts[..|acts| - 1]
  }

  lemma CoverAgrees(c: Abs, b: Abs, s: State, entry: nat)
    requires Covers(c, b) && |s.stack| == entry + |b.words|
    ensures |c.words| == |b.words| && c.ebp == b.ebp
    ensures WordsAgree(b.words, s.stack, entry) && RegsAgree(b, s, entry) ==>
      WordsAgree(c.words, s.stack, entry) && RegsAgree(c, s, entry)
  {
  }

  lemma WordsSame(words: seq<Tag>, stack: seq<Value>, stack1: seq<Value>, entry: nat)
    requires |stack| == |stack1| == entry + |words| && WordsAgree(words, stack, entry)
    requires stack1[entry..] == stack[entry..]
    ensures WordsAgree(words, stack1, entry)
  {
    forall k | 0 <= k < |words| ensures Agrees(words[k], stack1[entry + k], entry) {
      assert stack1[entry..][k] == stack[entry..][k];
    }
  }

  /** The running activation goes on with the same words up to its return address. */
  lemma FramesMove(p: Src.Program, strict: bool, acts: seq<Act>, pc: nat, stack: seq<Value>, pc1: nat, stack1: seq<Value>)
    requires Frames(p, strict, acts, pc, stack)
    requires var a := Last(acts);
      && AliveAt(p, strict, a, pc1) && |stack1| == a.entry + |AbsAt(p, strict, a, pc1).words|
      && stack1[..a.entry] == stack[..a.entry]
      && (strict ==> WordsAgree(AbsAt(p, strict, a, pc1).words, stack1, a.entry))
    ensures Frames(p, strict, acts, pc1, stack1)
  {
    hide AliveAt, AbsAt, Located, Called, WordsAgree;
    var a := Last(acts);
    SamePrefix(stack, stack1, a.entry);
    assert OnTop(p, strict, a, pc1, stack1);
  }

  lemma SamePrefix(stack: seq<Value>, stack1: seq<Value>, n: nat)
    requires 0 < n <= |stack| && n <= |stack1| && stack1[..n] == stack[..n]
    ensures stack1[..n - 1] == stack[..n - 1] && stack1[n - 1] == stack[n - 1]
  {
    assert stack1[..n - 1] == stack1[..n][..n - 1] && stack[..n - 1] == stack[..n][..n - 1];
    assert stack1[..n][n - 1] == stack[..n][n - 1];
  }

  lemma Runs(p: Src.Program, strict: bool, acts: seq<Act>, pc: nat, stack: seq<Value>)
    requires Frames(p, strict, acts, pc, stack)
    ensures acts != [] && OnTop(p, strict, Last(acts), pc, stack)
  {
  }

  lemma Arrive(p: Src.Program, strict: bool, s: State, t: State, acts: seq<Act>, b: Abs)
    requires Inv(p, strict, s, acts)
    requires var a := Last(acts);
      && AliveAt(p, strict, a, t.pc) && Covers(AbsAt(p, strict, a, t.pc), b)
      && |t.stack| == a.entry + |b.words| && t.stack[..a.entry] == s.stack[..a.entry]
      && (strict ==> WordsAgree(b.words, t.stack, a.entry) && RegsAgree(b, t, a.entry))
    ensures Inv(p, strict, t, acts)
  {
    hide AliveAt, AbsAt, Covers, WordsAgree, RegsAgree, Frames;
    Runs(p, strict, acts, s.pc, s.stack);
    var a := Last(acts);
    CoverAgrees(AbsAt(p, strict, a, t.pc), b, t, a.entry);
    FramesMove(p, strict, acts, s.pc, s.stack, t.pc, t.stack);
  }

  /** What the invariant says of the running activation. */
  lemma Running(p: Src.Program, strict: bool, s: State, acts: seq<Act>)
    requires Inv(p, strict, s, acts)
    ensures acts != [] && OnTop(p, strict, Last(acts), s.pc, s.stack)
    ensures Last(acts).d in p && (strict ==> Last(acts).d.name != "main")
    ensures Last(acts).pos <= s.pc < Last(acts).pos + |FunCode(Last(acts).d)|
    ensures s.pc < |ProgramCode(p)| && ProgramCode(p)[s.pc] == FunCode(Last(acts).d)[s.pc - Last(acts).pos]
    ensures strict ==> RegsAgree(AbsAt(p, strict, Last(acts), s.pc), s, Last(acts).entry)
  {
    hide FunCode, ProgramCode, FlowCode, RegsAgree, WordsAgree;
    assert Frames(p, strict, acts, s.pc, s.stack) && acts != [];
    var a := Last(acts);
    OccursAt(ProgramCode(p), a.pos, FunCode(a.d), s.pc - a.pos);
  }

  lemma StepInner(p: Src.Program, strict: bool, s: State, t: State, acts: seq<Act>)
    requires Meant(p, strict) && Inv(p, strict, s, acts)
    requires Step(ProgramCode(p), s) == Some(t) && Inner(ProgramCode(p)[s.pc])
    ensures Inv(p, strict, t, acts)
  {
    hide FunCode, ProgramCode, AliveAt, AbsAt, Inv, AbsStep, Covers, WordsAgree, RegsAgree, Exec, Located, Meant, Inner;
    Running(p, strict, s, acts);
    var a := Last(acts);
    var code, i, x, plan := ProgramCode(p), ProgramCode(p)[s.pc], AbsAt(p, strict, a, s.pc), PlanOf(p, strict, a.d);
    NextPoint(p, strict, a, s.pc);
    InnerSound(code, i, s, t, x, a.entry, plan);
    Arrive(p, strict, s, t, acts, AbsStep(i, x, plan).h.a);
  }

  lemma StepJump(p: Src.Program, strict: bool, s: State, t: State, acts: seq<Act>)
    requires Meant(p, strict) && Inv(p, strict, s, acts) && Step(ProgramCode(p), s) == Some(t)
    requires var i := ProgramCode(p)[s.pc]; i.Je? || i.Jne? || i.Jmp?
    ensures Inv(p, strict, t, acts)
  {
    hide FunCode, ProgramCode, AliveAt, AbsAt, Inv, Covers, WordsAgree, RegsAgree, Located, Meant, PlanOf, Find, Frames, Called;
    Running(p, strict, s, acts);
    var a := Last(acts);
    var i, x, plan := ProgramCode(p)[s.pc], AbsAt(p, strict, a, s.pc), PlanOf(p, strict, a.d);
    NextPoint(p, strict, a, s.pc);
    assert Lands(i.l, x, plan);
    if Find(ProgramCode(p), i.l).Some? { JumpPoint(p, strict, a, s.pc, i.l); }
    assert t == s.(pc := t.pc);
    SameRegs(x, s, t, a.entry);
    Arrive(p, strict, s, t, acts, x);
  }

  lemma SameRegs(x: Abs, s: State, t: State, entry: nat)
    requires t == s.(pc := t.pc, stack := t.stack, globals := t.globals)
    ensures RegsAgree(x, s, entry) <==> RegsAgree(x, t, entry)
  {
  }

  /** Without knowledge of contents, only the length of the stack counts. */
  lemma {:induction false} FramesLength(p: Src.Program, acts: seq<Act>, pc: nat, stack: seq<Value>, stack1: seq<Value>)
    requires Frames(p, false, acts, pc, stack) && |stack1| == |stack|
    ensures Frames(p, false, acts, pc, stack1)
    decreases |acts|
  {
    hide AliveAt, AbsAt, Located, Called;
    var a := Last(acts);
    if |acts| > 1 { FramesLength(p, Rest(acts), a.ret, stack[..a.entry - 1], stack1[..a.entry - 1]); }
  }

  /** Words that nothing is known of may change. */
  lemma CallerKeeps(p: Src.Program, acts: seq<Act>, stack: seq<Value>, a: Act, slot: nat, v: Value)
    requires Frames(p, true, acts, a.ret, stack) && Called(p, true, Last(acts), a)
    requires a.entry - 1 - |a.d.params| <= slot < |stack|
    ensures Frames(p, true, acts, a.ret, stack[slot := v])
  {
    hide AliveAt, AbsAt, Located, Frames;
    Runs(p, true, acts, a.ret, stack);
    var c, stack1 := Last(acts), stack[slot := v];
    var x := AbsAt(p, true, c, a.ret);
    assert stack1[..c.entry] == stack[..c.entry];
    forall k | 0 <= k < |x.words| ensures Agrees(x.words[k], stack1[c.entry + k], c.entry) {
      if c.entry + k == slot { assert x.words[k] == Any; }
    }
    FramesMove(p, true, acts, a.ret, stack, a.ret, stack1);
  }

  /** A callee may change the words that its caller passed. */
  lemma FramesArgument(p: Src.Program, acts: seq<Act>, pc: nat, stack: seq<Value>, slot: nat, v: Value)
    requires Frames(p, true, acts, pc, stack)
    requires var a := Last(acts); a.entry - 1 - |a.d.params| <= slot < a.entry - 1
    ensures slot < |stack| && Frames(p, true, acts, pc, stack[slot := v])
  {
    hide AliveAt, AbsAt, Located, Called, WordsAgree;
    var a, stack1 := Last(acts), stack[slot := v];
    assert stack1[a.entry..] == stack[a.entry..];
    WordsSame(AbsAt(p, true, a, pc).words, stack, stack1, a.entry);
    assert OnTop(p, true, a, pc, stack1);
    if |acts| > 1 {
      assert acts[|acts| - 2] == Last(Rest(acts));
      assert stack1[..a.entry - 1] == stack[..a.entry - 1][slot := v];
      CallerKeeps(p, Rest(acts), stack[..a.entry - 1], a, slot, v);
    }
  }

  /** A store touches one word above the return address or one argument; in plain mode, any word. */
  lemma StoreKeeps(p: Src.Program, strict: bool, s: State, t: State, acts: seq<Act>)
    requires Inv(p, strict, s, acts) && Exec(ProgramCode(p), StoreEbx, s) == Some(t)
    requires strict ==> StoreOk(AbsAt(p, strict, Last(acts), s.pc), PlanOf(p, strict, Last(acts).d))
    ensures Inv(p, strict, s.(stack := t.stack), acts) && t == s.(pc := s.pc + 1, stack := t.stack, globals := t.globals)
  {
    hide FunCode, ProgramCode, AliveAt, AbsAt, Located, Frames;
    if !strict {
      FramesLength(p, acts, s.pc, s.stack, t.stack);
    } else if s.ebx.StackAt? {
      Running(p, strict, s, acts);
      var a := Last(acts);
      var x, slot := AbsAt(p, strict, a, s.pc), SlotAt(s.ebx.offset);
      assert slot == a.entry + x.ebx.n - 1;
      if slot >= a.entry {
        assert t.stack[..a.entry] == s.stack[..a.entry];
        FramesMove(p, strict, acts, s.pc, s.stack, s.pc, t.stack);
      } else {
        FramesArgument(p, acts, s.pc, s.stack, slot, s.eax);
      }
    }
  }

  lemma StepStore(p: Src.Program, strict: bool, s: State, t: State, acts: seq<Act>)
    requires Meant(p, strict) && Inv(p, strict, s, acts) && Step(ProgramCode(p), s) == Some(t)
    requires ProgramCode(p)[s.pc].StoreEbx?
    ensures Inv(p, strict, t, acts)
  {
    hide FunCode, ProgramCode, AliveAt, AbsAt, Inv, Covers, Located, Meant, Frames;
    Running(p, strict, s, acts);
    var a := Last(acts);
    var x, plan := AbsAt(p, strict, a, s.pc), PlanOf(p, strict, a.d);
    NextPoint(p, strict, a, s.pc);
    var u := s.(stack := t.stack);
    assert Inv(p, strict, u, acts) by { StoreKeeps(p, strict, s, t, acts); }
    Running(p, strict, u, acts);
    SameRegs(x, u, t, a.entry);
    Arrive(p, strict, u, t, acts, x);
  }

  /** The activation that a call starts. */
  function Callee(p: Src.Program, s: State, t: State, f: string): Act
    requires Src.FindFun(p, f).Some?
  {
    Act(Src.FindFun(p, f).value, t.pc, |t.stack|, s.pc + 1)
  }

  /** A function at its entry. */
  lemma EntryOnTop(p: Src.Program, strict: bool, b: Act, stack: seq<Value>)
    requires Located(p, strict, b) && 0 < b.entry == |stack|
    requires strict ==> b.entry >= |b.d.params| + 1 && stack[b.entry - 1] == CodeAt(b.ret)
    ensures OnTop(p, strict, b, b.pos, stack) && AbsAt(p, strict, b, b.pos) == Start(b.d)
  {
    hide StmtCode, Located;
    assert FunCode(b.d)[0] == Mark(FunctionL(b.d.name));
    assert FunCode(b.d)[..0] == [];
    FlowNone(Live(Start(b.d)), PlanOf(p, strict, b.d));
  }

  lemma FramesPush(p: Src.Program, strict: bool, acts: seq<Act>, b: Act, pc: nat, stack: seq<Value>)
    requires OnTop(p, strict, b, pc, stack)
    requires acts != [] ==> Frames(p, strict, acts, b.ret, stack[..b.entry - 1]) && Called(p, strict, Last(acts), b)
    ensures Frames(p, strict, acts + [b], pc, stack)
  {
    hide OnTop, Called;
    var bs := acts + [b];
    assert bs[..|bs| - 1] == acts;
    if acts != [] { assert bs[|bs| - 2] == Last(acts); }
  }

  /** The caller at the instruction behind its call. */
  lemma CallerWaits(p: Src.Program, strict: bool, s: State, acts: seq<Act>, b: Act, f: string)
    requires Meant(p, strict) && Inv(p, strict, s, acts)
    requires s.pc < |ProgramCode(p)| && ProgramCode(p)[s.pc] == Call(f) && Src.FindFun(p, f) == Some(b.d)
    requires b.entry == |s.stack| + 1 && b.ret == s.pc + 1
    ensures Frames(p, strict, acts, b.ret, s.stack) && acts != [] && Called(p, strict, Last(acts), b)
    ensures strict ==> |b.d.params| <= |s.stack| && s.ebp == StackAt(-4 * (|s.stack| - |b.d.params|)) && f != "main"
  {
    hide FunCode, ProgramCode, AliveAt, AbsAt, WordsAgree, Located, Meant, Frames;
    Running(p, strict, s, acts);
    var a := Last(acts);
    var x, plan := AbsAt(p, strict, a, s.pc), PlanOf(p, strict, a.d);
    NextPoint(p, strict, a, s.pc);
    var c := AbsAt(p, strict, a, s.pc + 1);
    assert Covers(c, x.(eax := Any, ebx := Any, edi := Any)) && CallOk(f, x, plan);
    CoverAgrees(c, x.(eax := Any, ebx := Any, edi := Any), s, a.entry);
    FramesMove(p, strict, acts, s.pc, s.stack, s.pc + 1, s.stack);
  }

  lemma StepCall(p: Src.Program, strict: bool, s: State, t: State, acts: seq<Act>, f: string)
    requires Meant(p, strict) && Inv(p, strict, s, acts) && Step(ProgramCode(p), s) == Some(t)
    requires ProgramCode(p)[s.pc] == Call(f)
    ensures t.stack == s.stack + [CodeAt(s.pc + 1)]
    ensures Src.FindFun(p, f).Some? && Inv(p, strict, t, acts + [Callee(p, s, t, f)])
  {
    hide FunCode, ProgramCode, AliveAt, AbsAt, WordsAgree, Frames, Called, OnTop;
    EntryOf(p, f);
    var b := Callee(p, s, t, f);
    CallerWaits(p, strict, s, acts, b, f);
    assert t.stack[..b.entry - 1] == s.stack;
    EntryOnTop(p, strict, b, t.stack);
    FramesPush(p, strict, acts, b, t.pc, t.stack);
    assert Last(acts + [b]) == b;
    assert Inv(p, strict, t, acts + [b]);
  }

  lemma StepRet(p: Src.Program, strict: bool, s: State, t: State, acts: seq<Act>)
    requires Meant(p, strict) && Inv(p, strict, s, acts) && Step(ProgramCode(p), s) == Some(t)
    requires ProgramCode(p)[s.pc] == Ret
    requires !strict ==> s.stack != [] && s.stack[|s.stack| - 1] == CodeAt(Last(acts).ret)
    ensures acts != [] && s.stack != [] && s.stack[|s.stack| - 1] == CodeAt(Last(acts).ret)
    ensures |s.stack| == Last(acts).entry && t.pc == Last(acts).ret && t.stack == s.stack[..Last(acts).entry - 1]
    ensures |acts| > 1 ==> Inv(p, strict, t, Rest(acts))
  {
    hide FunCode, ProgramCode, AliveAt, AbsAt, WordsAgree, Located, Meant;
    Running(p, strict, s, acts);
    var a := Last(acts);
    NextPoint(p, strict, a, s.pc);
    assert AbsAt(p, strict, a, s.pc).words == [] && AbsAt(p, strict, a, s.pc).ebp == Own(PlanOf(p, strict, a.d));
    if |acts| > 1 {
      assert acts[|acts| - 2] == Last(Rest(acts));
    }
  }

  // ----- runs -----

  /** The return addresses of all activations. */
  function Rets(acts: seq<Act>): seq<nat> { seq(|acts|, i requires 0 <= i < |acts| => acts[i].ret) }

  /** A call adds the address behind it; a return takes the last one. */
  function Track(code: Code, s: State, rets: seq<nat>): seq<nat>
    requires s.pc < |code|
  {
    if code[s.pc].Call? then rets + [s.pc + 1]
    else if code[s.pc].Ret? && rets != [] then rets[..|rets| - 1]
    else rets
  }

  /** Every return of the first k steps goes back to behind its call, as long as the first activation is there. */
  predicate ReturnsMatch(code: Code, s: State, rets: seq<nat>, k: nat)
    decreases k
  {
    k == 0 || rets == [] || s.pc >= |code| ||
      ((code[s.pc].Ret? ==> s.stack != [] && s.stack[|s.stack| - 1] == CodeAt(rets[|rets| - 1]))
      && (Step(code, s).Some? ==> ReturnsMatch(code, Step(code, s).value, Track(code, s, rets), k - 1)))
  }

  lemma RetsLast(acts: seq<Act>)
    ensures |Rets(acts)| == |acts| && (acts != [] ==> Rets(acts)[|acts| - 1] == Last(acts).ret)
  {
  }

  /** One step; no activation is left when the first one has returned. */
  lemma StepInv(p: Src.Program, strict: bool, s: State, t: State, acts: seq<Act>) returns (bs: seq<Act>)
    requires Meant(p, strict) && Inv(p, strict, s, acts) && Step(ProgramCode(p), s) == Some(t)
    requires strict || ReturnsMatch(ProgramCode(p), s, Rets(acts), 1)
    ensures acts != [] && Rets(bs) == Track(ProgramCode(p), s, Rets(acts))
    ensures var i := ProgramCode(p)[s.pc];
      && (i.Call? ==> bs != [] && Rest(bs) == acts && Last(bs).entry == |s.stack| + 1 && Last(bs).ret == s.pc + 1)
      && (i.Ret? ==> bs == Rest(acts))
      && (!i.Call? && !i.Ret? ==> bs == acts)
    ensures ProgramCode(p)[s.pc].Ret? ==> s.stack != [] && s.stack[|s.stack| - 1] == CodeAt(Last(acts).ret)
    ensures bs == [] ==> |acts| == 1 && t.pc == acts[0].ret && |t.stack| == acts[0].entry - 1
    ensures bs != [] ==> Inv(p, strict, t, bs) && bs[0] == acts[0]
  {
    hide Inv, Meant, ProgramCode, Step, FunCode, OnTop, RegsAgree;
    Running(p, strict, s, acts);
    var i := ProgramCode(p)[s.pc];
    RetsLast(acts);
    if i.Call? {
      StepCall(p, strict, s, t, acts, i.f);
      bs := acts + [Callee(p, s, t, i.f)];
      assert Rets(bs) == Rets(acts) + [s.pc + 1];
    } else if i.Ret? {
      StepRet(p, strict, s, t, acts);
      bs := Rest(acts);
      assert Rets(bs) == Rets(acts)[..|acts| - 1];
    } else {
      bs := acts;
      if i.StoreEbx? {
        StepStore(p, strict, s, t, acts);
      } else if i.Je? || i.Jne? || i.Jmp? {
        StepJump(p, strict, s, t, acts);
      } else {
        StepInner(p, strict, s, t, acts);
      }
    }
  }

  /** Every run: after k steps the invariant holds, or before that the first activation has returned. */
  lemma {:induction false} RunInv(p: Src.Program, strict: bool, s: State, acts: seq<Act>, k: nat)
    returns (j: nat, t: State, bs: seq<Act>)
    requires Meant(p, strict) && Inv(p, strict, s, acts) && Run(ProgramCode(p), s, k).Some?
    requires strict || ReturnsMatch(ProgramCode(p), s, Rets(acts), k)
    ensures acts != [] && ReturnsMatch(ProgramCode(p), s, Rets(acts), k)
    ensures j <= k && Run(ProgramCode(p), s, j) == Some(t)
    ensures bs == [] ==> t.pc == acts[0].ret && |t.stack| == acts[0].entry - 1
    ensures bs != [] ==> j == k && Inv(p, strict, t, bs) && bs[0] == acts[0]
    decreases k
  {
    hide Inv, Meant, ProgramCode, Step, Track, Rets, FunCode, OnTop, RegsAgree;
    Running(p, strict, s, acts);
    RetsLast(acts);
    j, t, bs := 0, s, acts;
    if k > 0 {
      var u := Step(ProgramCode(p), s).value;
      var cs := StepInv(p, strict, s, u, acts);
      RetsLast(cs);
      if cs == [] {
        j, t, bs := 1, u, [];
        assert Run(ProgramCode(p), u, 0) == Some(u);
      } else {
        j, t, bs := RunInv(p, strict, u, cs, k - 1);
        j := j + 1;
      }
    }
  }

  // ----- what the invariant says of esp -----

  /** esp is below ebp by the arguments, the return address and n locals. */
  predicate EspAt(s: State, params: nat, n: nat) {
    s.ebp.StackAt? && -4 * |s.stack| == s.ebp.offset - 4 * (params + 1 + n)
  }

  /**
    The stack is as high as the source text says: at every statement there are as many words above
    the return address as locals are live, and so at every label; at `ret` there are none. In
    strict mode that is a statement about ebp, and the return address is the one that was pushed.
   */
  ghost predicate Steady(p: Src.Program, strict: bool, s: State, a: Act) {
    && (forall path {:trigger Walk(Whole(a.d), path)} :: Walk(Whole(a.d), path).Some? ==>
      var y := Walk(Whole(a.d), path).value;
      s.pc == a.pos + y.off && y.Code() != [] ==>
        |s.stack| == a.entry + |y.env.locals| && (strict ==> EspAt(s, |a.d.params|, |y.env.locals|)))
    && s.pc < |ProgramCode(p)|
    && var i := ProgramCode(p)[s.pc];
      && (i.Mark? && i.l.LocalL? ==>
        && i.l.num < |Heights(EnvOf(a.d), a.d.body)|
        && |s.stack| == a.entry + Heights(EnvOf(a.d), a.d.body)[i.l.num]
        && (strict ==> EspAt(s, |a.d.params|, Heights(EnvOf(a.d), a.d.body)[i.l.num])))
      && (i.Ret? ==>
        && |s.stack| == a.entry && (strict ==> EspAt(s, |a.d.params|, 0))
        && (strict ==> s.stack != [] && s.stack[|s.stack| - 1] == CodeAt(a.ret)))
  }

  lemma EspFromOwn(p: Src.Program, strict: bool, s: State, acts: seq<Act>)
    requires Inv(p, strict, s, acts) && acts != []
    requires AliveAt(p, strict, Last(acts), s.pc)
    requires AbsAt(p, strict, Last(acts), s.pc).ebp == Own(PlanOf(p, strict, Last(acts).d))
    ensures var n := |AbsAt(p, strict, Last(acts), s.pc).words|;
      |s.stack| == Last(acts).entry + n && (strict ==> EspAt(s, |Last(acts).d.params|, n))
  {
    hide AliveAt, AbsAt, Located, Called;
  }

  /** The flow through a function up to a statement in it. */
  lemma SpotPrefix(p: Src.Program, strict: bool, d: Src.Fun, path: seq<nat>, y: Spot) returns (g: Point)
    requires Meant(p, strict) && d in p && (strict ==> d.name != "main")
    requires Walk(Whole(d), path) == Some(y) && y.Code() != []
    ensures 0 < y.off < |FunCode(d)| && FunCode(d)[y.off] == y.Code()[0]
    ensures FlowCode(FunCode(d)[..y.off], Live(Start(d)), PlanOf(p, strict, d)) == Ok(g)
    ensures SpotOk(y, PlanOf(p, strict, d), g)
  {
    hide FlowCode, StmtCode, TameFun, SpotOk, Walk, FunCode, Meant;
    var plan, h, body := PlanOf(p, strict, d), Live(Start(d)), Whole(d).Code();
    WholeOk(p, strict, d);
    g := WalkFlow(Whole(d), path, y, plan, h);
    FunctionPrefix(d, y.off - 1);
    FlowConcat([Mark(FunctionL(d.name))], body[..y.off - 1], h, plan);
    FlowOne(Mark(FunctionL(d.name)), h, plan);
    OccursAt(body, y.off - 1, y.Code(), 0);
  }

  /** At the start of a statement that has code, if control gets there at all, just the live locals are above the return address. */
  lemma PointOfSpot(p: Src.Program, strict: bool, a: Act, path: seq<nat>, y: Spot)
    requires Meant(p, strict) && a.d in p && (strict ==> a.d.name != "main")
    requires Walk(Whole(a.d), path) == Some(y) && y.Code() != [] && AliveAt(p, strict, a, a.pos + y.off)
    ensures var b := AbsAt(p, strict, a, a.pos + y.off); |b.words| == |y.env.locals| && b.ebp == Own(PlanOf(p, strict, a.d))
  {
    hide FlowCode, StmtCode, FunCode, Meant, SpotOk, Walk;
    var g := SpotPrefix(p, strict, a.d, path, y);
    if y.Code()[0].Mark? && y.Code()[0].l.LocalL? {
      FirstLabel(y, PlanOf(p, strict, a.d), g);
    } else {
      Arrived(y, PlanOf(p, strict, a.d), g);
    }
  }

  lemma Arrived(y: Spot, plan: Plan, g: Point)
    requires SpotOk(y, plan, g)
    ensures Arrives(g, y.env, plan)
  {
  }

  lemma WholeOk(p: Src.Program, strict: bool, d: Src.Fun)
    requires Meant(p, strict) && d in p && (strict ==> d.name != "main")
    ensures SpotOk(Whole(d), PlanOf(p, strict, d), Live(Start(d)))
  {
    assert Placed(PlanOf(p, strict, d).lab, 0, PlanOf(p, strict, d).lab);
  }

  lemma FunctionPrefix(d: Src.Fun, k: nat)
    requires k <= |Whole(d).Code()|
    ensures k + 1 <= |FunCode(d)| && FunCode(d)[..k + 1] == [Mark(FunctionL(d.name))] + Whole(d).Code()[..k]
    ensures k < |Whole(d).Code()| ==> k + 1 < |FunCode(d)| && FunCode(d)[k + 1] == Whole(d).Code()[k]
  {
    hide StmtCode;
  }

  /** A statement that begins with a label begins with one of its own height. */
  lemma FirstLabel(y: Spot, plan: Plan, g: Point)
    requires SpotOk(y, plan, g) && y.Code() != [] && y.Code()[0].Mark? && y.Code()[0].l.LocalL?
    ensures y.Code()[0].l.num < |plan.lab| && plan.lab[y.Code()[0].l.num] == |y.env.locals|
  {
    hide StmtCode, FlowCode, TameStmt;
    var code := y.Code();
    var h := Live(Abs(Anys(|y.env.locals|), Any, Any, Own(plan), Any));
    StmtFlow(y.env, y.n, y.brk, y.ret, y.s, plan, h);
    assert code == [code[0]] + code[1..];
    FlowConcat([code[0]], code[1..], h, plan);
    FlowOne(code[0], h, plan);
  }

  lemma InvSteady(p: Src.Program, strict: bool, s: State, acts: seq<Act>)
    requires Meant(p, strict) && Inv(p, strict, s, acts)
    ensures acts != [] && Steady(p, strict, s, Last(acts))
  {
    hide Inv, Meant, ProgramCode, FunCode, AliveAt, AbsAt, Walk, StmtCode, Heights, EspAt;
    Running(p, strict, s, acts);
    var a := Last(acts);
    forall path {:trigger Walk(Whole(a.d), path)} | Walk(Whole(a.d), path).Some?
      ensures var y := Walk(Whole(a.d), path).value;
        s.pc == a.pos + y.off && y.Code() != [] ==>
          |s.stack| == a.entry + |y.env.locals| && (strict ==> EspAt(s, |a.d.params|, |y.env.locals|))
    {
      var y := Walk(Whole(a.d), path).value;
      if s.pc == a.pos + y.off && y.Code() != [] {
        PointOfSpot(p, strict, a, path, y);
        EspFromOwn(p, strict, s, acts);
      }
    }
    NextPoint(p, strict, a, s.pc);
    LabelOrRet(p, strict, s, acts);
  }

  lemma LabelOrRet(p: Src.Program, strict: bool, s: State, acts: seq<Act>)
    requires Meant(p, strict) && Inv(p, strict, s, acts)
    ensures acts != [] && s.pc < |ProgramCode(p)|
    ensures var a, i := Last(acts), ProgramCode(p)[s.pc];
      && (i.Mark? && i.l.LocalL? ==>
        && i.l.num < |Heights(EnvOf(a.d), a.d.body)|
        && |s.stack| == a.entry + Heights(EnvOf(a.d), a.d.body)[i.l.num]
        && (strict ==> EspAt(s, |a.d.params|, Heights(EnvOf(a.d), a.d.body)[i.l.num])))
      && (i.Ret? ==>
        && |s.stack| == a.entry && (strict ==> EspAt(s, |a.d.params|, 0))
        && (strict ==> s.stack != [] && s.stack[|s.stack| - 1] == CodeAt(a.ret)))
  {
    hide Meant, ProgramCode, FunCode, AliveAt, AbsAt, EspAt, Located, Called, RegsAgree, WordsAgree;
    Running(p, strict, s, acts);
    var a := Last(acts);
    NextPoint(p, strict, a, s.pc);
    var i, x := ProgramCode(p)[s.pc], AbsAt(p, strict, a, s.pc);
    if (i.Mark? && i.l.LocalL?) || i.Ret? { EspFromOwn(p, strict, s, acts); }
  }

  // ----- when returns match -----

  /** The words that hold return addresses. */
  function Slots(acts: seq<Act>): seq<int> { seq(|acts|, i requires 0 <= i < |acts| => acts[i].entry - 1) }

  function TrackSlots(code: Code, s: State, slots: seq<int>): seq<int>
    requires s.pc < |code|
  {
    if code[s.pc].Call? then slots + [|s.stack|]
    else if code[s.pc].Ret? && slots != [] then slots[..|slots| - 1]
    else slots
  }

  /** No store of the first k steps goes to a return address, as long as the first activation is there. */
  predicate StoresApart(code: Code, s: State, slots: seq<int>, k: nat)
    decreases k
  {
    k == 0 || slots == [] || s.pc >= |code| ||
      ((code[s.pc].StoreEbx? && s.ebx.StackAt? ==> SlotAt(s.ebx.offset) !in slots)
      && (Step(code, s).Some? ==> StoresApart(code, Step(code, s).value, TrackSlots(code, s, slots), k - 1)))
  }

  /** Every activation finds its return address in its place. */
  predicate Held(acts: seq<Act>, stack: seq<Value>) {
    forall i :: 0 <= i < |acts| ==> 0 < acts[i].entry <= |stack| && stack[acts[i].entry - 1] == CodeAt(acts[i].ret)
  }

  lemma {:induction false} EntriesRise(p: Src.Program, strict: bool, acts: seq<Act>, pc: nat, stack: seq<Value>)
    requires Frames(p, strict, acts, pc, stack)
    ensures forall i :: 0 <= i < |acts| - 1 ==> acts[i].entry < Last(acts).entry
    decreases |acts|
  {
    hide OnTop, Called;
    Runs(p, strict, acts, pc, stack);
    if |acts| > 1 {
      var rest := Rest(acts);
      EntriesRise(p, strict, rest, Last(acts).ret, stack[..Last(acts).entry - 1]);
      Runs(p, strict, rest, Last(acts).ret, stack[..Last(acts).entry - 1]);
      forall i | 0 <= i < |acts| - 1 ensures acts[i].entry < Last(acts).entry {
        Fit(p, strict, Last(acts), pc, stack);
        Fit(p, strict, Last(rest), Last(acts).ret, stack[..Last(acts).entry - 1]);
        assert acts[i] == rest[i];
      }
    }
  }

  lemma Fit(p: Src.Program, strict: bool, a: Act, pc: nat, stack: seq<Value>)
    requires OnTop(p, strict, a, pc, stack)
    ensures 0 < a.entry <= |stack|
  {
  }

  /** What a step that returns to its caller, if it returns, leaves of the words up to the return address. */
  lemma StepBelow(p: Src.Program, s: State, t: State, acts: seq<Act>)
    requires Meant(p, false) && Inv(p, false, s, acts) && Step(ProgramCode(p), s) == Some(t)
    ensures acts != [] && s.pc < |ProgramCode(p)| && 0 < Last(acts).entry <= |s.stack|
    ensures var i, n := ProgramCode(p)[s.pc], Last(acts).entry;
      && (i.Call? ==> t.stack == s.stack + [CodeAt(s.pc + 1)])
      && (i.Ret? ==> |s.stack| == n && t.stack == s.stack[..n - 1])
      && (i.StoreEbx? && s.ebx.StackAt? ==>
        var k := SlotAt(s.ebx.offset); 0 <= k < |s.stack| && t.stack == s.stack[k := s.eax])
      && (!i.Call? && !i.Ret? && !(i.StoreEbx? && s.ebx.StackAt?) ==> n <= |t.stack| && t.stack[..n] == s.stack[..n])
  {
    hide FunCode, ProgramCode, AliveAt, AbsAt, Inv, WordsAgree, RegsAgree, Located, Meant, AbsStep, Exec;
    Running(p, false, s, acts);
    LabelOrRet(p, false, s, acts);
    var a, code := Last(acts), ProgramCode(p);
    var i, x, plan := code[s.pc], AbsAt(p, false, a, s.pc), PlanOf(p, false, a.d);
    if Inner(i) {
      NextPoint(p, false, a, s.pc);
      InnerSound(code, i, s, t, x, a.entry, plan);
    } else {
      ExecStack(code, i, s, t);
    }
  }

  /** What the other instructions do to the stack. */
  lemma ExecStack(code: Code, i: Instr, s: State, t: State)
    requires !Inner(i) && Exec(code, i, s) == Some(t)
    ensures i.Call? ==> t.stack == s.stack + [CodeAt(s.pc + 1)]
    ensures i.Ret? ==> s.stack != [] && t.stack == s.stack[..|s.stack| - 1]
    ensures i.StoreEbx? && s.ebx.StackAt? ==>
      var k := SlotAt(s.ebx.offset); 0 <= k < |s.stack| && t.stack == s.stack[k := s.eax]
    ensures !i.Call? && !i.Ret? && !(i.StoreEbx? && s.ebx.StackAt?) ==> t.stack == s.stack
  {
  }

  lemma SlotsLength(acts: seq<Act>)
    ensures |Slots(acts)| == |acts|
  {
  }

  lemma OfFrames(p: Src.Program, s: State, acts: seq<Act>)
    requires Inv(p, false, s, acts)
    ensures Frames(p, false, acts, s.pc, s.stack)
  {
  }

  lemma HeldNext(p: Src.Program, s: State, t: State, acts: seq<Act>, bs: seq<Act>)
    requires Meant(p, false) && Inv(p, false, s, acts) && Held(acts, s.stack) && Step(ProgramCode(p), s) == Some(t)
    requires s.pc < |ProgramCode(p)| && acts != []
    requires var i := ProgramCode(p)[s.pc];
      && (i.Call? ==> bs != [] && Rest(bs) == acts && Last(bs).entry == |s.stack| + 1 && Last(bs).ret == s.pc + 1)
      && (i.Ret? ==> bs == Rest(acts))
      && (!i.Call? && !i.Ret? ==> bs == acts)
      && (i.StoreEbx? && s.ebx.StackAt? ==> SlotAt(s.ebx.offset) !in Slots(acts))
    ensures Held(bs, t.stack) && Slots(bs) == TrackSlots(ProgramCode(p), s, Slots(acts))
  {
    hide Inv, Meant, ProgramCode, Step, OnTop, Held, Slots;
    SlotsLength(acts);
    StepBelow(p, s, t, acts);
    OfFrames(p, s, acts);
    EntriesRise(p, false, acts, s.pc, s.stack);
    var i, n := ProgramCode(p)[s.pc], Last(acts).entry;
    if i.Call? {
      HeldCall(acts, bs, s.stack, s.pc + 1);
    } else if i.Ret? {
      HeldRest(acts, s.stack, n);
    } else if i.StoreEbx? && s.ebx.StackAt? {
      HeldStore(acts, s.stack, SlotAt(s.ebx.offset), s.eax);
    } else {
      HeldBelow(acts, s.stack, t.stack, n);
    }
  }

  lemma HeldCall(acts: seq<Act>, bs: seq<Act>, stack: seq<Value>, ret: nat)
    requires Held(acts, stack) && bs != [] && Rest(bs) == acts && Last(bs).entry == |stack| + 1 && Last(bs).ret == ret
    ensures Held(bs, stack + [CodeAt(ret)]) && Slots(bs) == Slots(acts) + [|stack|]
  {
    assert bs == acts + [Last(bs)];
  }

  lemma HeldRest(acts: seq<Act>, stack: seq<Value>, n: nat)
    requires Held(acts, stack) && acts != [] && n == |stack| && n > 0
    requires forall j :: 0 <= j < |acts| - 1 ==> acts[j].entry < n
    ensures Held(Rest(acts), stack[..n - 1]) && Slots(Rest(acts)) == Slots(acts)[..|acts| - 1]
  {
  }

  lemma HeldStore(acts: seq<Act>, stack: seq<Value>, k: nat, v: Value)
    requires Held(acts, stack) && k < |stack| && k !in Slots(acts)
    ensures Held(acts, stack[k := v])
  {
    forall j | 0 <= j < |acts| ensures acts[j].entry - 1 != k {
      assert Slots(acts)[j] == acts[j].entry - 1;
    }
  }

  lemma HeldBelow(acts: seq<Act>, stack: seq<Value>, stack1: seq<Value>, n: nat)
    requires Held(acts, stack) && n <= |stack| && n <= |stack1| && stack1[..n] == stack[..n]
    requires forall j :: 0 <= j < |acts| ==> acts[j].entry <= n
    ensures Held(acts, stack1)
  {
    forall j | 0 <= j < |acts| ensures acts[j].entry <= |stack1| && stack1[acts[j].entry - 1] == stack[acts[j].entry - 1] {
      assert stack1[..n][acts[j].entry - 1] == stack[..n][acts[j].entry - 1];
    }
  }

  /** If no store goes to a return address, every return goes back to behind its call. */
  lemma {:induction false} ReturnsIfStoresApart(p: Src.Program, s: State, acts: seq<Act>, k: nat)
    requires Meant(p, false) && Inv(p, false, s, acts) && Held(acts, s.stack)
    requires StoresApart(ProgramCode(p), s, Slots(acts), k)
    ensures ReturnsMatch(ProgramCode(p), s, Rets(acts), k)
    decreases k
  {
    hide Inv, Meant, ProgramCode, Step, Track, Rets, Slots, FunCode, OnTop, RegsAgree, TrackSlots;
    Running(p, false, s, acts);
    RetsLast(acts);
    LabelOrRet(p, false, s, acts);
    assert |Slots(acts)| == |acts| by { SlotsLength(acts); }
    assert 0 < Last(acts).entry <= |s.stack| && s.stack[Last(acts).entry - 1] == CodeAt(Last(acts).ret);
    if k > 0 && Step(ProgramCode(p), s).Some? {
      var t := Step(ProgramCode(p), s).value;
      assert ReturnsMatch(ProgramCode(p), s, Rets(acts), 1);
      var bs := StepInv(p, false, s, t, acts);
      RetsLast(bs);
      HeldNext(p, s, t, acts, bs);
      if bs != [] { ReturnsIfStoresApart(p, t, bs, k - 1); }
    }
  }

  lemma StartInv(p: Src.Program, strict: bool, d: Src.Fun, s: State, ra: nat)
    requires Distinct(p) && Src.FindFun(p, d.name) == Some(d) && Find(ProgramCode(p), FunctionL(d.name)) == Some(s.pc) && s.stack != []
    requires strict ==>
      && d.name != "main" && |s.stack| >= |d.params| + 1 && s.stack[|s.stack| - 1] == CodeAt(ra)
      && s.ebp == StackAt(-4 * (|s.stack| - 1 - |d.params|))
    ensures Inv(p, strict, s, [Act(d, s.pc, |s.stack|, ra)])
  {
    hide FunCode, ProgramCode, OnTop, AbsAt;
    var a := Act(d, s.pc, |s.stack|, ra);
    EntryOf(p, d.name);
    EntryOnTop(p, strict, a, s.stack);
    FramesPush(p, strict, [], a, s.pc, s.stack);
    assert [] + [a] == [a];
  }

  /**
    All runs of programs whose functions store to their own variables and pass as many values as
    there are parameters, from the entry of any function but main: every return goes back to behind
    its call, and until the first activation has returned esp is, at every statement, at every label
    and at every `ret`, below ebp by the arguments, the return address and the live locals.
   */
  lemma AlwaysBalanced(p: Src.Program, d: Src.Fun, s: State, below: seq<Value>, args: seq<Value>, ra: nat, k: nat)
    returns (j: nat, t: State, acts: seq<Act>)
    requires Distinct(p) && (forall e :: e in p ==> WellFormed(e)) && (forall e :: e in p && e.name != "main" ==> TameFun(p, e))
    requires Src.FindFun(p, d.name) == Some(d) && d.name != "main" && |args| == |d.params|
    requires Find(ProgramCode(p), FunctionL(d.name)) == Some(s.pc)
    requires s.stack == below + args + [CodeAt(ra)] && s.ebp == StackAt(-4 * |below|)
    requires Run(ProgramCode(p), s, k).Some?
    ensures ReturnsMatch(ProgramCode(p), s, [ra], k)
    ensures j <= k && Run(ProgramCode(p), s, j) == Some(t)
    ensures acts == [] ==> t.pc == ra && |t.stack| == |below| + |args|
    ensures acts != [] ==> j == k && Steady(p, true, t, Last(acts)) && acts[0].d == d && acts[0].entry == |s.stack|
  {
    hide Inv, ProgramCode, Steady, ReturnsMatch, Run, TameFun;
    var a := Act(d, s.pc, |s.stack|, ra);
    StartInv(p, true, d, s, ra);
    j, t, acts := RunInv(p, true, s, [a], k);
    assert Rets([a]) == [ra];
    if acts != [] { InvSteady(p, true, t, acts); }
  }

  /**
    All runs of all programs, main included: as long as no store has gone to the return address of
    an activation, every return goes back to behind its call, and the stack is as high above the
    return address as the live locals at every statement and label, and not higher at every `ret`.
   */
  lemma BalancedUnlessOverwritten(p: Src.Program, d: Src.Fun, s: State, ra: nat, k: nat)
    returns (j: nat, t: State, acts: seq<Act>)
    requires Distinct(p) && forall e :: e in p ==> WellFormed(e)
    requires Src.FindFun(p, d.name) == Some(d) && Find(ProgramCode(p), FunctionL(d.name)) == Some(s.pc)
    requires s.stack != [] && s.stack[|s.stack| - 1] == CodeAt(ra)
    requires Run(ProgramCode(p), s, k).Some? && StoresApart(ProgramCode(p), s, [|s.stack| - 1], k)
    ensures ReturnsMatch(ProgramCode(p), s, [ra], k)
    ensures j <= k && Run(ProgramCode(p), s, j) == Some(t)
    ensures acts == [] ==> t.pc == ra && |t.stack| == |s.stack| - 1
    ensures acts != [] ==> j == k && Steady(p, false, t, Last(acts)) && acts[0].d == d && acts[0].entry == |s.stack|
  {
    hide Inv, ProgramCode, Steady, ReturnsMatch, StoresApart, Run;
    var a := Act(d, s.pc, |s.stack|, ra);
    StartInv(p, false, d, s, ra);
    assert Rets([a]) == [ra] && Slots([a]) == [|s.stack| - 1];
    ReturnsIfStoresApart(p, s, [a], k);
    j, t, acts := RunInv(p, false, s, [a], k);
    if acts != [] { InvSteady(p, false, t, acts); }
  }
}
