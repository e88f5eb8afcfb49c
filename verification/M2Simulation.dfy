/**
  The simulation relation between the source semantics and the machine, and the steps of
  the proof that need no induction: operators, variables, frames being built and torn down.
 */
module M2Simulation {
  import opened Options
  import opened M2Word
  import opened M2Machine
  import opened M2Codegen
  import Src = M2Source

  /** A machine value carries out a source value: equal when that is a number, anything otherwise. */
  predicate Refines(v: Src.Num, m: Value) { v.Some? ==> m == Int(v.value) }

  predicate RefinesCells(cells: seq<Src.Cell>, ms: seq<Value>) {
    |cells| == |ms| && forall i :: 0 <= i < |ms| ==> Refines(cells[i].val, ms[i])
  }

  predicate RefinesAll(vs: seq<Src.Num>, ms: seq<Value>) {
    |vs| == |ms| && forall i :: 0 <= i < |ms| ==> Refines(vs[i], ms[i])
  }

  /** The memory an activation sees. */
  datatype Mem = Mem(args: seq<Value>, locals: seq<Value>, globals: map<string, Value>)

  predicate Rel(fr: Src.Frame, g: Src.Globals, m: Mem) {
    && RefinesCells(fr.args, m.args) && RefinesCells(fr.locals, m.locals)
    && RelGlobals(g, m.globals)
  }

  predicate RelGlobals(g: Src.Globals, mg: map<string, Value>) {
    g.Keys == mg.Keys && forall x :: x in g ==> Refines(g[x], mg[x])
  }

  /** The stack of an activation whose caller left `below`: arguments, return address, locals. */
  function FrameStack(c: Ctx, m: Mem): (r: seq<Value>)
    ensures |r| == |c.below| + |m.args| + 1 + |m.locals|
  {
    c.below + m.args + [CodeAt(c.ra)] + m.locals
  }

  /** What stays fixed while one activation runs. */
  datatype Ctx = Ctx(code: Code, p: Src.Program, below: seq<Value>, ra: nat, edi: Value)

  /** The machine is inside the activation, with temporaries above the locals. */
  predicate In(c: Ctx, s: State, pc: nat, m: Mem, temps: seq<Value>) {
    && s.pc == pc
    && s.ebp == StackAt(-4 * |c.below|)
    && s.edi == c.edi
    && s.stack == FrameStack(c, m) + temps
    && s.globals == m.globals
  }

  predicate Matches(env: Env, fr: Src.Frame) {
    env.scope == fr.scope && env.args == Src.Names(fr.args) && env.locals == Src.LocalNames(fr)
    && env.fname != "main"
  }

  /** One more instruction after s0 has reached s. */
  lemma Go(code: Code, s0: State, s: State, instr: Instr) returns (t: State)
    requires Reaches(code, s0, s)
    requires s.pc < |code| && code[s.pc] == instr
    requires Exec(code, instr, s).Some?
    ensures Exec(code, instr, s) == Some(t) && Reaches(code, s0, t)
  {
    hide Exec;
    t := Exec(code, instr, s).value;
    ReachesStep(code, s0, s, t);
  }

  /** The instructions of a short sequence, one by one. */
  lemma Fetch(code: Code, pc: nat, part: Code)
    requires Occurs(code, pc, part)
    ensures |part| > 0 ==> code[pc] == part[0]
    ensures |part| > 1 ==> code[pc + 1] == part[1]
    ensures |part| > 2 ==> code[pc + 2] == part[2]
    ensures |part| > 3 ==> code[pc + 3] == part[3]
    ensures |part| > 4 ==> code[pc + 4] == part[4]
  {
    if |part| > 0 { OccursAt(code, pc, part, 0); }
    if |part| > 1 { OccursAt(code, pc, part, 1); }
    if |part| > 2 { OccursAt(code, pc, part, 2); }
    if |part| > 3 { OccursAt(code, pc, part, 3); }
    if |part| > 4 { OccursAt(code, pc, part, 4); }
  }

  /** Popping the left operand and running the operator's code computes the operator. */
  lemma OperatorCorrect(code: Code, s: State, op: Src.BinOp, rest: seq<Value>, a: Word, b: Word) returns (t: State)
    requires Occurs(code, s.pc, [PopEbx] + OperatorCode(op))
    requires s.stack == rest + [Int(a)] && s.eax == Int(b)
    requires Src.Apply(op, a, b).Some?
    ensures Reaches(code, s, t)
    ensures t == s.(pc := s.pc + 1 + |OperatorCode(op)|, eax := Int(Src.Apply(op, a, b).value),
                    ebx := t.ebx, ecx := t.ecx, edx := t.edx, stack := rest, flags := t.flags)
  {
    ReachesSelf(code, s);
    OccursSplit(code, s.pc, [PopEbx], OperatorCode(op));
    Fetch(code, s.pc, [PopEbx]);
    t := Go(code, s, s, PopEbx);
    assert t == s.(pc := s.pc + 1, ebx := Int(a), stack := rest);
    t := OperatorBody(code, s, t, op, a, b);
  }

  lemma OperatorBody(code: Code, s0: State, s: State, op: Src.BinOp, a: Word, b: Word) returns (t: State)
    requires Reaches(code, s0, s) && Occurs(code, s.pc, OperatorCode(op))
    requires s.ebx == Int(a) && s.eax == Int(b)
    requires Src.Apply(op, a, b).Some?
    ensures Reaches(code, s0, t)
    ensures t == s.(pc := s.pc + |OperatorCode(op)|, eax := Int(Src.Apply(op, a, b).value),
                    ebx := t.ebx, ecx := t.ecx, edx := t.edx, flags := t.flags)
  {
    hide Exec;
    Fetch(code, s.pc, OperatorCode(op));
    match op
    case Lt => t := CompareBody(code, s0, s, SetL, a, b);
    case Le => t := CompareBody(code, s0, s, SetLe, a, b);
    case Ge => t := CompareBody(code, s0, s, SetGe, a, b);
    case Gt => t := CompareBody(code, s0, s, SetG, a, b);
    case Eq => t := CompareBody(code, s0, s, SetE, a, b);
    case Ne => t := CompareBody(code, s0, s, SetNe, a, b);
    case Div | Mod => t := DivideBody(code, s0, s, op, a, b);
    case Shl | Shr => t := ShiftBody(code, s0, s, op, a, b);
    case Add | Mul | And | Or | Xor => t := SimpleBody(code, s0, s, op, a, b);
    case Sub => t := SubtractBody(code, s0, s, a, b);
  }

  lemma SimpleBody(code: Code, s0: State, s: State, op: Src.BinOp, a: Word, b: Word) returns (t: State)
    requires op in {Src.Add, Src.Mul, Src.And, Src.Or, Src.Xor}
    requires Reaches(code, s0, s) && s.pc < |code| && code[s.pc] == OperatorCode(op)[0]
    requires s.ebx == Int(a) && s.eax == Int(b)
    ensures Reaches(code, s0, t)
    ensures t == s.(pc := s.pc + 1, eax := Int(Src.Apply(op, a, b).value), edx := t.edx)
  {
    hide Wrap, Bits;
    assert forall l :: Bitwise(l, b, a) == Bitwise(l, a, b) by {
      forall l { BitsCommute(l, Unsigned(a), Unsigned(b), 32); }
    }
    match op
    case Add => t := Go(code, s0, s, AddEaxEbx);
    case Mul => assert a * b == b * a; t := Go(code, s0, s, ImulEbx);
    case And => t := Go(code, s0, s, LogicEaxEbx(LAnd));
    case Or => t := Go(code, s0, s, LogicEaxEbx(LOr));
    case Xor => t := Go(code, s0, s, LogicEaxEbx(LXor));
  }

  lemma SubtractBody(code: Code, s0: State, s: State, a: Word, b: Word) returns (t: State)
    requires Reaches(code, s0, s) && Occurs(code, s.pc, [SubEbxEax, MovEaxEbx])
    requires s.ebx == Int(a) && s.eax == Int(b)
    ensures Reaches(code, s0, t)
    ensures t == s.(pc := s.pc + 2, eax := Int(Wrap(a - b)), ebx := t.ebx)
  {
    hide Wrap;
    Fetch(code, s.pc, [SubEbxEax, MovEaxEbx]);
    t := Go(code, s0, s, SubEbxEax);
    t := Go(code, s0, t, MovEaxEbx);
  }

  lemma CompareBody(code: Code, s0: State, s: State, c: Cond, a: Word, b: Word) returns (t: State)
    requires Reaches(code, s0, s) && Occurs(code, s.pc, CompareCode(c))
    requires s.ebx == Int(a) && s.eax == Int(b)
    ensures Reaches(code, s0, t)
    ensures t == s.(pc := s.pc + 3, eax := Int(Src.Truth(Holds(c, a, b))), flags := t.flags)
  {
    hide WithLowByte, Wrap, Unsigned, Holds;
    Fetch(code, s.pc, CompareCode(c));
    t := Go(code, s0, s, CmpEbxEax);
    t := Go(code, s0, t, SetAl(c));
    SetByteRead(b, Src.Truth(Holds(c, a, b)));
    t := Go(code, s0, t, MovzxEaxAl);
  }

  lemma DivideBody(code: Code, s0: State, s: State, op: Src.BinOp, a: Word, b: Word) returns (t: State)
    requires Reaches(code, s0, s) && Occurs(code, s.pc, OperatorCode(op))
    requires op.Div? || op.Mod?
    requires Src.Apply(op, a, b).Some?
    requires s.ebx == Int(a) && s.eax == Int(b)
    ensures Reaches(code, s0, t)
    ensures t == s.(pc := s.pc + |OperatorCode(op)|, eax := Int(Src.Apply(op, a, b).value), ebx := t.ebx, edx := t.edx)
  {
    hide TruncDiv, TruncMod, Wrap;
    Fetch(code, s.pc, OperatorCode(op));
    TruncDivRange(a, b);
    WrapIdentity(TruncDiv(a, b));
    t := Go(code, s0, s, XchgEbxEax);
    t := Go(code, s0, t, Cdq);
    assert t.edx.n * 0x1_0000_0000 + Unsigned(t.eax.n) == a;
    t := Go(code, s0, t, IdivEbx);
    if op.Mod? { t := Go(code, s0, t, MovEaxEdx); }
  }

  lemma ShiftBody(code: Code, s0: State, s: State, op: Src.BinOp, a: Word, b: Word) returns (t: State)
    requires Reaches(code, s0, s) && Occurs(code, s.pc, OperatorCode(op))
    requires op.Shl? || op.Shr?
    requires s.ebx == Int(a) && s.eax == Int(b)
    ensures Reaches(code, s0, t)
    ensures t == s.(pc := s.pc + 3, eax := Int(Src.Apply(op, a, b).value), ecx := t.ecx)
  {
    hide Wrap, Pow2, Unsigned;
    Fetch(code, s.pc, OperatorCode(op));
    ShiftCount(b);
    t := Go(code, s0, s, MovEcxEax);
    t := Go(code, s0, t, MovEaxEbx);
    if op.Shl? { t := Go(code, s0, t, SalEaxCl); } else { t := Go(code, s0, t, SarEaxCl); }
  }

  /** Popping the operand pushed before a unary operator and running its code. */
  lemma UnaryCorrect(code: Code, s: State, op: Src.UnOp, rest: seq<Value>, preset: Value, v: Word) returns (t: State)
    requires Occurs(code, s.pc, [PopEbx] + UnaryCode(op))
    requires s.stack == rest + [preset] && s.eax == Int(v)
    requires op.Neg? ==> preset == Int(0)
    requires op.Not? ==> preset == Int(1)
    ensures Reaches(code, s, t)
    ensures t == s.(pc := s.pc + 1 + |UnaryCode(op)|, eax := Int(Src.Unary(op, v)),
                    ebx := t.ebx, stack := rest, flags := t.flags)
  {
    hide Wrap, Exec;
    OccursSplit(code, s.pc, [PopEbx], UnaryCode(op));
    var u := PopCorrect(code, s);
    assert u.stack == rest;
    match op
    case Neg => t := SubtractBody(code, s, u, 0, v);
    case Not => t := CompareBody(code, s, u, SetA, 1, v);
    case Compl => t := ComplementBody(code, s, u, v);
  }

  lemma ComplementBody(code: Code, s0: State, s: State, v: Word) returns (t: State)
    requires Reaches(code, s0, s) && Occurs(code, s.pc, [NotEax]) && s.eax == Int(v)
    ensures Reaches(code, s0, t) && t == s.(pc := s.pc + 1, eax := Int(Complement(v)))
  {
    Fetch(code, s.pc, [NotEax]);
    t := Go(code, s0, s, NotEax);
  }

  lemma PopCorrect(code: Code, s: State) returns (t: State)
    requires Occurs(code, s.pc, [PopEbx]) && |s.stack| > 0
    ensures Reaches(code, s, t) && t == s.(pc := s.pc + 1, ebx := Top(s), stack := Popped(s))
  {
    ReachesSelf(code, s);
    Fetch(code, s.pc, [PopEbx]);
    t := Go(code, s, s, PopEbx);
  }

  // ----- variables -----

  /** The address of a variable, as the compiler computes it from the frame register. */
  function AddressOf(c: Ctx, env: Env, x: string): Value {
    match Locate(env, x)
    case Local(i) => StackAt(-4 * |c.below| + LocalDepth(env, i))
    case Arg(i) => StackAt(-4 * |c.below| + ArgDepth(i))
    case _ => GlobalAt(x)
  }

  predicate IsVariable(env: Env, x: string) {
    Locate(env, x).Local? || Locate(env, x).Arg? || Locate(env, x).Global?
  }

  lemma AddressCorrect(c: Ctx, env: Env, s: State, x: string) returns (t: State)
    requires IsVariable(env, x) && s.ebp == StackAt(-4 * |c.below|)
    requires Occurs(c.code, s.pc, AddressCode(env, x))
    ensures Reaches(c.code, s, t) && |AddressCode(env, x)| == 1
    ensures t == s.(pc := s.pc + 1, eax := AddressOf(c, env, x))
  {
    ReachesSelf(c.code, s);
    Fetch(c.code, s.pc, AddressCode(env, x));
    match Locate(env, x)
    case Local(i) => t := Go(c.code, s, s, LeaEaxEbp(LocalDepth(env, i)));
    case Arg(i) => t := Go(c.code, s, s, LeaEaxEbp(ArgDepth(i)));
    case Global => t := Go(c.code, s, s, MovEaxGlobal(x));
  }

  /** Each argument and each local has a stack slot of its own, and its depth addresses it. */
  lemma ArgSlot(c: Ctx, m: Mem, temps: seq<Value>, i: nat, v: Value)
    requires i < |m.args|
    ensures SlotAt(-4 * |c.below| + ArgDepth(i)) == |c.below| + i < |FrameStack(c, m)|
    ensures (FrameStack(c, m) + temps)[|c.below| + i] == m.args[i]
    ensures (FrameStack(c, m) + temps)[|c.below| + i := v] == FrameStack(c, m.(args := m.args[i := v])) + temps
  {
  }

  lemma LocalSlot(c: Ctx, env: Env, m: Mem, temps: seq<Value>, i: nat, v: Value)
    requires env.fname != "main" && |env.args| == |m.args| && i < |m.locals|
    ensures SlotAt(-4 * |c.below| + LocalDepth(env, i)) == |c.below| + |m.args| + 1 + i < |FrameStack(c, m)|
    ensures (FrameStack(c, m) + temps)[|c.below| + |m.args| + 1 + i] == m.locals[i]
    ensures (FrameStack(c, m) + temps)[|c.below| + |m.args| + 1 + i := v]
         == FrameStack(c, m.(locals := m.locals[i := v])) + temps
  {
  }

  lemma FrameGlobals(c: Ctx, m: Mem, mg: map<string, Value>)
    ensures FrameStack(c, m.(globals := mg)) == FrameStack(c, m)
  {
  }

  /** Reading and writing one stack slot through an address register. */
  lemma LoadSlot(code: Code, s0: State, s: State, k: nat) returns (t: State)
    requires Reaches(code, s0, s) && Occurs(code, s.pc, [LoadEax])
    requires s.eax.StackAt? && ValidOffset(s, s.eax.offset) && SlotAt(s.eax.offset) == k
    ensures Reaches(code, s0, t) && t == s.(pc := s.pc + 1, eax := s.stack[k])
  {
    Fetch(code, s.pc, [LoadEax]);
    t := Go(code, s0, s, LoadEax);
  }

  lemma StoreSlot(code: Code, s0: State, s: State, k: nat) returns (t: State)
    requires Reaches(code, s0, s) && Occurs(code, s.pc, [StoreEbx])
    requires s.ebx.StackAt? && ValidOffset(s, s.ebx.offset) && SlotAt(s.ebx.offset) == k
    ensures Reaches(code, s0, t) && t == s.(pc := s.pc + 1, stack := s.stack[k := s.eax])
  {
    Fetch(code, s.pc, [StoreEbx]);
    t := Go(code, s0, s, StoreEbx);
  }

  lemma LoadGlobal(code: Code, s0: State, s: State, x: string) returns (t: State)
    requires Reaches(code, s0, s) && Occurs(code, s.pc, [LoadEax])
    requires s.eax == GlobalAt(x) && x in s.globals
    ensures Reaches(code, s0, t) && t == s.(pc := s.pc + 1, eax := s.globals[x])
  {
    Fetch(code, s.pc, [LoadEax]);
    t := Go(code, s0, s, LoadEax);
  }

  lemma StoreGlobal(code: Code, s0: State, s: State, x: string) returns (t: State)
    requires Reaches(code, s0, s) && Occurs(code, s.pc, [StoreEbx])
    requires s.ebx == GlobalAt(x) && x in s.globals
    ensures Reaches(code, s0, t) && t == s.(pc := s.pc + 1, globals := s.globals[x := s.eax])
  {
    Fetch(code, s.pc, [StoreEbx]);
    t := Go(code, s0, s, StoreEbx);
  }

  lemma ConstantLoad(code: Code, s: State, n: Word) returns (t: State)
    requires Occurs(code, s.pc, [MovEaxImm(n)])
    ensures Reaches(code, s, t) && t == s.(pc := s.pc + 1, eax := Int(n))
  {
    ReachesSelf(code, s);
    Fetch(code, s.pc, [MovEaxImm(n)]);
    t := Go(code, s, s, MovEaxImm(n));
  }

  lemma LoadCorrect(c: Ctx, env: Env, s: State, fr: Src.Frame, g: Src.Globals, m: Mem, temps: seq<Value>, x: string)
    returns (t: State)
    requires Occurs(c.code, s.pc, LoadCode(env, x))
    requires In(c, s, s.pc, m, temps) && Rel(fr, g, m) && Matches(env, fr)
    requires Src.Read(fr, g, x).Some?
    ensures Reaches(c.code, s, t)
    ensures In(c, t, s.pc + |LoadCode(env, x)|, m, temps)
    ensures Refines(Src.Read(fr, g, x).value, t.eax)
  {
    hide Src.Locate, Src.LastIndex, Exec, FrameStack;
    assert Locate(env, x) == Src.PlaceOf(fr, x);
    if Locate(env, x).Constant? {
      t := ConstantLoad(c.code, s, Locate(env, x).n);
    } else {
      OccursSplit(c.code, s.pc, AddressCode(env, x), [LoadEax]);
      var u := AddressCorrect(c, env, s, x);
      match Locate(env, x) {
        case Local(i) =>
          LocalSlot(c, env, m, temps, i, u.eax);
          t := LoadSlot(c.code, s, u, |c.below| + |fr.args| + 1 + i);
        case Arg(i) =>
          ArgSlot(c, m, temps, i, u.eax);
          t := LoadSlot(c.code, s, u, |c.below| + i);
        case Global =>
          t := LoadGlobal(c.code, s, u, x);
      }
    }
  }

  /** Storing through a popped address performs the source assignment. */
  lemma StoreCorrect(c: Ctx, env: Env, s: State, fr: Src.Frame, g: Src.Globals, m: Mem, temps: seq<Value>,
                     x: string, v: Src.Num) returns (t: State, m1: Mem)
    requires Occurs(c.code, s.pc, [PopEbx, StoreEbx])
    requires In(c, s, s.pc, m, temps + [AddressOf(c, env, x)])
    requires Rel(fr, g, m) && Matches(env, fr) && Refines(v, s.eax)
    requires Src.Write(fr, g, x, v).Some?
    ensures Reaches(c.code, s, t)
    ensures In(c, t, s.pc + 2, m1, temps) && t.eax == s.eax
    ensures var w := Src.Write(fr, g, x, v).value; Rel(w.0, w.1, m1)
  {
    hide Src.Locate, Src.LastIndex, Exec, FrameStack;
    assert Locate(env, x) == Src.PlaceOf(fr, x);
    assert [PopEbx, StoreEbx] == [PopEbx] + [StoreEbx];
    OccursSplit(c.code, s.pc, [PopEbx], [StoreEbx]);
    assert s.stack == (FrameStack(c, m) + temps) + [AddressOf(c, env, x)];
    var u := PopCorrect(c.code, s);
    assert u.stack == FrameStack(c, m) + temps;
    match Locate(env, x) {
      case Local(i) =>
        LocalSlot(c, env, m, temps, i, s.eax);
        t := StoreSlot(c.code, s, u, |c.below| + |fr.args| + 1 + i);
        m1 := m.(locals := m.locals[i := s.eax]);
      case Arg(i) =>
        ArgSlot(c, m, temps, i, s.eax);
        t := StoreSlot(c.code, s, u, |c.below| + i);
        m1 := m.(args := m.args[i := s.eax]);
      case Global =>
        t := StoreGlobal(c.code, s, u, x);
        m1 := m.(globals := m.globals[x := s.eax]);
        FrameGlobals(c, m, m1.globals);
    }
  }

  // ----- pushes and pops -----

  lemma PushCorrect(c: Ctx, s0: State, s: State, m: Mem, temps: seq<Value>) returns (t: State)
    requires Reaches(c.code, s0, s)
    requires Occurs(c.code, s.pc, [PushEax])
    requires In(c, s, s.pc, m, temps)
    ensures Reaches(c.code, s0, t)
    ensures In(c, t, s.pc + 1, m, temps + [s.eax]) && t.eax == s.eax
  {
    Fetch(c.code, s.pc, [PushEax]);
    t := Go(c.code, s0, s, PushEax);
    assert t.stack == FrameStack(c, m) + (temps + [s.eax]);
  }

  lemma {:induction false} PopsCorrect(code: Code, s0: State, s: State, rest: seq<Value>, n: nat) returns (t: State)
    requires Reaches(code, s0, s)
    requires Occurs(code, s.pc, Pops(n))
    requires |s.stack| == |rest| + n && s.stack[..|rest|] == rest
    ensures Reaches(code, s0, t)
    ensures t == s.(pc := s.pc + n, stack := rest, ebx := t.ebx)
    decreases n
  {
    t := s;
    if n > 0 {
      Fetch(code, s.pc, Pops(n));
      t := Go(code, s0, s, PopEbx);
      assert Pops(n) == [PopEbx] + Pops(n - 1);
      OccursSplit(code, s.pc, [PopEbx], Pops(n - 1));
      t := PopsCorrect(code, s0, t, rest, n - 1);
    }
  }

  /** Saving edi and ebp and starting a new frame at the current top of the stack. */
  lemma SaveCorrect(c: Ctx, s: State, m: Mem, temps: seq<Value>) returns (t: State)
    requires Occurs(c.code, s.pc, SAVE_FRAME)
    requires In(c, s, s.pc, m, temps)
    ensures Reaches(c.code, s, t) && t.eax == s.eax
    ensures In(c.(edi := StackAt(-4 * (|s.stack| + 2))), t, s.pc + 3, m, temps + [s.edi, s.ebp])
  {
    ReachesSelf(c.code, s);
    Fetch(c.code, s.pc, SAVE_FRAME);
    t := Go(c.code, s, s, PushEdi);
    t := Go(c.code, s, t, PushEbp);
    assert t.stack == FrameStack(c, m) + (temps + [s.edi, s.ebp]);
    t := Go(c.code, s, t, MovEdiEsp);
  }

  /** After a call has returned: dropping the arguments and restoring ebp and edi. */
  lemma RestoreCorrect(c: Ctx, s0: State, s: State, m: Mem, temps: seq<Value>, args: seq<Value>) returns (t: State)
    requires Reaches(c.code, s0, s)
    requires Occurs(c.code, s.pc, Pops(|args|) + RESTORE_FRAME)
    requires s.globals == m.globals
    requires s.stack == FrameStack(c, m) + (temps + [c.edi, StackAt(-4 * |c.below|)]) + args
    ensures Reaches(c.code, s0, t) && t.eax == s.eax
    ensures In(c, t, s.pc + |args| + 2, m, temps)
  {
    hide FrameStack;
    var stack := FrameStack(c, m) + temps;
    var saved := stack + [c.edi, StackAt(-4 * |c.below|)];
    OccursSplit(c.code, s.pc, Pops(|args|), RESTORE_FRAME);
    assert s.stack == saved + args;
    t := PopsCorrect(c.code, s0, s, saved, |args|);
    t := RestoreRegisters(c.code, s0, t, stack, c.edi, StackAt(-4 * |c.below|));
  }

  lemma RestoreRegisters(code: Code, s0: State, s: State, rest: seq<Value>, edi: Value, ebp: Value) returns (t: State)
    requires Reaches(code, s0, s)
    requires Occurs(code, s.pc, RESTORE_FRAME)
    requires s.stack == rest + [edi, ebp]
    ensures Reaches(code, s0, t) && t == s.(pc := s.pc + 2, stack := rest, ebp := ebp, edi := edi)
  {
    Fetch(code, s.pc, RESTORE_FRAME);
    t := Go(code, s0, s, PopEbp);
    assert t.stack == rest + [edi];
    t := Go(code, s0, t, PopEdi);
  }

  // ----- control -----

  lemma JumpCorrect(code: Code, s0: State, s: State, l: Label, target: nat) returns (t: State)
    requires Reaches(code, s0, s) && Occurs(code, s.pc, [Jmp(l)])
    requires UniqueLabels(code) && Occurs(code, target, [Mark(l)])
    ensures Reaches(code, s0, t) && t == s.(pc := target + 1)
  {
    Fetch(code, s.pc, [Jmp(l)]);
    Fetch(code, target, [Mark(l)]);
    FindUnique(code, l, target);
    t := Go(code, s0, s, Jmp(l));
    t := Go(code, s0, t, Mark(l));
  }

  lemma MarkCorrect(code: Code, s0: State, s: State, l: Label) returns (t: State)
    requires Reaches(code, s0, s) && Occurs(code, s.pc, [Mark(l)])
    ensures Reaches(code, s0, t) && t == s.(pc := s.pc + 1)
  {
    Fetch(code, s.pc, [Mark(l)]);
    t := Go(code, s0, s, Mark(l));
  }

  /** `test eax,eax` and a conditional jump: taken on zero for je, on nonzero for jne. */
  lemma BranchCorrect(code: Code, s0: State, s: State, onZero: bool, l: Label, target: nat, v: Word) returns (t: State)
    requires Reaches(code, s0, s) && s.eax == Int(v)
    requires Occurs(code, s.pc, [TestEaxEax, if onZero then Je(l) else Jne(l)])
    requires UniqueLabels(code) && Occurs(code, target, [Mark(l)])
    ensures Reaches(code, s0, t)
    ensures t == s.(pc := if (v == 0) == onZero then target + 1 else s.pc + 2, flags := t.flags)
  {
    hide Exec;
    var jump := if onZero then Je(l) else Jne(l);
    OccursSplit(code, s.pc, [TestEaxEax], [jump]);
    var u := TestCorrect(code, s0, s, v);
    t := CondJump(code, s0, u, onZero, l, target);
  }

  lemma TestCorrect(code: Code, s0: State, s: State, v: Word) returns (t: State)
    requires Reaches(code, s0, s) && s.eax == Int(v) && Occurs(code, s.pc, [TestEaxEax])
    ensures Reaches(code, s0, t) && t == s.(pc := s.pc + 1, flags := (v, 0))
  {
    Fetch(code, s.pc, [TestEaxEax]);
    t := Go(code, s0, s, TestEaxEax);
  }

  lemma CondJump(code: Code, s0: State, s: State, onZero: bool, l: Label, target: nat) returns (t: State)
    requires Reaches(code, s0, s)
    requires Occurs(code, s.pc, [if onZero then Je(l) else Jne(l)])
    requires UniqueLabels(code) && Occurs(code, target, [Mark(l)])
    ensures Reaches(code, s0, t)
    ensures t == s.(pc := if (s.flags.0 == s.flags.1) == onZero then target + 1 else s.pc + 1)
  {
    hide UniqueLabels, Arith;
    Fetch(code, s.pc, [if onZero then Je(l) else Jne(l)]);
    Fetch(code, target, [Mark(l)]);
    FindUnique(code, l, target);
    if onZero { t := Go(code, s0, s, Je(l)); } else { t := Go(code, s0, s, Jne(l)); }
    if (s.flags.0 == s.flags.1) == onZero { t := MarkCorrect(code, s0, t, l); }
  }

  /** Popping the locals declared since there were k of them. */
  lemma PopLocals(c: Ctx, s0: State, s: State, m: Mem, k: nat) returns (t: State)
    requires Reaches(c.code, s0, s) && In(c, s, s.pc, m, []) && k <= |m.locals|
    requires Occurs(c.code, s.pc, Pops(|m.locals| - k))
    ensures Reaches(c.code, s0, t) && t.eax == s.eax
    ensures In(c, t, s.pc + |m.locals| - k, m.(locals := m.locals[..k]), [])
  {
    var rest := FrameStack(c, m.(locals := m.locals[..k]));
    assert s.stack == FrameStack(c, m);
    assert s.stack[..|rest|] == rest;
    t := PopsCorrect(c.code, s0, s, rest, |m.locals| - k);
    assert rest + [] == rest;
  }

  /** Returning from an activation whose locals are gone. */
  lemma RetCorrect(c: Ctx, s0: State, s: State, m: Mem) returns (t: State)
    requires Reaches(c.code, s0, s) && In(c, s, s.pc, m, []) && m.locals == []
    requires Occurs(c.code, s.pc, [Ret])
    ensures Reaches(c.code, s0, t)
    ensures t == s.(pc := c.ra, stack := c.below + m.args)
  {
    Fetch(c.code, s.pc, [Ret]);
    assert s.stack == c.below + m.args + [CodeAt(c.ra)];
    t := Go(c.code, s0, s, Ret);
  }

  /** Entering a function: ebp becomes the frame prepared in edi and the return address is pushed. */
  lemma EnterCorrect(code: Code, s0: State, s: State, f: string, entry: nat) returns (t: State)
    requires Reaches(code, s0, s) && Occurs(code, s.pc, [MovEbpEdi, Instr.Call(f)])
    requires Find(code, FunctionL(f)) == Some(entry)
    ensures Reaches(code, s0, t)
    ensures t == s.(pc := entry, ebp := s.edi, stack := s.stack + [CodeAt(s.pc + 2)])
  {
    Fetch(code, s.pc, [MovEbpEdi, Instr.Call(f)]);
    t := Go(code, s0, s, MovEbpEdi);
    t := Go(code, s0, t, Instr.Call(f));
  }
}
