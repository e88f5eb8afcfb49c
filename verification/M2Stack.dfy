/**
  Stack balance of emitted code along every path, whether or not it ends: a flow analysis that
  follows the words above the return address and what is known of them and of the registers.
  M2Balance connects it with the machine.

  It runs in two modes. The plain one is for all functions and follows heights. The strict one
  is for functions that store to their own variables only, and checks every store.
 */
module M2Stack {
  import opened Options
  import opened M2Word
  import opened M2Machine
  import opened M2Codegen
  import opened M2Program
  import Src = M2Source

  /** What is known of a word: nothing, the address of the n-th word above the return address, or not to be a stack address. */
  datatype Tag = Any | Base(n: int) | Off

  datatype Abs = Abs(words: seq<Tag>, eax: Tag, ebx: Tag, ebp: Tag, edi: Tag)

  /** Dead where control does not arrive by falling through. */
  datatype Point = Dead | Live(a: Abs)

  datatype Flow = Bad | Ok(h: Point)

  /** One function: its name, how many locals are live at its labels, how many words were passed to it. */
  datatype Plan = Plan(fname: string, lab: seq<nat>, passed: nat, strict: bool, p: Src.Program)

  /** ebp while a function runs: below the words passed to it. */
  function Own(plan: Plan): Tag { Base(-1 - plan.passed) }

  function Anys(n: nat): seq<Tag> { seq(n, _ => Any) }

  function AtLabel(plan: Plan, k: nat): Abs
    requires k < |plan.lab|
  {
    Abs(Anys(plan.lab[k]), Any, Any, Own(plan), Any)
  }

  /** A label of the function, at its height, with ebp in place. */
  predicate Lands(l: Label, a: Abs, plan: Plan) {
    && l.LocalL? && l.f == plan.fname && l.num < |plan.lab|
    && |a.words| == plan.lab[l.num] && a.ebp == Own(plan)
  }

  /** The frame of a callee starts at ebp. In strict mode it gets as many words as it has parameters, and may change them. */
  predicate CallOk(f: string, a: Abs, plan: Plan) {
    && a.ebp.Base? && 0 <= a.ebp.n <= |a.words|
    && (plan.strict ==>
      && f != "main"
      && (forall k :: a.ebp.n <= k < |a.words| ==> a.words[k] == Any)
      && (Src.FindFun(plan.p, f).Some? ==> |Src.FindFun(plan.p, f).value.params| == |a.words| - a.ebp.n))
  }

  /** ebx is the address of an argument or of a word that nothing is known of, or no stack address. */
  predicate StoreOk(a: Abs, plan: Plan) {
    a.ebx.Off?
    || (a.ebx.Base? && 0 - plan.passed <= a.ebx.n && a.ebx.n != 0
        && (0 < a.ebx.n <= |a.words| ==> a.words[a.ebx.n - 1] == Any))
  }

  function Pushed(a: Abs, t: Tag): Point { Live(a.(words := a.words + [t])) }

  function Popped(a: Abs): seq<Tag>
    requires a.words != []
  {
    a.words[..|a.words| - 1]
  }

  function Top(a: Abs): Tag
    requires a.words != []
  {
    a.words[|a.words| - 1]
  }

  function AbsStep(i: Instr, a: Abs, plan: Plan): Flow {
    match i
    case PushEax => Ok(Pushed(a, a.eax))
    case PushEbp => Ok(Pushed(a, a.ebp))
    case PushEdi => Ok(Pushed(a, a.edi))
    case PopEbx => if a.words == [] then Bad else Ok(Live(a.(words := Popped(a), ebx := Top(a))))
    case PopEbp => if a.words == [] then Bad else Ok(Live(a.(words := Popped(a), ebp := Top(a))))
    case PopEdi => if a.words == [] then Bad else Ok(Live(a.(words := Popped(a), edi := Top(a))))
    case MovEdiEsp => Ok(Live(a.(edi := Base(|a.words|))))
    case MovEbpEdi => Ok(Live(a.(ebp := a.edi)))
    case LeaEaxEbp(d) => Ok(Live(a.(eax := if a.ebp.Base? && d % 4 == 0 then Base(a.ebp.n - d / 4) else Any)))
    case MovEaxGlobal(_) => Ok(Live(a.(eax := Off)))
    case StoreEbx => if plan.strict && !StoreOk(a, plan) then Bad else Ok(Live(a))
    case Mark(l) =>
      if l.FunctionL? then Ok(Live(a)) else if Lands(l, a, plan) then Ok(Live(AtLabel(plan, l.num))) else Bad
    case Je(l) => if Lands(l, a, plan) then Ok(Live(a)) else Bad
    case Jne(l) => if Lands(l, a, plan) then Ok(Live(a)) else Bad
    case Jmp(l) => if Lands(l, a, plan) then Ok(Dead) else Bad
    case Call(f) => if CallOk(f, a, plan) then Ok(Live(a.(eax := Any, ebx := Any, edi := Any))) else Bad
    case Ret => if a.words == [] && a.ebp == Own(plan) then Ok(Dead) else Bad
    case _ => Ok(Live(a.(eax := Any, ebx := Any)))
  }

  function FlowStep(i: Instr, h: Point, plan: Plan): Flow {
    match h
    case Live(a) => AbsStep(i, a, plan)
    case Dead =>
      if i.Mark? && i.l.LocalL? then
        if i.l.f == plan.fname && i.l.num < |plan.lab| then Ok(Live(AtLabel(plan, i.l.num))) else Bad
      else Ok(Dead)
  }

  function FlowCode(code: Code, h: Point, plan: Plan): Flow {
    if code == [] then Ok(h)
    else
      match FlowStep(code[0], h, plan)
      case Bad => Bad
      case Ok(h1) => FlowCode(code[1..], h1, plan)
  }

  lemma {:induction false} FlowConcat(a: Code, b: Code, h: Point, plan: Plan)
    ensures FlowCode(a + b, h, plan) == match FlowCode(a, h, plan) case Bad => Bad case Ok(h1) => FlowCode(b, h1, plan)
    decreases a
  {
    hide FlowStep;
    if a == [] {
      assert a + b == b;
    } else {
      assert (a + b)[0] == a[0] && (a + b)[1..] == a[1..] + b;
      match FlowStep(a[0], h, plan) {
        case Bad =>
        case Ok(h1) => FlowConcat(a[1..], b, h1, plan);
      }
    }
  }

  lemma FlowOne(i: Instr, h: Point, plan: Plan)
    ensures FlowCode([i], h, plan) == FlowStep(i, h, plan)
  {
  }

  // ----- functions that store to their own variables only -----

  /** A variable that may be assigned: not a constant, and not the local that is just being initialised. */
  predicate Storable(env: Env, live: nat, x: string) {
    match Locate(env, x)
    case Local(i) => i < live
    case Arg(_) => true
    case Global => true
    case _ => false
  }

  /** Only variables are assigned, and functions are called with as many values as they have parameters. */
  predicate Tame(p: Src.Program, env: Env, live: nat, e: Src.Expr)
    decreases e
  {
    match e
    case Const(_) => true
    case Var(_) => true
    case LVal(_) => false
    case Paren(e1) => Tame(p, env, live, e1)
    case Assign(t, v) => t.LVal? && Storable(env, live, t.x) && Tame(p, env, live, v)
    case Un(_, e1) => Tame(p, env, live, e1)
    case Bin(_, l, r) => Tame(p, env, live, l) && Tame(p, env, live, r)
    case Call(f, args) =>
      && f != "main"
      && (Src.FindFun(p, f).Some? ==> |Src.FindFun(p, f).value.params| == |args|)
      && forall i :: 0 <= i < |args| ==> Tame(p, env, live, args[i])
  }

  predicate TameOpt(p: Src.Program, env: Env, live: nat, e: Option<Src.Expr>) {
    e.Some? ==> Tame(p, env, live, e.value)
  }

  predicate TameStmt(p: Src.Program, env: Env, s: Src.Stmt)
    decreases s, 1
  {
    var live := |env.locals|;
    match s
    case ExprS(e) => Tame(p, env, live, e)
    case Block(b) => TameSeq(p, env, b)
    case Decl(x, init) => TameOpt(p, env.(locals := env.locals + [x]), live, init)
    case If(c, t, e) => Tame(p, env, live, c) && TameStmt(p, env, t) && (e.Some? ==> TameStmt(p, env, e.value))
    case While(c, b) => Tame(p, env, live, c) && TameStmt(p, env, b)
    case DoWhile(b, c) => Tame(p, env, live, c) && TameStmt(p, env, b)
    case For(start, c, i, b) =>
      TameOpt(p, env, live, start) && Tame(p, env, live, c) && Tame(p, env, live, i) && TameStmt(p, env, b)
    case Return(e) => TameOpt(p, env, live, e)
    case Break => true
  }

  predicate TameSeq(p: Src.Program, env: Env, ss: seq<Src.Stmt>)
    decreases ss, 0
  {
    ss == [] || (TameStmt(p, env, ss[0]) && TameSeq(p, After(env, ss[0]), ss[1..]))
  }

  function EnvOf(d: Src.Fun): Env { Env(d.name, d.scope, d.params, []) }

  predicate TameFun(p: Src.Program, d: Src.Fun) { d.name != "main" && TameStmt(p, EnvOf(d), d.body) }

  // ----- expressions -----

  /** Before an expression: ebp is in place and, in strict mode, nothing is known of the live locals. */
  predicate Ready(plan: Plan, env: Env, live: nat, a: Abs) {
    && a.ebp == Own(plan)
    && (plan.strict ==>
      plan.passed == |env.args| && env.fname != "main" && live <= |a.words|
      && forall i :: 0 <= i < live ==> a.words[i] == Any)
  }

  /** An expression leaves the stack, ebp and edi as they were. */
  predicate Kept(plan: Plan, a: Abs, b: Abs) {
    b.words == a.words && b.ebp == a.ebp && b.edi == a.edi && (plan.strict ==> b.eax == Any)
  }

  /** Instructions that touch eax, ebx, ecx, edx and flags only. */
  predicate Straight(i: Instr) {
    !(i.PushEax? || i.PushEbp? || i.PushEdi? || i.PopEbx? || i.PopEbp? || i.PopEdi? || i.MovEdiEsp? || i.MovEbpEdi?
      || i.StoreEbx? || i.Call? || i.Mark? || i.Je? || i.Jne? || i.Jmp? || i.Ret?)
  }

  lemma {:induction false} StraightFlow(code: Code, a: Abs, plan: Plan) returns (b: Abs)
    requires forall i :: 0 <= i < |code| ==> Straight(code[i])
    ensures FlowCode(code, Live(a), plan) == Ok(Live(b)) && b == a.(eax := b.eax, ebx := b.ebx)
    ensures code != [] && !code[|code| - 1].LeaEaxEbp? && !code[|code| - 1].MovEaxGlobal? ==> b.eax == Any
    decreases code
  {
    if code == [] {
      b := a;
    } else {
      assert Straight(code[0]);
      b := StraightFlow(code[1..], FlowStep(code[0], Live(a), plan).h.a, plan);
    }
  }

  lemma PushFlow(head: Code, a: Abs, plan: Plan) returns (b: Abs)
    requires forall i :: 0 <= i < |head| ==> Straight(head[i])
    ensures FlowCode(head + [PushEax], Live(a), plan) == Ok(Live(b))
    ensures |b.words| == |a.words| + 1 && b.words[..|a.words|] == a.words && b.ebp == a.ebp && b.edi == a.edi
  {
    var m := StraightFlow(head, a, plan);
    FlowConcat(head, [PushEax], Live(a), plan);
    FlowOne(PushEax, Live(m), plan);
    b := m.(words := m.words + [m.eax]);
  }

  lemma PopFlow(rest: Code, a: Abs, plan: Plan) returns (b: Abs)
    requires forall i :: 0 <= i < |rest| ==> Straight(rest[i])
    requires a.words != [] && rest != [] && !rest[|rest| - 1].LeaEaxEbp? && !rest[|rest| - 1].MovEaxGlobal?
    ensures FlowCode([PopEbx] + rest, Live(a), plan) == Ok(Live(b))
    ensures b.words == a.words[..|a.words| - 1] && b.ebp == a.ebp && b.edi == a.edi && b.eax == Any
  {
    FlowConcat([PopEbx], rest, Live(a), plan);
    FlowOne(PopEbx, Live(a), plan);
    b := StraightFlow(rest, a.(words := Popped(a), ebx := Top(a)), plan);
  }

  lemma LeafFlow(env: Env, e: Src.Expr, a: Abs, plan: Plan) returns (b: Abs)
    requires e.Const? || e.Var? || e.LVal?
    requires plan.strict ==> !e.LVal?
    ensures FlowCode(ExprCode(env, e), Live(a), plan) == Ok(Live(b)) && Kept(plan, a, b)
  {
    b := StraightFlow(ExprCode(env, e), a, plan);
  }

  /** The address of a variable, on which StoreOk will be asked with the same words on the stack. */
  lemma TargetFlow(env: Env, live: nat, x: string, a: Abs, plan: Plan) returns (b: Abs)
    requires plan.strict && Ready(plan, env, live, a) && Storable(env, live, x)
    ensures FlowCode(ExprCode(env, Src.LVal(x)), Live(a), plan) == Ok(Live(b)) && b == a.(eax := b.eax)
    ensures StoreOk(a.(ebx := b.eax), plan)
  {
    hide FlowCode;
    var code := AddressCode(env, x);
    assert ExprCode(env, Src.LVal(x)) == code && |code| == 1 && code == [code[0]];
    FlowOne(code[0], Live(a), plan);
    b := FlowStep(code[0], Live(a), plan).h.a;
    match Locate(env, x) {
      case Local(i) => assert b.eax == Base(1 + i) && a.words[i] == Any;
      case Arg(i) => assert b.eax == Base(i - plan.passed);
      case Global =>
    }
  }

  lemma {:induction false} ExprFlow(env: Env, live: nat, e: Src.Expr, a: Abs, plan: Plan) returns (b: Abs)
    requires Ready(plan, env, live, a) && (plan.strict ==> Tame(plan.p, env, live, e))
    ensures FlowCode(ExprCode(env, e), Live(a), plan) == Ok(Live(b)) && Kept(plan, a, b)
    decreases e, 1
  {
    hide Src.Locate, FlowCode, AbsStep;
    match e
    case Const(_) | Var(_) | LVal(_) => b := LeafFlow(env, e, a, plan);
    case Paren(e1) => b := ExprFlow(env, live, e1, a, plan);
    case Assign(t, v) => b := AssignFlow(env, live, e, a, plan);
    case Un(_, _) => b := UnaryFlow(env, live, e, a, plan);
    case Bin(_, _, _) => b := BinaryFlow(env, live, e, a, plan);
    case Call(_, _) => b := CallFlow(env, live, e, a, plan);
  }

  lemma {:induction false} UnaryFlow(env: Env, live: nat, e: Src.Expr, a: Abs, plan: Plan) returns (b: Abs)
    requires e.Un? && Ready(plan, env, live, a) && (plan.strict ==> Tame(plan.p, env, live, e))
    ensures FlowCode(ExprCode(env, e), Live(a), plan) == Ok(Live(b)) && Kept(plan, a, b)
    decreases e, 0
  {
    hide FlowCode, AbsStep;
    var head, x, tail := UnaryHead(e.uop) + [PushEax], ExprCode(env, e.e), [PopEbx] + UnaryCode(e.uop);
    var c := PushFlow(UnaryHead(e.uop), a, plan);
    var d := ExprFlow(env, live, e.e, c, plan);
    b := PopFlow(UnaryCode(e.uop), d, plan);
    FlowConcat(head, x, Live(a), plan);
    FlowConcat(head + x, tail, Live(a), plan);
  }

  lemma OperatorStraight(op: Src.BinOp)
    ensures var c := OperatorCode(op);
      && c != [] && !c[|c| - 1].LeaEaxEbp? && !c[|c| - 1].MovEaxGlobal?
      && forall i :: 0 <= i < |c| ==> Straight(c[i])
  {
  }

  lemma {:induction false} BinaryFlow(env: Env, live: nat, e: Src.Expr, a: Abs, plan: Plan) returns (b: Abs)
    requires e.Bin? && Ready(plan, env, live, a) && (plan.strict ==> Tame(plan.p, env, live, e))
    ensures FlowCode(ExprCode(env, e), Live(a), plan) == Ok(Live(b)) && Kept(plan, a, b)
    decreases e, 0
  {
    hide FlowCode, AbsStep, OperatorCode;
    OperatorStraight(e.op);
    var l, r, tail := ExprCode(env, e.left), ExprCode(env, e.right), [PopEbx] + OperatorCode(e.op);
    var c := ExprFlow(env, live, e.left, a, plan);
    var d := PushFlow([], c, plan);
    assert [] + [PushEax] == [PushEax];
    var f := ExprFlow(env, live, e.right, d, plan);
    b := PopFlow(OperatorCode(e.op), f, plan);
    FlowConcat(l, [PushEax], Live(a), plan);
    FlowConcat(l + [PushEax], r, Live(a), plan);
    FlowConcat(l + [PushEax] + r, tail, Live(a), plan);
  }

  lemma {:induction false} CallFlow(env: Env, live: nat, e: Src.Expr, a: Abs, plan: Plan) returns (b: Abs)
    requires e.Call? && Ready(plan, env, live, a) && (plan.strict ==> Tame(plan.p, env, live, e))
    ensures FlowCode(ExprCode(env, e), Live(a), plan) == Ok(Live(b)) && Kept(plan, a, b)
    decreases e, 0
  {
    hide FlowCode, AbsStep;
    var n, args := |e.args|, ArgsCode(env, e.args);
    var c := SaveFlow(a, plan);
    var d := ArgsFlow(env, live, e.args, c, plan);
    assert d.words[..|a.words| + 2] == a.words + [a.edi, a.ebp];
    b := LeaveFlow(e.f, n, a, d, plan);
    FlowConcat(SAVE_FRAME, args, Live(a), plan);
    FlowConcat(SAVE_FRAME + args, [MovEbpEdi, Instr.Call(e.f)] + Pops(n) + RESTORE_FRAME, Live(a), plan);
  }

  lemma {:induction false} AssignFlow(env: Env, live: nat, e: Src.Expr, a: Abs, plan: Plan) returns (b: Abs)
    requires e.Assign? && Ready(plan, env, live, a) && (plan.strict ==> Tame(plan.p, env, live, e))
    ensures FlowCode(ExprCode(env, e), Live(a), plan) == Ok(Live(b)) && Kept(plan, a, b)
    decreases e, 0
  {
    hide FlowCode, Storable;
    var t, v := ExprCode(env, e.target), ExprCode(env, e.value);
    var c;
    if plan.strict { c := TargetFlow(env, live, e.target.x, a, plan); } else { c := ExprFlow(env, live, e.target, a, plan); }
    FlowOne(PushEax, Live(c), plan);
    var d := c.(words := c.words + [c.eax]);
    var f := ExprFlow(env, live, e.value, d, plan);
    FlowOne(PopEbx, Live(f), plan);
    b := f.(words := Popped(f), ebx := Top(f));
    assert b.words == a.words && b.ebx == c.eax;
    FlowOne(StoreEbx, Live(b), plan);
    FlowConcat([PopEbx], [StoreEbx], Live(f), plan);
    assert [PopEbx] + [StoreEbx] == [PopEbx, StoreEbx];
    FlowConcat(t, [PushEax], Live(a), plan);
    FlowConcat(t + [PushEax], v, Live(a), plan);
    FlowConcat(t + [PushEax] + v, [PopEbx, StoreEbx], Live(a), plan);
  }

  lemma SaveFlow(a: Abs, plan: Plan) returns (b: Abs)
    ensures FlowCode(SAVE_FRAME, Live(a), plan) == Ok(Live(b))
    ensures b == a.(words := a.words + [a.edi, a.ebp], edi := Base(|a.words| + 2))
  {
    hide FlowCode;
    assert SAVE_FRAME == [PushEdi] + [PushEbp] + [MovEdiEsp];
    var c := a.(words := a.words + [a.edi]);
    var d := c.(words := c.words + [c.ebp]);
    b := d.(edi := Base(|d.words|));
    assert d.words == a.words + [a.edi, a.ebp];
    FlowOne(PushEdi, Live(a), plan);
    FlowOne(PushEbp, Live(c), plan);
    FlowOne(MovEdiEsp, Live(d), plan);
    FlowConcat([PushEdi], [PushEbp], Live(a), plan);
    FlowConcat([PushEdi] + [PushEbp], [MovEdiEsp], Live(a), plan);
  }

  lemma {:induction false} PopsFlow(n: nat, a: Abs, plan: Plan) returns (b: Abs)
    requires n <= |a.words|
    ensures FlowCode(Pops(n), Live(a), plan) == Ok(Live(b))
    ensures b == a.(words := a.words[..|a.words| - n], ebx := b.ebx)
    decreases n
  {
    if n == 0 {
      b := a;
    } else {
      assert Pops(n)[1..] == Pops(n - 1);
      b := PopsFlow(n - 1, a.(words := Popped(a), ebx := Top(a)), plan);
    }
  }

  /** The call itself, the words passed popped again, and ebp and edi as they were. */
  lemma LeaveFlow(f: string, n: nat, a: Abs, d: Abs, plan: Plan) returns (b: Abs)
    requires |d.words| == |a.words| + 2 + n && d.words[..|a.words| + 2] == a.words + [a.edi, a.ebp]
    requires d.edi == Base(|a.words| + 2)
    requires CallOk(f, d.(ebp := d.edi), plan)
    ensures FlowCode([MovEbpEdi, Instr.Call(f)] + Pops(n) + RESTORE_FRAME, Live(d), plan) == Ok(Live(b))
    ensures Kept(plan, a, b)
  {
    hide FlowCode, CallOk, AbsStep, Pops;
    var enter := [MovEbpEdi, Instr.Call(f)];
    var c := EnterFlow(f, d, plan);
    var c1 := PopsFlow(n, c, plan);
    assert c1.words == a.words + [a.edi, a.ebp];
    b := RestoreFlow(a, c1, plan);
    FlowConcat(enter, Pops(n), Live(d), plan);
    FlowConcat(enter + Pops(n), RESTORE_FRAME, Live(d), plan);
  }

  lemma EnterFlow(f: string, d: Abs, plan: Plan) returns (b: Abs)
    requires CallOk(f, d.(ebp := d.edi), plan)
    ensures FlowCode([MovEbpEdi, Instr.Call(f)], Live(d), plan) == Ok(Live(b))
    ensures b == d.(eax := Any, ebx := Any, ebp := d.edi, edi := Any)
  {
    hide FlowCode, CallOk;
    var c := d.(ebp := d.edi);
    b := c.(eax := Any, ebx := Any, edi := Any);
    assert [MovEbpEdi, Instr.Call(f)] == [MovEbpEdi] + [Instr.Call(f)];
    FlowOne(MovEbpEdi, Live(d), plan);
    FlowOne(Instr.Call(f), Live(c), plan);
    FlowConcat([MovEbpEdi], [Instr.Call(f)], Live(d), plan);
  }

  lemma RestoreFlow(a: Abs, c: Abs, plan: Plan) returns (b: Abs)
    requires c.words == a.words + [a.edi, a.ebp]
    ensures FlowCode(RESTORE_FRAME, Live(c), plan) == Ok(Live(b))
    ensures b == c.(words := a.words, ebp := a.ebp, edi := a.edi)
  {
    hide FlowCode;
    var d := c.(words := Popped(c), ebp := Top(c));
    assert d.words == a.words + [a.edi];
    b := d.(words := Popped(d), edi := Top(d));
    assert b.words == a.words && RESTORE_FRAME == [PopEbp] + [PopEdi];
    FlowOne(PopEbp, Live(c), plan);
    FlowOne(PopEdi, Live(d), plan);
    FlowConcat([PopEbp], [PopEdi], Live(c), plan);
  }

  lemma {:induction false} ArgsFlow(env: Env, live: nat, es: seq<Src.Expr>, a: Abs, plan: Plan) returns (b: Abs)
    requires Ready(plan, env, live, a)
    requires plan.strict ==> forall i :: 0 <= i < |es| ==> Tame(plan.p, env, live, es[i])
    ensures FlowCode(ArgsCode(env, es), Live(a), plan) == Ok(Live(b)) && b.ebp == a.ebp && b.edi == a.edi
    ensures |b.words| == |a.words| + |es| && b.words[..|a.words|] == a.words
    ensures plan.strict ==> forall k :: |a.words| <= k < |b.words| ==> b.words[k] == Any
    decreases es, 0
  {
    hide FlowCode, Tame;
    if es == [] {
      b := a;
      assert ArgsCode(env, es) == [] && FlowCode([], Live(a), plan) == Ok(Live(a)) by { FlowNone(Live(a), plan); }
    } else {
      var first, rest := ExprCode(env, es[0]), ArgsCode(env, es[1..]);
      var c := ExprFlow(env, live, es[0], a, plan);
      FlowOne(PushEax, Live(c), plan);
      b := ArgsFlow(env, live, es[1..], c.(words := c.words + [c.eax]), plan);
      FlowConcat(first, [PushEax], Live(a), plan);
      FlowConcat(first + [PushEax], rest, Live(a), plan);
    }
  }

  lemma FlowNone(h: Point, plan: Plan)
    ensures FlowCode([], h, plan) == Ok(h)
  {
  }

  /** Nothing is alive in code without labels that control does not reach. */
  lemma {:induction false} DeadFlow(code: Code, plan: Plan)
    requires Marks(code) == {}
    ensures FlowCode(code, Dead, plan) == Ok(Dead)
    decreases code
  {
    if code != [] {
      assert !code[0].Mark? by { MarkedAt(code, 0); }
      forall l ensures l !in Marks(code[1..]) {
        if l in Marks(code[1..]) {
          var i :| 0 <= i < |code[1..]| && code[1..][i] == Mark(l);
          MarkedAt(code, i + 1);
        }
      }
      DeadFlow(code[1..], plan);
    }
  }

  // ----- statements -----

  /** The locals live at each of a statement's labels, in the order of their numbers. */
  function Heights(env: Env, s: Src.Stmt): (hs: seq<nat>)
    ensures |hs| == Count(s)
    decreases s, 1
  {
    match s
    case Block(b) => HeightsSeq(env, b)
    case If(_, t, e) => [|env.locals|] + Heights(env, t) + (if e.Some? then Heights(env, e.value) else [])
    case While(_, b) => [|env.locals|] + Heights(env, b)
    case DoWhile(b, _) => [|env.locals|] + Heights(env, b)
    case For(_, _, _, b) => [|env.locals|] + Heights(env, b)
    case _ => []
  }

  function HeightsSeq(env: Env, ss: seq<Src.Stmt>): (hs: seq<nat>)
    ensures |hs| == CountSeq(ss)
    decreases ss, 0
  {
    if ss == [] then [] else Heights(env, ss[0]) + HeightsSeq(After(env, ss[0]), ss[1..])
  }

  /** The labels numbered from n on have the heights hs. */
  predicate Placed(lab: seq<nat>, n: nat, hs: seq<nat>) {
    n + |hs| <= |lab| && lab[n..n + |hs|] == hs
  }

  lemma PlacedSplit(lab: seq<nat>, n: nat, a: seq<nat>, b: seq<nat>)
    requires Placed(lab, n, a + b)
    ensures Placed(lab, n, a) && Placed(lab, n + |a|, b)
  {
    assert lab[n..n + |a|] == (a + b)[..|a|];
    assert lab[n + |a|..n + |a| + |b|] == (a + b)[|a|..];
  }

  lemma PlacedFirst(lab: seq<nat>, n: nat, h: nat, hs: seq<nat>)
    requires Placed(lab, n, [h] + hs)
    ensures n < |lab| && lab[n] == h && Placed(lab, n + 1, hs)
  {
    PlacedSplit(lab, n, [h], hs);
    assert lab[n] == lab[n..n + 1][0];
  }

  predicate Fits(plan: Plan, env: Env) {
    plan.fname == env.fname && (plan.strict ==> plan.passed == |env.args| && env.fname != "main")
  }

  /** A statement boundary: above the return address there are just the live locals, and ebp is in place. */
  predicate At(a: Abs, env: Env, plan: Plan) {
    && |a.words| == |env.locals| && a.ebp == Own(plan)
    && (plan.strict ==> a.eax == Any && forall i :: 0 <= i < |a.words| ==> a.words[i] == Any)
  }

  predicate Arrives(h: Point, env: Env, plan: Plan) { h.Live? ==> At(h.a, env, plan) }

  predicate TargetAt(plan: Plan, brk: Target, env: Env) {
    brk.Target? ==>
      && brk.l.LocalL? && brk.l.f == plan.fname && brk.l.num < |plan.lab|
      && brk.frame <= |env.locals| && plan.lab[brk.l.num] == brk.frame
  }

  /** The flow through a piece of code is well formed and arrives, if it does, at a boundary. */
  predicate Balanced(code: Code, h: Point, plan: Plan, after: Env) {
    match FlowCode(code, h, plan)
    case Bad => false
    case Ok(h1) => Arrives(h1, after, plan)
  }

  /** The label numbered k of a statement in env. */
  predicate LabelOf(l: Label, env: Env, k: nat, plan: Plan) {
    l.LocalL? && l.f == env.fname && l.num == k && k < |plan.lab| && plan.lab[k] == |env.locals|
  }

  lemma ExprPoint(env: Env, e: Src.Expr, h: Point, plan: Plan) returns (r: Point)
    requires Fits(plan, env) && Arrives(h, env, plan) && (plan.strict ==> Tame(plan.p, env, |env.locals|, e))
    ensures FlowCode(ExprCode(env, e), h, plan) == Ok(r) && Arrives(r, env, plan) && (r.Live? <==> h.Live?)
  {
    hide FlowCode, Tame;
    if h.Live? {
      var b := ExprFlow(env, |env.locals|, e, h.a, plan);
      r := Live(b);
    } else {
      ExprPlain(env, e);
      DeadFlow(ExprCode(env, e), plan);
      r := Dead;
    }
  }

  lemma OptPoint(env: Env, e: Option<Src.Expr>, h: Point, plan: Plan) returns (r: Point)
    requires Fits(plan, env) && Arrives(h, env, plan) && (plan.strict ==> TameOpt(plan.p, env, |env.locals|, e))
    ensures FlowCode(OptCode(env, e), h, plan) == Ok(r) && Arrives(r, env, plan) && (r.Live? <==> h.Live?)
  {
    if e.Some? {
      r := ExprPoint(env, e.value, h, plan);
    } else {
      r := h;
    }
  }

  lemma PopsPoint(n: nat, h: Point, env: Env, after: Env, plan: Plan) returns (r: Point)
    requires Arrives(h, env, plan) && |after.locals| + n == |env.locals|
    ensures FlowCode(Pops(n), h, plan) == Ok(r) && Arrives(r, after, plan)
  {
    if h.Live? {
      var b := PopsFlow(n, h.a, plan);
      r := Live(b);
    } else {
      DeadFlow(Pops(n), plan);
      r := Dead;
    }
  }

  /** A label at its height, a jump to it, and a jump followed by a label. */
  lemma JumpMark(jump: Label, mark: Label, env: Env, k: nat, h: Point, plan: Plan) returns (top: Point)
    requires Fits(plan, env) && LabelOf(jump, env, k, plan) && LabelOf(mark, env, k, plan) && Arrives(h, env, plan)
    ensures top == Live(AtLabel(plan, k)) && Arrives(top, env, plan)
    ensures FlowCode([Mark(mark)], h, plan) == Ok(top)
    ensures FlowCode([Jmp(jump)], h, plan) == Ok(Dead)
    ensures FlowCode([Jmp(jump), Mark(mark)], h, plan) == Ok(top)
  {
    hide FlowCode;
    top := Live(AtLabel(plan, k));
    FlowOne(Mark(mark), h, plan);
    FlowOne(Mark(mark), Dead, plan);
    FlowOne(Jmp(jump), h, plan);
    FlowConcat([Jmp(jump)], [Mark(mark)], h, plan);
    assert [Jmp(jump)] + [Mark(mark)] == [Jmp(jump), Mark(mark)];
  }

  lemma TestFlow(env: Env, e: Src.Expr, jump: Instr, k: nat, h: Point, plan: Plan) returns (r: Point)
    requires Fits(plan, env) && Arrives(h, env, plan) && (plan.strict ==> Tame(plan.p, env, |env.locals|, e))
    requires (jump.Je? || jump.Jne?) && LabelOf(jump.l, env, k, plan)
    ensures FlowCode(ExprCode(env, e) + [TestEaxEax, jump], h, plan) == Ok(r) && Arrives(r, env, plan)
    ensures r.Live? <==> h.Live?
  {
    hide FlowCode, Tame;
    var m := ExprPoint(env, e, h, plan);
    assert [TestEaxEax, jump] == [TestEaxEax] + [jump];
    FlowOne(TestEaxEax, m, plan);
    r := FlowStep(TestEaxEax, m, plan).h;
    FlowOne(jump, r, plan);
    FlowConcat([TestEaxEax], [jump], m, plan);
    FlowConcat(ExprCode(env, e), [TestEaxEax, jump], h, plan);
  }

  lemma {:induction false} StmtFlow(env: Env, n: nat, brk: Target, ret: bool, s: Src.Stmt, plan: Plan, h: Point)
    requires Src.Braced(s) && Placed(plan.lab, n, Heights(env, s)) && TargetAt(plan, brk, env)
    requires Fits(plan, env) && Arrives(h, env, plan) && (plan.strict ==> TameStmt(plan.p, env, s))
    ensures Balanced(StmtCode(env, n, brk, ret, s), h, plan, After(env, s))
    decreases s, 3
  {
    hide FlowCode, Pops, ExprCode, OptCode, BlockCode, IfHead, IfMiddle, WhileHead, WhileTail, DoTail, ForHead, ForTail, Tame;
    match s
    case ExprS(e) => var r := ExprPoint(env, e, h, plan);
    case Block(b) => BlockFlow(env, n, brk, ret, b, plan, h);
    case Decl(x, init) => DeclFlow(env, x, init, plan, h);
    case If(_, _, _) => IfFlow(env, n, brk, s, plan, h);
    case While(c, b) => WhileFlow(env, n, s, plan, h);
    case DoWhile(b, c) => DoFlow(env, n, s, plan, h);
    case For(start, c, i, b) => ForFlow(env, n, s, plan, h);
    case Return(e) => ReturnFlow(env, e, plan, h);
    case Break => BreakFlow(env, n, brk, ret, plan, h);
  }

  lemma DeclFlow(env: Env, x: string, init: Option<Src.Expr>, plan: Plan, h: Point)
    requires Fits(plan, env) && Arrives(h, env, plan)
    requires plan.strict ==> TameOpt(plan.p, env.(locals := env.locals + [x]), |env.locals|, init)
    ensures Balanced(OptCode(env.(locals := env.locals + [x]), init) + [PushEax], h, plan, env.(locals := env.locals + [x]))
  {
    hide FlowCode, Tame;
    var env1 := env.(locals := env.locals + [x]);
    var code := OptCode(env1, init);
    var r := h;
    if init.Some? {
      if h.Live? {
        var b := ExprFlow(env1, |env.locals|, init.value, h.a, plan);
        r := Live(b);
      } else {
        ExprPlain(env1, init.value);
        DeadFlow(code, plan);
      }
    } else {
      FlowNone(h, plan);
    }
    FlowOne(PushEax, r, plan);
    FlowConcat(code, [PushEax], h, plan);
  }

  lemma ReturnFlow(env: Env, e: Option<Src.Expr>, plan: Plan, h: Point)
    requires Fits(plan, env) && Arrives(h, env, plan) && (plan.strict ==> TameOpt(plan.p, env, |env.locals|, e))
    ensures FlowCode(OptCode(env, e) + Pops(|env.locals|) + [Ret], h, plan) == Ok(Dead)
  {
    hide FlowCode, Pops, OptCode, Tame;
    var m := OptPoint(env, e, h, plan);
    var r := PopsPoint(|env.locals|, m, env, env.(locals := []), plan);
    FlowOne(Ret, r, plan);
    FlowConcat(OptCode(env, e), Pops(|env.locals|), h, plan);
    FlowConcat(OptCode(env, e) + Pops(|env.locals|), [Ret], h, plan);
  }

  lemma BreakFlow(env: Env, n: nat, brk: Target, ret: bool, plan: Plan, h: Point)
    requires TargetAt(plan, brk, env) && Fits(plan, env) && Arrives(h, env, plan)
    ensures Balanced(StmtCode(env, n, brk, ret, Src.Break), h, plan, env)
  {
    hide FlowCode, Pops;
    if brk.Target? {
      var k := |env.locals| - brk.frame;
      var r := PopsPoint(k, h, env, env.(locals := env.locals[..brk.frame]), plan);
      FlowOne(Jmp(brk.l), r, plan);
      FlowConcat(Pops(k), [Jmp(brk.l)], h, plan);
    } else {
      FlowNone(h, plan);
    }
  }

  lemma WhileHeadFlow(env: Env, n: nat, c: Src.Expr, plan: Plan, h: Point) returns (r: Point)
    requires Fits(plan, env) && Arrives(h, env, plan) && (plan.strict ==> Tame(plan.p, env, |env.locals|, c))
    requires n < |plan.lab| && plan.lab[n] == |env.locals|
    ensures FlowCode(WhileHead(env, n, c), h, plan) == Ok(r) && Arrives(r, env, plan)
  {
    hide FlowCode, ExprCode, Tame;
    var start, test := [Mark(Lbl(env, WhileL, n))], [TestEaxEax, Je(Lbl(env, EndWhileL, n))];
    var top := JumpMark(Lbl(env, WhileL, n), Lbl(env, WhileL, n), env, n, h, plan);
    r := TestFlow(env, c, Je(Lbl(env, EndWhileL, n)), n, top, plan);
    FlowConcat(start, ExprCode(env, c) + test, h, plan);
    assert WhileHead(env, n, c) == start + (ExprCode(env, c) + test);
  }

  lemma {:induction false} WhileFlow(env: Env, n: nat, s: Src.Stmt, plan: Plan, h: Point)
    requires s.While? && Src.Braced(s) && Placed(plan.lab, n, Heights(env, s))
    requires Fits(plan, env) && Arrives(h, env, plan) && (plan.strict ==> TameStmt(plan.p, env, s))
    ensures Balanced(WhileHead(env, n, s.cond) + StmtCode(env, n + 1, WhileTarget(env, n), false, s.loop) + WhileTail(env, n), h, plan, env)
    decreases s, 2
  {
    hide FlowCode, ExprCode, StmtCode, WhileHead, Tame;
    var head, body := WhileHead(env, n, s.cond), StmtCode(env, n + 1, WhileTarget(env, n), false, s.loop);
    PlacedFirst(plan.lab, n, |env.locals|, Heights(env, s.loop));
    var r := WhileHeadFlow(env, n, s.cond, plan, h);
    StmtFlow(env, n + 1, WhileTarget(env, n), false, s.loop, plan, r);
    var m := FlowCode(body, r, plan).h;
    var end := JumpMark(Lbl(env, WhileL, n), Lbl(env, EndWhileL, n), env, n, m, plan);
    FlowConcat(head, body, h, plan);
    FlowConcat(head + body, WhileTail(env, n), h, plan);
  }

  lemma DoTailFlow(env: Env, n: nat, c: Src.Expr, plan: Plan, h: Point) returns (r: Point)
    requires Fits(plan, env) && Arrives(h, env, plan) && (plan.strict ==> Tame(plan.p, env, |env.locals|, c))
    requires n < |plan.lab| && plan.lab[n] == |env.locals|
    ensures FlowCode(DoTail(env, n, c), h, plan) == Ok(r) && Arrives(r, env, plan)
  {
    hide FlowCode, ExprCode, Tame;
    var mid, test, end := [Mark(Lbl(env, DoTestL, n))], [TestEaxEax, Jne(Lbl(env, DoL, n))], [Mark(Lbl(env, DoEndL, n))];
    var top := JumpMark(Lbl(env, DoTestL, n), Lbl(env, DoTestL, n), env, n, h, plan);
    var m := TestFlow(env, c, Jne(Lbl(env, DoL, n)), n, top, plan);
    r := JumpMark(Lbl(env, DoEndL, n), Lbl(env, DoEndL, n), env, n, m, plan);
    FlowConcat(ExprCode(env, c) + test, end, top, plan);
    FlowConcat(mid, (ExprCode(env, c) + test) + end, h, plan);
    assert DoTail(env, n, c) == mid + ((ExprCode(env, c) + test) + end);
  }

  lemma {:induction false} DoFlow(env: Env, n: nat, s: Src.Stmt, plan: Plan, h: Point)
    requires s.DoWhile? && Src.Braced(s) && Placed(plan.lab, n, Heights(env, s))
    requires Fits(plan, env) && Arrives(h, env, plan) && (plan.strict ==> TameStmt(plan.p, env, s))
    ensures Balanced(DoHead(env, n) + StmtCode(env, n + 1, DoTarget(env, n), false, s.loop) + DoTail(env, n, s.cond), h, plan, env)
    decreases s, 2
  {
    hide FlowCode, ExprCode, StmtCode, DoTail, Tame;
    var body := StmtCode(env, n + 1, DoTarget(env, n), false, s.loop);
    PlacedFirst(plan.lab, n, |env.locals|, Heights(env, s.loop));
    var top := JumpMark(Lbl(env, DoL, n), Lbl(env, DoL, n), env, n, h, plan);
    StmtFlow(env, n + 1, DoTarget(env, n), false, s.loop, plan, top);
    var m := FlowCode(body, top, plan).h;
    var r := DoTailFlow(env, n, s.cond, plan, m);
    FlowConcat(DoHead(env, n), body, h, plan);
    FlowConcat(DoHead(env, n) + body, DoTail(env, n, s.cond), h, plan);
  }

  lemma ForHeadFlow(env: Env, n: nat, c: Src.Expr, i: Src.Expr, plan: Plan, h: Point) returns (r: Point)
    requires Fits(plan, env) && Arrives(h, env, plan)
    requires plan.strict ==> Tame(plan.p, env, |env.locals|, c) && Tame(plan.p, env, |env.locals|, i)
    requires n < |plan.lab| && plan.lab[n] == |env.locals|
    ensures FlowCode(ForHead(env, n, c, i), h, plan) == Ok(r) && Arrives(r, env, plan)
  {
    hide FlowCode, ExprCode, Tame;
    var start, test := [Mark(Lbl(env, ForL, n))], [TestEaxEax, Je(Lbl(env, ForEndL, n))];
    var over, back := [Jmp(Lbl(env, ForThenL, n)), Mark(Lbl(env, ForIterL, n))], [Jmp(Lbl(env, ForL, n)), Mark(Lbl(env, ForThenL, n))];
    var top := JumpMark(Lbl(env, ForL, n), Lbl(env, ForL, n), env, n, h, plan);
    var m := TestFlow(env, c, Je(Lbl(env, ForEndL, n)), n, top, plan);
    var u := JumpMark(Lbl(env, ForThenL, n), Lbl(env, ForIterL, n), env, n, m, plan);
    var v := ExprPoint(env, i, u, plan);
    r := JumpMark(Lbl(env, ForL, n), Lbl(env, ForThenL, n), env, n, v, plan);
    FlowConcat(ExprCode(env, i), back, u, plan);
    FlowConcat(over, ExprCode(env, i) + back, m, plan);
    FlowConcat(ExprCode(env, c) + test, over + (ExprCode(env, i) + back), top, plan);
    FlowConcat(start, (ExprCode(env, c) + test) + (over + (ExprCode(env, i) + back)), h, plan);
    assert ForHead(env, n, c, i) == start + ((ExprCode(env, c) + test) + (over + (ExprCode(env, i) + back)));
  }

  lemma {:induction false} ForFlow(env: Env, n: nat, s: Src.Stmt, plan: Plan, h: Point)
    requires s.For? && Src.Braced(s) && Placed(plan.lab, n, Heights(env, s))
    requires Fits(plan, env) && Arrives(h, env, plan) && (plan.strict ==> TameStmt(plan.p, env, s))
    ensures Balanced(OptCode(env, s.start) + ForHead(env, n, s.cond, s.iter) + StmtCode(env, n + 1, ForTarget(env, n), false, s.loop)
                     + ForTail(env, n), h, plan, env)
    decreases s, 2
  {
    hide FlowCode, ExprCode, StmtCode, OptCode, ForHead, Tame, TameOpt;
    var start, head := OptCode(env, s.start), ForHead(env, n, s.cond, s.iter);
    var body := StmtCode(env, n + 1, ForTarget(env, n), false, s.loop);
    PlacedFirst(plan.lab, n, |env.locals|, Heights(env, s.loop));
    var m := OptPoint(env, s.start, h, plan);
    var r := ForHeadFlow(env, n, s.cond, s.iter, plan, m);
    StmtFlow(env, n + 1, ForTarget(env, n), false, s.loop, plan, r);
    var v := FlowCode(body, r, plan).h;
    var end := JumpMark(Lbl(env, ForIterL, n), Lbl(env, ForEndL, n), env, n, v, plan);
    FlowConcat(start, head, h, plan);
    FlowConcat(start + head, body, h, plan);
    FlowConcat(start + head + body, ForTail(env, n), h, plan);
  }

  lemma {:induction false} IfFlow(env: Env, n: nat, brk: Target, s: Src.Stmt, plan: Plan, h: Point)
    requires s.If? && Src.Braced(s) && Placed(plan.lab, n, Heights(env, s)) && TargetAt(plan, brk, env)
    requires Fits(plan, env) && Arrives(h, env, plan) && (plan.strict ==> TameStmt(plan.p, env, s))
    ensures Balanced(IfHead(env, n, s.cond) + StmtCode(env, n + 1, brk, false, s.thn) + IfMiddle(env, n)
                     + (if s.els.Some? then StmtCode(env, n + 1 + Count(s.thn), brk, false, s.els.value) else [])
                     + IfEnd(env, n), h, plan, env)
    decreases s, 1
  {
    hide FlowCode, ExprCode, StmtCode, Count, Tame;
    var then_, m := StmtCode(env, n + 1, brk, false, s.thn), n + 1 + Count(s.thn);
    var else_ := if s.els.Some? then StmtCode(env, m, brk, false, s.els.value) else [];
    var hs := if s.els.Some? then Heights(env, s.els.value) else [];
    PlacedSplit(plan.lab, n, [|env.locals|] + Heights(env, s.thn), hs);
    PlacedFirst(plan.lab, n, |env.locals|, Heights(env, s.thn));
    var ha := TestFlow(env, s.cond, Je(Lbl(env, ElseL, n)), n, h, plan);
    StmtFlow(env, n + 1, brk, false, s.thn, plan, ha);
    var hb := FlowCode(then_, ha, plan).h;
    var hc := JumpMark(Lbl(env, EndIfL, n), Lbl(env, ElseL, n), env, n, hb, plan);
    if s.els.Some? { StmtFlow(env, m, brk, false, s.els.value, plan, hc); } else { FlowNone(hc, plan); }
    var hd := FlowCode(else_, hc, plan).h;
    var he := JumpMark(Lbl(env, EndIfL, n), Lbl(env, EndIfL, n), env, n, hd, plan);
    FlowFive(IfHead(env, n, s.cond), then_, IfMiddle(env, n), else_, [Mark(Lbl(env, EndIfL, n))], h, ha, hb, hc, hd, plan);
  }

  lemma FlowFive(a: Code, b: Code, c: Code, d: Code, e: Code, h: Point, ha: Point, hb: Point, hc: Point, hd: Point, plan: Plan)
    requires FlowCode(a, h, plan) == Ok(ha) && FlowCode(b, ha, plan) == Ok(hb) && FlowCode(c, hb, plan) == Ok(hc)
    requires FlowCode(d, hc, plan) == Ok(hd)
    ensures FlowCode(a + b + c + d + e, h, plan) == FlowCode(e, hd, plan)
  {
    hide FlowCode;
    FlowConcat(a, b, h, plan);
    FlowConcat(a + b, c, h, plan);
    FlowConcat(a + b + c, d, h, plan);
    FlowConcat(a + b + c + d, e, h, plan);
  }

  lemma {:induction false} BlockFlow(env: Env, n: nat, brk: Target, ret: bool, b: seq<Src.Stmt>, plan: Plan, h: Point)
    requires Src.Braced(Src.Block(b)) && Placed(plan.lab, n, HeightsSeq(env, b)) && TargetAt(plan, brk, env)
    requires Fits(plan, env) && Arrives(h, env, plan) && (plan.strict ==> TameSeq(plan.p, env, b))
    ensures Balanced(BlockCode(env, n, brk, ret, b), h, plan, env)
    decreases b, 1
  {
    hide FlowCode, SeqCode, TameSeq;
    var c, after := SeqCode(env, n, brk, ret, b), AfterSeq(env, b);
    var k := |after.locals| - |env.locals|;
    SeqFlow(env, n, brk, ret, b, plan, h);
    var r := FlowCode(c, h, plan).h;
    if EndsInRet(ret, c) {
      if c == [] { NothingDeclared(env, n, brk, ret, b); } else { AfterRet(c, h, plan); }
    } else {
      var end := PopsPoint(k, r, after, env, plan);
      FlowConcat(c, Pops(k), h, plan);
    }
  }

  /** Nothing falls through a `ret`. */
  lemma AfterRet(c: Code, h: Point, plan: Plan)
    requires c != [] && c[|c| - 1] == Ret && FlowCode(c, h, plan).Ok?
    ensures FlowCode(c, h, plan) == Ok(Dead)
  {
    hide FlowCode, FlowStep;
    var a := c[..|c| - 1];
    assert c == a + [Ret];
    FlowConcat(a, [Ret], h, plan);
    FlowOne(Ret, FlowCode(a, h, plan).h, plan);
    RetStep(FlowCode(a, h, plan).h, plan);
  }

  lemma RetStep(h: Point, plan: Plan)
    ensures FlowStep(Ret, h, plan).Ok? ==> FlowStep(Ret, h, plan) == Ok(Dead)
  {
  }

  lemma {:induction false} NothingDeclared(env: Env, n: nat, brk: Target, ret: bool, ss: seq<Src.Stmt>)
    requires SeqCode(env, n, brk, ret, ss) == []
    ensures AfterSeq(env, ss) == env
    decreases ss
  {
    if ss != [] {
      var c := StmtCode(env, n, brk, ret, ss[0]);
      NothingDeclared(After(env, ss[0]), n + Count(ss[0]), brk, EndsInRet(ret, c), ss[1..]);
    }
  }

  lemma {:induction false} SeqFlow(env: Env, n: nat, brk: Target, ret: bool, ss: seq<Src.Stmt>, plan: Plan, h: Point)
    requires Src.Braced(Src.Block(ss)) && Placed(plan.lab, n, HeightsSeq(env, ss)) && TargetAt(plan, brk, env)
    requires Fits(plan, env) && Arrives(h, env, plan) && (plan.strict ==> TameSeq(plan.p, env, ss))
    ensures Balanced(SeqCode(env, n, brk, ret, ss), h, plan, AfterSeq(env, ss))
    decreases ss, 0
  {
    hide StmtCode, FlowCode, Heights, Placed, EndsInRet, TameStmt;
    if ss == [] {
      FlowNone(h, plan);
    } else {
      var c := StmtCode(env, n, brk, ret, ss[0]);
      var env1, m := After(env, ss[0]), n + Count(ss[0]);
      var rest := SeqCode(env1, m, brk, EndsInRet(ret, c), ss[1..]);
      PlacedSplit(plan.lab, n, Heights(env, ss[0]), HeightsSeq(env1, ss[1..]));
      StmtFlow(env, n, brk, ret, ss[0], plan, h);
      assert forall i :: 0 <= i < |ss[1..]| ==> ss[1..][i] == ss[i + 1];
      SeqFlow(env1, m, brk, EndsInRet(ret, c), ss[1..], plan, FlowCode(c, h, plan).h);
      FlowConcat(c, rest, h, plan);
    }
  }

  function PlanOf(p: Src.Program, strict: bool, d: Src.Fun): Plan {
    Plan(d.name, Heights(EnvOf(d), d.body), |d.params|, strict, p)
  }

  /** A function is entered with nothing above its return address. */
  function Start(d: Src.Fun): Abs { Abs([], Any, Any, Base(-1 - |d.params|), Any) }

  /** The flow through a whole function is well formed, and control never runs off its end. */
  lemma FunctionFlow(p: Src.Program, strict: bool, d: Src.Fun)
    requires Src.Braced(d.body) && !d.body.Decl? && (strict ==> TameFun(p, d))
    ensures FlowCode(FunCode(d), Live(Start(d)), PlanOf(p, strict, d)) == Ok(Dead)
  {
    hide FlowCode, StmtCode, TameStmt;
    var env, plan, h := EnvOf(d), PlanOf(p, strict, d), Live(Start(d));
    var head, body := [Mark(FunctionL(d.name))], StmtCode(env, 0, NoTarget, false, d.body);
    var tail := if EndsInRet(false, body) then [] else [Ret];
    assert Placed(plan.lab, 0, plan.lab);
    StmtFlow(env, 0, NoTarget, false, d.body, plan, h);
    FlowOne(Mark(FunctionL(d.name)), h, plan);
    FlowConcat(head, body, h, plan);
    var r := FlowCode(body, h, plan).h;
    FlowConcat(head + body, tail, h, plan);
    if EndsInRet(false, body) { AfterRet(body, h, plan); FlowNone(Dead, plan); } else { FlowOne(Ret, r, plan); }
  }
}
