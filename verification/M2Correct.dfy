/**
  Code emitted for an expression, a call or a statement computes what the source semantics
  says. The lemmas recurse together along the semantics' own measure.
 */
module M2Correct {
  import opened Options
  import opened M2Word
  import opened M2Machine
  import opened M2Codegen
  import opened M2Simulation
  import Src = M2Source

  /** Functions the claims cover: declarations in braces only. */
  predicate WellFormed(d: Src.Fun) { Src.Braced(d.body) && !d.body.Decl? }

  /** The code of every function of p is in place, and labels are unambiguous. */
  ghost predicate Loaded(code: Code, p: Src.Program) {
    && UniqueLabels(code)
    && forall f :: Src.FindFun(p, f).Some? ==> LoadedFun(code, Src.FindFun(p, f).value)
  }

  predicate LoadedFun(code: Code, d: Src.Fun) {
    && WellFormed(d)
    && Find(code, FunctionL(d.name)).Some?
    && Occurs(code, Find(code, FunctionL(d.name)).value, FunCode(d))
  }

  ghost predicate ExprPre(c: Ctx, env: Env, fuel: nat, fr: Src.Frame, g: Src.Globals, e: Src.Expr,
                          s: State, m: Mem, temps: seq<Value>) {
    && Loaded(c.code, c.p) && Matches(env, fr) && Rel(fr, g, m)
    && Occurs(c.code, s.pc, ExprCode(env, e))
    && In(c, s, s.pc, m, temps)
    && Src.EvalExpr(fuel, c.p, fr, g, e).Value?
  }

  /** From s the machine reaches t, just past the code of e, with e's value in eax, e's stores
      done, and esp, ebp and edi as they were. */
  ghost predicate ExprPost(c: Ctx, env: Env, fuel: nat, fr: Src.Frame, g: Src.Globals, e: Src.Expr,
                           s: State, temps: seq<Value>, t: State, m1: Mem)
    requires Src.EvalExpr(fuel, c.p, fr, g, e).Value?
  {
    var r := Src.EvalExpr(fuel, c.p, fr, g, e);
    && Reaches(c.code, s, t)
    && In(c, t, s.pc + |ExprCode(env, e)|, m1, temps)
    && Rel(r.fr, r.g, m1) && Refines(r.v, t.eax)
  }

  lemma {:induction false} ExprCorrect(c: Ctx, env: Env, fuel: nat, fr: Src.Frame, g: Src.Globals, e: Src.Expr,
                                       s: State, m: Mem, temps: seq<Value>) returns (t: State, m1: Mem)
    requires ExprPre(c, env, fuel, fr, g, e, s, m, temps)
    ensures ExprPost(c, env, fuel, fr, g, e, s, temps, t, m1)
    decreases fuel, e, 1
  {
    hide Exec, FrameStack, Src.LocalNames, Src.Apply, Src.Read, Src.Write, Loaded, Occurs, Src.SameShape, Src.CallFun, Reaches, Rel, Matches;
    match e
    case Const(n) => t := ConstantLoad(c.code, s, n); m1 := m;
    case Paren(e1) => t, m1 := ExprCorrect(c, env, fuel, fr, g, e1, s, m, temps);
    case Var(x) => t := LoadCorrect(c, env, s, fr, g, m, temps, x); m1 := m;
    case Assign(_, _) => t, m1 := AssignCorrect(c, env, fuel, fr, g, e, s, m, temps);
    case Un(_, _) => t, m1 := UnCorrect(c, env, fuel, fr, g, e, s, m, temps);
    case Bin(_, _, _) => t, m1 := BinCorrect(c, env, fuel, fr, g, e, s, m, temps);
    case Call(_, _) => t, m1 := CallExprCorrect(c, env, fuel, fr, g, e, s, m, temps);
  }

  lemma MatchesShape(env: Env, fr: Src.Frame, fr1: Src.Frame)
    requires Matches(env, fr) && Src.SameShape(fr, fr1)
    ensures Matches(env, fr1)
  {
  }

  lemma {:induction false} BinCorrect(c: Ctx, env: Env, fuel: nat, fr: Src.Frame, g: Src.Globals, e: Src.Expr,
                                      s: State, m: Mem, temps: seq<Value>) returns (t: State, m1: Mem)
    requires e.Bin? && ExprPre(c, env, fuel, fr, g, e, s, m, temps)
    ensures ExprPost(c, env, fuel, fr, g, e, s, temps, t, m1)
    decreases fuel, e, 0
  {
    hide Exec, FrameStack, Src.LocalNames, Src.Apply, Loaded, Occurs, Src.SameShape, Src.CallFun, Reaches, OperatorCode, Rel, Matches;
    var left, right := ExprCode(env, e.left), ExprCode(env, e.right);
    var last := [PopEbx] + OperatorCode(e.op);
    OccursSplit(c.code, s.pc, left + [PushEax] + right, last);
    OccursSplit(c.code, s.pc, left + [PushEax], right);
    OccursSplit(c.code, s.pc, left, [PushEax]);
    var r1 := Src.EvalExpr(fuel, c.p, fr, g, e.left);
    var s1, ma := ExprCorrect(c, env, fuel, fr, g, e.left, s, m, temps);
    var s2 := PushCorrect(c, s, s1, ma, temps);
    MatchesShape(env, fr, r1.fr);
    var r2 := Src.EvalExpr(fuel, c.p, r1.fr, r1.g, e.right);
    var s3, mb := ExprCorrect(c, env, fuel, r1.fr, r1.g, e.right, s2, ma, temps + [s1.eax]);
    ReachesTrans(c.code, s, s2, s3);
    assert s3.stack == (FrameStack(c, mb) + temps) + [s1.eax];
    t := OperatorCorrect(c.code, s3, e.op, FrameStack(c, mb) + temps, r1.v.value, r2.v.value);
    ReachesTrans(c.code, s, s3, t);
    m1 := mb;
  }

  lemma {:induction false} UnCorrect(c: Ctx, env: Env, fuel: nat, fr: Src.Frame, g: Src.Globals, e: Src.Expr,
                                     s: State, m: Mem, temps: seq<Value>) returns (t: State, m1: Mem)
    requires e.Un? && ExprPre(c, env, fuel, fr, g, e, s, m, temps)
    ensures ExprPost(c, env, fuel, fr, g, e, s, temps, t, m1)
    decreases fuel, e, 0
  {
    hide Exec, FrameStack, Src.LocalNames, Src.Unary, Loaded, Occurs, Src.SameShape, Src.CallFun, Reaches, UnaryCode, Rel, Matches;
    var head, body, last := UnaryHead(e.uop), ExprCode(env, e.e), [PopEbx] + UnaryCode(e.uop);
    OccursSplit(c.code, s.pc, head + [PushEax] + body, last);
    OccursSplit(c.code, s.pc, head + [PushEax], body);
    OccursSplit(c.code, s.pc, head, [PushEax]);
    var s1 := s;
    ReachesSelf(c.code, s);
    if !e.uop.Compl? { s1 := ConstantLoad(c.code, s, head[0].n); }
    var s2 := PushCorrect(c, s, s1, m, temps);
    var s3, mb := ExprCorrect(c, env, fuel, fr, g, e.e, s2, m, temps + [s1.eax]);
    ReachesTrans(c.code, s, s2, s3);
    assert s3.stack == (FrameStack(c, mb) + temps) + [s1.eax];
    t := UnaryCorrect(c.code, s3, e.uop, FrameStack(c, mb) + temps, s1.eax, Src.EvalExpr(fuel, c.p, fr, g, e.e).v.value);
    ReachesTrans(c.code, s, s3, t);
    m1 := mb;
  }

  lemma {:induction false} AssignCorrect(c: Ctx, env: Env, fuel: nat, fr: Src.Frame, g: Src.Globals, e: Src.Expr,
                                         s: State, m: Mem, temps: seq<Value>) returns (t: State, m1: Mem)
    requires e.Assign? && ExprPre(c, env, fuel, fr, g, e, s, m, temps)
    ensures ExprPost(c, env, fuel, fr, g, e, s, temps, t, m1)
    decreases fuel, e, 0
  {
    hide Exec, FrameStack, Src.LocalNames, Loaded, Occurs, Src.SameShape, Src.CallFun, Reaches, Src.Locate, Rel;
    var x := e.target.x;
    var left, right := ExprCode(env, e.target), ExprCode(env, e.value);
    OccursSplit(c.code, s.pc, left + [PushEax] + right, [PopEbx, StoreEbx]);
    OccursSplit(c.code, s.pc, left + [PushEax], right);
    OccursSplit(c.code, s.pc, left, [PushEax]);
    var r1 := Src.EvalExpr(fuel, c.p, fr, g, e.value);
    MatchesShape(env, fr, r1.fr);
    assert Locate(env, x) == Src.PlaceOf(r1.fr, x);
    var s1 := AddressCorrect(c, env, s, x);
    var s2 := PushCorrect(c, s, s1, m, temps);
    var s3, mb := ExprCorrect(c, env, fuel, fr, g, e.value, s2, m, temps + [s1.eax]);
    ReachesTrans(c.code, s, s2, s3);
    t, m1 := StoreCorrect(c, env, s3, r1.fr, r1.g, mb, temps, x, r1.v);
    ReachesTrans(c.code, s, s3, t);
  }

  ghost predicate ArgsPost(c: Ctx, env: Env, fuel: nat, fr: Src.Frame, g: Src.Globals, es: seq<Src.Expr>,
                           s: State, temps: seq<Value>, t: State, m1: Mem, vs: seq<Value>)
    requires Src.EvalArgs(fuel, c.p, fr, g, es).Values?
  {
    var r := Src.EvalArgs(fuel, c.p, fr, g, es);
    && Reaches(c.code, s, t)
    && In(c, t, s.pc + |ArgsCode(env, es)|, m1, temps + vs)
    && Rel(r.fr, r.g, m1) && RefinesAll(r.vs, vs)
  }

  /** Arguments are evaluated left to right and pushed in that order. */
  lemma {:induction false} ArgsCorrect(c: Ctx, env: Env, fuel: nat, fr: Src.Frame, g: Src.Globals, es: seq<Src.Expr>,
                                       s: State, m: Mem, temps: seq<Value>) returns (t: State, m1: Mem, vs: seq<Value>)
    requires Loaded(c.code, c.p) && Matches(env, fr) && Rel(fr, g, m)
    requires Occurs(c.code, s.pc, ArgsCode(env, es))
    requires In(c, s, s.pc, m, temps)
    requires Src.EvalArgs(fuel, c.p, fr, g, es).Values?
    ensures ArgsPost(c, env, fuel, fr, g, es, s, temps, t, m1, vs)
    decreases fuel, es, 0
  {
    hide Exec, FrameStack, Src.LocalNames, Loaded, Occurs, Src.SameShape, Src.CallFun, Reaches, Rel, Matches;
    ReachesSelf(c.code, s);
    if es == [] {
      t, m1, vs := s, m, [];
      assert temps + [] == temps;
    } else {
      var first, rest := ExprCode(env, es[0]), ArgsCode(env, es[1..]);
      OccursSplit(c.code, s.pc, first + [PushEax], rest);
      OccursSplit(c.code, s.pc, first, [PushEax]);
      var r1 := Src.EvalExpr(fuel, c.p, fr, g, es[0]);
      var s1, ma := ExprCorrect(c, env, fuel, fr, g, es[0], s, m, temps);
      var s2 := PushCorrect(c, s, s1, ma, temps);
      MatchesShape(env, fr, r1.fr);
      var us;
      t, m1, us := ArgsCorrect(c, env, fuel, r1.fr, r1.g, es[1..], s2, ma, temps + [s1.eax]);
      ReachesTrans(c.code, s, s2, t);
      vs := [s1.eax] + us;
      assert temps + [s1.eax] + us == temps + vs;
    }
  }

  lemma {:induction false} CallExprCorrect(c: Ctx, env: Env, fuel: nat, fr: Src.Frame, g: Src.Globals, e: Src.Expr,
                                           s: State, m: Mem, temps: seq<Value>) returns (t: State, m1: Mem)
    requires e.Call? && ExprPre(c, env, fuel, fr, g, e, s, m, temps)
    ensures ExprPost(c, env, fuel, fr, g, e, s, temps, t, m1)
    decreases fuel, e, 0
  {
    hide Exec, FrameStack, Src.LocalNames, Loaded, Occurs, Src.SameShape, Src.CallFun, Reaches, Rel, Matches;
    var args := ArgsCode(env, e.args);
    var n := |e.args|;
    var enter := [MovEbpEdi, Instr.Call(e.f)];
    var leave := Pops(n) + RESTORE_FRAME;
    OccursSplit(c.code, s.pc, SAVE_FRAME + args, [MovEbpEdi, Instr.Call(e.f)] + Pops(n) + RESTORE_FRAME);
    OccursSplit(c.code, s.pc, SAVE_FRAME, args);
    assert [MovEbpEdi, Instr.Call(e.f)] + Pops(n) + RESTORE_FRAME == enter + leave;
    OccursSplit(c.code, s.pc + 3 + |args|, enter, leave);
    var s1 := SaveCorrect(c, s, m, temps);
    var inner := c.(edi := StackAt(-4 * (|s.stack| + 2)));
    var saved := temps + [s.edi, s.ebp];
    var r := Src.EvalArgs(fuel, c.p, fr, g, e.args);
    var s2, ma, vs := ArgsCorrect(inner, env, fuel, fr, g, e.args, s1, m, saved);
    ReachesTrans(c.code, s, s1, s2);
    ShapeSizes(fr, g, m, r.fr, r.g, ma);
    t, m1 := InvokeCorrect(c, inner, fuel - 1, e.f, r.vs, r.fr, r.g, s2, ma, temps, vs);
    ReachesTrans(c.code, s, s2, t);
  }

  /** From the pushed arguments to the restored registers. */
  lemma {:induction false} InvokeCorrect(c: Ctx, inner: Ctx, fuel: nat, f: string, nums: seq<Src.Num>, fr: Src.Frame,
                                         g: Src.Globals, s: State, m: Mem, temps: seq<Value>, vs: seq<Value>)
    returns (t: State, m1: Mem)
    requires Loaded(c.code, c.p) && Src.CallFun(fuel, c.p, f, nums, g).Result?
    requires var saved := temps + [c.edi, StackAt(-4 * |c.below|)];
      && inner == c.(edi := StackAt(-4 * (|FrameStack(c, m)| + |saved|)))
      && In(inner, s, s.pc, m, saved + vs)
    requires Rel(fr, g, m) && RefinesAll(nums, vs)
    requires Occurs(c.code, s.pc, [MovEbpEdi, Instr.Call(f)] + (Pops(|vs|) + RESTORE_FRAME))
    ensures var r := Src.CallFun(fuel, c.p, f, nums, g);
      && Reaches(c.code, s, t) && In(c, t, s.pc + 4 + |vs|, m1, temps)
      && Rel(fr, r.g, m1) && Refines(r.v, t.eax)
    decreases fuel, c.p, 1
  {
    hide Exec, FrameStack, Loaded, Occurs, Src.CallFun, Reaches, Rel;
    var saved := temps + [c.edi, StackAt(-4 * |c.below|)];
    FrameStackOf(inner, m, c, m);
    var below := FrameStack(c, m) + saved;
    OccursSplit(c.code, s.pc, [MovEbpEdi, Instr.Call(f)], Pops(|vs|) + RESTORE_FRAME);
    LoadedEntry(c.code, c.p, fuel, f, nums, g);
    ReachesSelf(c.code, s);
    var s3 := EnterCorrect(c.code, s, s, f, Find(c.code, FunctionL(f)).value);
    assert s3.stack == below + vs + [CodeAt(s.pc + 2)];
    RelGlobalsOf(fr, g, m);
    var s4, out := CallFunCorrect(c.code, c.p, fuel, f, nums, g, s3, below, s.pc + 2, vs);
    ReachesTrans(c.code, s, s3, s4);
    m1 := m.(globals := s4.globals);
    FrameStackOf(c, m, c, m1);
    t := RestoreCorrect(c, s, s4, m1, temps, out);
    RelWithGlobals(fr, g, m, Src.CallFun(fuel, c.p, f, nums, g).g, s4.globals);
  }

  lemma RelGlobalsOf(fr: Src.Frame, g: Src.Globals, m: Mem)
    requires Rel(fr, g, m)
    ensures RelGlobals(g, m.globals)
  {
  }

  lemma FrameStackOf(c: Ctx, m: Mem, c1: Ctx, m1: Mem)
    requires c.below == c1.below && c.ra == c1.ra && m.args == m1.args && m.locals == m1.locals
    ensures FrameStack(c, m) == FrameStack(c1, m1)
  {
  }

  lemma RelWithGlobals(fr: Src.Frame, g: Src.Globals, m: Mem, g1: Src.Globals, mg: map<string, Value>)
    requires Rel(fr, g, m) && RelGlobals(g1, mg)
    ensures Rel(fr, g1, m.(globals := mg))
  {
  }

  lemma ShapeSizes(fr: Src.Frame, g: Src.Globals, m: Mem, fr1: Src.Frame, g1: Src.Globals, m1: Mem)
    requires Rel(fr, g, m) && Rel(fr1, g1, m1) && Src.SameShape(fr, fr1)
    ensures |m.args| == |m1.args| && |m.locals| == |m1.locals|
    ensures RelGlobals(g1, m1.globals)
  {
  }

  lemma LoadedEntry(code: Code, p: Src.Program, fuel: nat, f: string, vs: seq<Src.Num>, g: Src.Globals)
    requires Loaded(code, p) && Src.CallFun(fuel, p, f, vs, g).Result?
    ensures fuel > 0 && Src.FindFun(p, f).Some?
    ensures LoadedFun(code, Src.FindFun(p, f).value) && Src.FindFun(p, f).value.name == f
    ensures Find(code, FunctionL(f)).Some?
  {
  }

  // ----- statements -----

  predicate TargetOk(code: Code, brk: Target, env: Env) {
    brk.Target? ==> Find(code, brk.l).Some? && brk.frame <= |env.locals|
  }

  ghost predicate StmtPre(c: Ctx, env: Env, brk: Target, fr: Src.Frame, g: Src.Globals, s: State, m: Mem) {
    && Loaded(c.code, c.p) && TargetOk(c.code, brk, env)
    && Matches(env, fr) && Rel(fr, g, m) && fr.pending.None?
    && In(c, s, s.pc, m, [])
  }

  function Cut(fr: Src.Frame, k: nat): Src.Frame
    requires k <= |fr.locals|
  {
    fr.(locals := fr.locals[..k])
  }

  /** How a statement's code, ending at position `end`, is left: falling through with the
      frame of the semantics; at the label of the innermost loop with that loop's locals; or
      back at the caller, with only the arguments left on its stack and the result in eax. */
  ghost predicate Finished(c: Ctx, brk: Target, r: Src.Outcome, end: nat, s: State, t: State, m1: Mem)
    requires r.Done?
  {
    match r.exit
    case Normal => Reaches(c.code, s, t) && In(c, t, end, m1, []) && Rel(r.fr, r.g, m1)
    case Broke =>
      brk.Target? && Find(c.code, brk.l).Some? && brk.frame <= |r.fr.locals| ==>
        Reaches(c.code, s, t) && In(c, t, Find(c.code, brk.l).value, m1, []) && Rel(Cut(r.fr, brk.frame), r.g, m1)
    case Returned =>
      && Reaches(c.code, s, t) && t.pc == c.ra && t.edi == c.edi
      && t.stack == c.below + m1.args && RefinesCells(r.fr.args, m1.args)
      && RelGlobals(r.g, t.globals) && Refines(r.v, t.eax)
  }

  /** What has been done before the rest of a statement carries over. */
  lemma FinishedAfter(c: Ctx, brk: Target, r: Src.Outcome, end: nat, s: State, u: State, t: State, m1: Mem)
    requires r.Done? && Reaches(c.code, s, u) && Finished(c, brk, r, end, u, t, m1)
    ensures Finished(c, brk, r, end, s, t, m1)
  {
    hide Rel, In, Reaches;
    if Reaches(c.code, u, t) { ReachesTrans(c.code, s, u, t); }
  }

  /** Calling f: from its entry, with the arguments and the return address on the stack, back to
      the return address with the arguments still there, the result in eax and edi untouched. */
  lemma {:induction false} CallFunCorrect(code: Code, p: Src.Program, fuel: nat, f: string, vs: seq<Src.Num>, g: Src.Globals,
                                          s: State, below: seq<Value>, ra: nat, args: seq<Value>)
    returns (t: State, out: seq<Value>)
    requires Loaded(code, p) && Src.CallFun(fuel, p, f, vs, g).Result?
    requires Find(code, FunctionL(f)) == Some(s.pc)
    requires s.stack == below + args + [CodeAt(ra)] && s.ebp == StackAt(-4 * |below|)
    requires RefinesAll(vs, args) && RelGlobals(g, s.globals)
    ensures var r := Src.CallFun(fuel, p, f, vs, g);
      && Reaches(code, s, t) && t.pc == ra && t.edi == s.edi
      && t.stack == below + out && |out| == |args| && RefinesCells(r.args, out)
      && RelGlobals(r.g, t.globals) && Refines(r.v, t.eax)
    decreases fuel, p, 0
  {
    hide Exec, Loaded, Occurs, Reaches, Src.ExecStmt, StmtCode;
    LoadedEntry(code, p, fuel, f, vs, g);
    var d := Src.FindFun(p, f).value;
    ReachesSelf(code, s);
    var c := Ctx(code, p, below, ra, s.edi);
    var m := Mem(args, [], s.globals);
    assert FrameStack(c, m) + [] == s.stack;
    var fr := Src.Frame(d.scope, Src.Bind(d.params, vs), [], None);
    t, out := FunBodyCorrect(c, d, fuel - 1, fr, g, s, m);
  }

  lemma {:induction false} FunBodyCorrect(c: Ctx, d: Src.Fun, fuel: nat, fr: Src.Frame, g: Src.Globals, s: State, m: Mem)
    returns (t: State, out: seq<Value>)
    requires Loaded(c.code, c.p) && WellFormed(d) && d.name != "main"
    requires Occurs(c.code, s.pc, FunCode(d))
    requires fr.scope == d.scope && Src.Names(fr.args) == d.params && fr.locals == [] && fr.pending.None?
    requires In(c, s, s.pc, m, []) && Rel(fr, g, m)
    requires Src.ExecStmt(fuel, c.p, fr, g, d.body).Done? && !Src.ExecStmt(fuel, c.p, fr, g, d.body).exit.Broke?
    ensures var r := Src.ExecStmt(fuel, c.p, fr, g, d.body);
      && Reaches(c.code, s, t) && t.pc == c.ra && t.edi == c.edi
      && t.stack == c.below + out && |out| == |fr.args| && RefinesCells(r.fr.args, out)
      && RelGlobals(r.g, t.globals) && (r.exit.Returned? ==> Refines(r.v, t.eax))
    decreases fuel, d.body, 7
  {
    hide Exec, Loaded, Occurs, Reaches, Src.ExecStmt, StmtCode, FrameStack, RelGlobals, EndsInRet, Src.Braced, Find, In, StmtPre;
    var env := Env(d.name, d.scope, d.params, []);
    var body := StmtCode(env, 0, NoTarget, false, d.body);
    var tail := if EndsInRet(false, body) then [] else [Ret];
    OccursSplit(c.code, s.pc, [Mark(FunctionL(d.name))] + body, tail);
    OccursSplit(c.code, s.pc, [Mark(FunctionL(d.name))], body);
    ReachesSelf(c.code, s);
    var s1 := MarkCorrect(c.code, s, s, FunctionL(d.name));
    BodyPre(c, env, fr, g, s, s1, m);
    var r := Src.ExecStmt(fuel, c.p, fr, g, d.body);
    var m1;
    t, m1 := StmtCorrect(c, env, 0, NoTarget, false, fuel, fr, g, d.body, s1, m);
    FinishedAfter(c, NoTarget, r, s1.pc + |body|, s, s1, t, m1);
    SameNames(fr, r.fr);
    out := m1.args;
    if r.exit.Normal? {
      StmtNotRet(env, 0, NoTarget, false, fuel, c.p, fr, g, d.body);
      InRegisters(c, t, s1.pc + |body|, m1);
      t := RetCorrect(c, s, t, m1);
    }
  }

  lemma BodyPre(c: Ctx, env: Env, fr: Src.Frame, g: Src.Globals, s: State, s1: State, m: Mem)
    requires Loaded(c.code, c.p) && Matches(env, fr) && fr.pending.None?
    requires In(c, s, s.pc, m, []) && Rel(fr, g, m) && s1 == s.(pc := s.pc + 1)
    ensures StmtPre(c, env, NoTarget, fr, g, s1, m)
  {
    hide Loaded, Matches, Rel, FrameStack;
  }

  lemma InRegisters(c: Ctx, s: State, pc: nat, m: Mem)
    requires In(c, s, pc, m, [])
    ensures s.pc == pc && s.edi == c.edi && s.globals == m.globals
  {
    hide FrameStack;
  }

  lemma SameNames(a: Src.Frame, b: Src.Frame)
    requires Src.Names(a.args) == Src.Names(b.args)
    ensures |a.args| == |b.args|
    ensures Src.Names(a.locals) == Src.Names(b.locals) ==> |a.locals| == |b.locals|
  {
    assert |Src.Names(a.args)| == |a.args| && |Src.Names(a.locals)| == |a.locals|;
  }

  /** A statement that ends normally did not end in `ret`. */
  lemma {:induction false} StmtNotRet(env: Env, n: nat, brk: Target, ret: bool, fuel: nat, p: Src.Program,
                                      fr: Src.Frame, g: Src.Globals, st: Src.Stmt)
    requires fr.pending.None? && Src.ExecStmt(fuel, p, fr, g, st).Done? && Src.ExecStmt(fuel, p, fr, g, st).exit.Normal?
    ensures !EndsInRet(false, StmtCode(env, n, brk, ret, st))
    decreases st, 1
  {
    hide ExprCode, OptCode, Src.ExecExpr, Src.ExecOpt, Src.ExecWhile, Src.ExecDo, Src.ExecFor, Src.ExecSeq, SeqCode, Src.Extends, Src.Braced;
    match st
    case ExprS(e) => ExprNotRet(env, e);
    case Block(body) => SeqNotRet(env, n, brk, ret, fuel, p, fr, g, body);
    case _ =>
  }

  lemma {:induction false} SeqNotRet(env: Env, n: nat, brk: Target, ret: bool, fuel: nat, p: Src.Program,
                                     fr: Src.Frame, g: Src.Globals, ss: seq<Src.Stmt>)
    requires fr.pending.None? && Src.ExecSeq(fuel, p, fr, g, ss).Done? && Src.ExecSeq(fuel, p, fr, g, ss).exit.Normal?
    ensures !EndsInRet(false, SeqCode(env, n, brk, ret, ss))
    decreases ss, 0
  {
    hide Src.ExecStmt, StmtCode;
    if ss != [] {
      StmtNotRet(env, n, brk, ret, fuel, p, fr, g, ss[0]);
      var c := StmtCode(env, n, brk, ret, ss[0]);
      SeqNotRet(After(env, ss[0]), n + Count(ss[0]), brk, EndsInRet(ret, c), fuel, p,
                Src.ExecStmt(fuel, p, fr, g, ss[0]).fr, Src.ExecStmt(fuel, p, fr, g, ss[0]).g, ss[1..]);
    }
  }

  lemma {:induction false} ExprNotRet(env: Env, e: Src.Expr)
    ensures !EndsInRet(false, ExprCode(env, e))
  {
    hide Src.Locate, Src.Apply;
    match e
    case Bin(op, l, r) => assert OperatorCode(op) != [] && OperatorCode(op)[|OperatorCode(op)| - 1] != Ret;
    case Paren(e1) => ExprNotRet(env, e1);
    case Un(op, _) => assert UnaryCode(op) != [] && UnaryCode(op)[|UnaryCode(op)| - 1] != Ret;
    case _ =>
  }

  lemma {:induction false} StmtCorrect(c: Ctx, env: Env, n: nat, brk: Target, ret: bool, fuel: nat, fr: Src.Frame,
                                       g: Src.Globals, st: Src.Stmt, s: State, m: Mem) returns (t: State, m1: Mem)
    requires StmtPre(c, env, brk, fr, g, s, m) && Src.Braced(st)
    requires Occurs(c.code, s.pc, StmtCode(env, n, brk, ret, st))
    requires Src.ExecStmt(fuel, c.p, fr, g, st).Done?
    ensures Finished(c, brk, Src.ExecStmt(fuel, c.p, fr, g, st), s.pc + |StmtCode(env, n, brk, ret, st)|, s, t, m1)
    decreases fuel, st, 5
  {
    hide Exec, FrameStack, Loaded, Occurs, Reaches, Rel, Matches, In, Finished, TargetOk, Src.Braced, Src.Extends;
    hide Src.ExecWhile, Src.ExecDo, Src.ExecFor, Src.ExecOpt, Src.ExecExpr, Src.ExecSeq, ExprCode, BlockCode;
    match st
    case ExprS(e) => t, m1 := ExprStmt(c, env, brk, fuel, fr, g, e, s, m);
    case Block(body) => t, m1 := BlockCorrect(c, env, n, brk, ret, fuel, fr, g, body, s, m);
    case Decl(_, _) => t, m1 := DeclCorrect(c, env, n, brk, ret, fuel, fr, g, st, s, m);
    case If(_, _, _) => t, m1 := IfCorrect(c, env, n, brk, fuel, fr, g, st, s, m, s.pc + |StmtCode(env, n, brk, ret, st)|);
    case While(_, _) => t, m1 := WhileStmt(c, env, n, brk, fuel, fr, g, st, s, m);
    case DoWhile(_, _) => t, m1 := DoStmt(c, env, n, brk, fuel, fr, g, st, s, m);
    case For(_, _, _, _) => t, m1 := ForStmt(c, env, n, brk, fuel, fr, g, st, s, m);
    case Return(_) => t, m1 := ReturnCorrect(c, env, n, brk, ret, fuel, fr, g, st, s, m);
    case Break => t, m1 := BreakCorrect(c, env, n, brk, ret, fuel, fr, g, s, m);
  }

  lemma {:induction false} ExprStmt(c: Ctx, env: Env, brk: Target, fuel: nat, fr: Src.Frame, g: Src.Globals, e: Src.Expr,
                                    s: State, m: Mem) returns (t: State, m1: Mem)
    requires StmtPre(c, env, brk, fr, g, s, m) && Occurs(c.code, s.pc, ExprCode(env, e))
    requires Src.ExecExpr(fuel, c.p, fr, g, e).Done?
    ensures Finished(c, brk, Src.ExecExpr(fuel, c.p, fr, g, e), s.pc + |ExprCode(env, e)|, s, t, m1)
    decreases fuel, e, 2
  {
    hide Exec, FrameStack, Loaded, Occurs, Reaches, Rel, Matches, Src.EvalExpr, ExprCode;
    t, m1 := ExprCorrect(c, env, fuel, fr, g, e, s, m, []);
  }

  // An optional expression; without one, eax holds whatever it held.
  lemma {:induction false} OptCorrect(c: Ctx, env: Env, fuel: nat, fr: Src.Frame, g: Src.Globals, e: Option<Src.Expr>,
                                      s: State, m: Mem) returns (t: State, m1: Mem)
    requires Loaded(c.code, c.p) && Matches(env, fr) && Rel(fr, g, m) && In(c, s, s.pc, m, [])
    requires Occurs(c.code, s.pc, OptCode(env, e))
    requires Src.ExecOpt(fuel, c.p, fr, g, e).Done?
    ensures var r := Src.ExecOpt(fuel, c.p, fr, g, e);
      && Reaches(c.code, s, t) && In(c, t, s.pc + |OptCode(env, e)|, m1, [])
      && Rel(r.fr, r.g, m1) && Refines(r.v, t.eax)
    decreases fuel, e, 2
  {
    hide Exec, FrameStack, Loaded, Occurs, Reaches, Rel, Matches, Src.EvalExpr, ExprCode;
    match e
    case None => ReachesSelf(c.code, s); t, m1 := s, m;
    case Some(x) => t, m1 := ExprCorrect(c, env, fuel, fr, g, x, s, m, []);
  }

  // A tested expression: control goes to the label or falls through, with the stack as before.
  lemma {:induction false} CondCorrect(c: Ctx, env: Env, fuel: nat, fr: Src.Frame, g: Src.Globals, e: Src.Expr,
                                       s: State, m: Mem, onZero: bool, l: Label, target: nat) returns (t: State, m1: Mem)
    requires Loaded(c.code, c.p) && Matches(env, fr) && Rel(fr, g, m) && In(c, s, s.pc, m, [])
    requires Occurs(c.code, s.pc, ExprCode(env, e)) && Occurs(c.code, target, [Mark(l)])
    requires Occurs(c.code, s.pc + |ExprCode(env, e)|, [TestEaxEax, if onZero then Je(l) else Jne(l)])
    requires Src.ExecExpr(fuel, c.p, fr, g, e).Done? && Src.ExecExpr(fuel, c.p, fr, g, e).v.Some?
    ensures var r := Src.ExecExpr(fuel, c.p, fr, g, e);
      && Reaches(c.code, s, t)
      && In(c, t, if (r.v.value == 0) == onZero then target + 1 else s.pc + |ExprCode(env, e)| + 2, m1, [])
      && Rel(r.fr, r.g, m1) && Matches(env, r.fr)
    decreases fuel, e, 2
  {
    hide Exec, FrameStack, Occurs, Reaches, Rel, Matches, Src.EvalExpr, ExprCode, UniqueLabels;
    var u;
    u, m1 := ExprCorrect(c, env, fuel, fr, g, e, s, m, []);
    t := BranchCorrect(c.code, s, u, onZero, l, target, Src.ExecExpr(fuel, c.p, fr, g, e).v.value);
    MatchesShape(env, fr, Src.ExecExpr(fuel, c.p, fr, g, e).fr);
  }

  lemma WhileParts(code: Code, start: nat, env: Env, n: nat, st: Src.Stmt)
    requires st.While?
    requires Occurs(code, start, WhileHead(env, n, st.cond) + StmtCode(env, n + 1, WhileTarget(env, n), false, st.loop) + WhileTail(env, n))
    ensures Occurs(code, start, [Mark(Lbl(env, WhileL, n))])
    ensures Occurs(code, start + 1, ExprCode(env, st.cond))
    ensures var k := start + 1 + |ExprCode(env, st.cond)|;
      && Occurs(code, k, [TestEaxEax, Je(Lbl(env, EndWhileL, n))])
      && Occurs(code, k + 2, StmtCode(env, n + 1, WhileTarget(env, n), false, st.loop))
      && var j := k + 2 + |StmtCode(env, n + 1, WhileTarget(env, n), false, st.loop)|;
      && Occurs(code, j, [Jmp(Lbl(env, WhileL, n))]) && Occurs(code, j + 1, [Mark(Lbl(env, EndWhileL, n))])
  {
    hide Occurs, StmtCode, ExprCode;
    var mark, test := [Mark(Lbl(env, WhileL, n))], [TestEaxEax, Je(Lbl(env, EndWhileL, n))];
    var jump, end := [Jmp(Lbl(env, WhileL, n))], [Mark(Lbl(env, EndWhileL, n))];
    var body := StmtCode(env, n + 1, WhileTarget(env, n), false, st.loop);
    assert WhileTail(env, n) == jump + end;
    OccursSplit(code, start, WhileHead(env, n, st.cond) + body, WhileTail(env, n));
    OccursSplit(code, start, WhileHead(env, n, st.cond), body);
    OccursSplit(code, start, mark + ExprCode(env, st.cond), test);
    OccursSplit(code, start, mark, ExprCode(env, st.cond));
    OccursSplit(code, start + |WhileHead(env, n, st.cond)| + |body|, jump, end);
  }

  lemma {:induction false} WhileStmt(c: Ctx, env: Env, n: nat, brk: Target, fuel: nat, fr: Src.Frame, g: Src.Globals,
                                     st: Src.Stmt, s: State, m: Mem) returns (t: State, m1: Mem)
    requires st.While? && Src.Braced(st) && StmtPre(c, env, brk, fr, g, s, m)
    requires Occurs(c.code, s.pc, WhileHead(env, n, st.cond) + StmtCode(env, n + 1, WhileTarget(env, n), false, st.loop) + WhileTail(env, n))
    requires Src.ExecWhile(fuel, c.p, fr, g, st).Done?
    ensures Finished(c, brk, Src.ExecWhile(fuel, c.p, fr, g, st),
                     s.pc + |WhileHead(env, n, st.cond)| + |StmtCode(env, n + 1, WhileTarget(env, n), false, st.loop)| + 2, s, t, m1)
    decreases fuel, st, 2
  {
    hide Exec, FrameStack, Occurs, Reaches, Rel, Matches, Src.ExecWhile, ExprCode, StmtCode, Loaded;
    WhileParts(c.code, s.pc, env, n, st);
    ReachesSelf(c.code, s);
    var u := MarkCorrect(c.code, s, s, Lbl(env, WhileL, n));
    t, m1 := WhileCorrect(c, env, n, brk, fuel, fr, g, st, s.pc, u, m);
    FinishedAfter(c, brk, Src.ExecWhile(fuel, c.p, fr, g, st),
                  s.pc + |WhileHead(env, n, st.cond)| + |StmtCode(env, n + 1, WhileTarget(env, n), false, st.loop)| + 2, s, u, t, m1);
  }

  lemma {:induction false} WhileCorrect(c: Ctx, env: Env, n: nat, brk: Target, fuel: nat, fr: Src.Frame, g: Src.Globals,
                                        st: Src.Stmt, start: nat, s: State, m: Mem) returns (t: State, m1: Mem)
    requires st.While? && Src.Braced(st) && StmtPre(c, env, brk, fr, g, s, m) && s.pc == start + 1
    requires Occurs(c.code, start, WhileHead(env, n, st.cond) + StmtCode(env, n + 1, WhileTarget(env, n), false, st.loop) + WhileTail(env, n))
    requires Src.ExecWhile(fuel, c.p, fr, g, st).Done?
    ensures Finished(c, brk, Src.ExecWhile(fuel, c.p, fr, g, st),
                     start + |WhileHead(env, n, st.cond)| + |StmtCode(env, n + 1, WhileTarget(env, n), false, st.loop)| + 2, s, t, m1)
    decreases fuel, st, 1
  {
    hide Exec, FrameStack, Occurs, Reaches, Rel, Matches, Src.ExecStmt, Src.ExecExpr, ExprCode, StmtCode, UniqueLabels;
    WhileParts(c.code, start, env, n, st);
    var inner := WhileTarget(env, n);
    var bodyAt := start + 1 + |ExprCode(env, st.cond)| + 2;
    var exitAt := bodyAt + |StmtCode(env, n + 1, inner, false, st.loop)| + 1;
    var r1 := Src.ExecExpr(fuel, c.p, fr, g, st.cond);
    t, m1 := CondCorrect(c, env, fuel, fr, g, st.cond, s, m, true, Lbl(env, EndWhileL, n), exitAt);
    if r1.v.value != 0 {
      var u, mb := BodyCorrect(c, env, n + 1, Lbl(env, EndWhileL, n), fuel, r1.fr, r1.g, st.loop, t, m1, exitAt);
      ReachesTrans(c.code, s, t, u);
      var r2 := Src.ExecStmt(fuel, c.p, r1.fr, r1.g, st.loop);
      t, m1 := u, mb;
      if r2.exit.Normal? {
        t := JumpCorrect(c.code, s, u, Lbl(env, WhileL, n), start);
        var back := t;
        t, m1 := WhileCorrect(c, env, n, brk, fuel - 1, r2.fr, r2.g, st, start, back, m1);
        FinishedAfter(c, brk, Src.ExecWhile(fuel, c.p, fr, g, st), exitAt + 1, s, back, t, m1);
      }
    }
  }

  /** A loop body: `break` leads just past the loop's exit label with the loop's own locals. */
  lemma {:induction false} BodyCorrect(c: Ctx, env: Env, n: nat, l: Label, fuel: nat, fr: Src.Frame, g: Src.Globals,
                                       body: Src.Stmt, s: State, m: Mem, exitAt: nat) returns (t: State, m1: Mem)
    requires Loaded(c.code, c.p) && Matches(env, fr) && Rel(fr, g, m) && fr.pending.None? && In(c, s, s.pc, m, [])
    requires Src.Braced(body) && !body.Decl?
    requires Occurs(c.code, s.pc, StmtCode(env, n, Target(l, |env.locals|), false, body))
    requires Occurs(c.code, exitAt, [Mark(l)])
    requires Src.ExecStmt(fuel, c.p, fr, g, body).Done?
    ensures var r := Src.ExecStmt(fuel, c.p, fr, g, body);
      && Reaches(c.code, s, t) && Matches(env, r.fr) && r.fr.pending.None?
      && match r.exit
         case Normal => In(c, t, s.pc + |StmtCode(env, n, Target(l, |env.locals|), false, body)|, m1, []) && Rel(r.fr, r.g, m1)
         case Broke => In(c, t, exitAt + 1, m1, []) && Rel(r.fr, r.g, m1)
         case Returned => Finished(c, NoTarget, r, 0, s, t, m1)
    decreases fuel, body, 6
  {
    hide Exec, FrameStack, Occurs, Reaches, Rel, Src.ExecStmt, StmtCode;
    var inner := Target(l, |env.locals|);
    LabelFound(c.code, l, exitAt);
    t, m1 := StmtCorrect(c, env, n, inner, false, fuel, fr, g, body, s, m);
    var r := Src.ExecStmt(fuel, c.p, fr, g, body);
    MatchesAfter(env, fr, r.fr, []);
    if r.exit.Broke? {
      assert |r.fr.locals| == |env.locals| by { assert |Src.Names(r.fr.locals)| == |r.fr.locals|; }
      assert Cut(r.fr, |env.locals|) == r.fr;
      t := MarkCorrect(c.code, s, t, l);
    }
  }

  lemma LabelFound(code: Code, l: Label, at: nat)
    requires UniqueLabels(code) && Occurs(code, at, [Mark(l)])
    ensures Find(code, l) == Some(at)
  {
    Fetch(code, at, [Mark(l)]);
    FindUnique(code, l, at);
  }

  lemma MatchesAfter(env: Env, fr: Src.Frame, fr1: Src.Frame, added: seq<string>)
    requires Matches(env, fr) && fr.pending.None? && Src.Extends(fr, fr1)
    requires Src.Names(fr1.locals) == Src.Names(fr.locals) + added
    ensures Matches(env.(locals := env.locals + added), fr1) && fr1.pending.None?
    ensures added == [] ==> Matches(env, fr1)
  {
    assert Src.LocalNames(fr) == Src.Names(fr.locals);
    assert Src.LocalNames(fr1) == Src.Names(fr1.locals);
    if added == [] { assert env.locals + added == env.locals; }
  }

  // ----- do -----

  function DoCode(env: Env, n: nat, st: Src.Stmt): Code
    requires st.DoWhile?
  {
    DoHead(env, n) + StmtCode(env, n + 1, DoTarget(env, n), false, st.loop) + DoTail(env, n, st.cond)
  }

  lemma DoParts(code: Code, start: nat, env: Env, n: nat, st: Src.Stmt)
    requires st.DoWhile? && Occurs(code, start, DoCode(env, n, st))
    ensures Occurs(code, start, [Mark(Lbl(env, DoL, n))])
    ensures Occurs(code, start + 1, StmtCode(env, n + 1, DoTarget(env, n), false, st.loop))
    ensures var k := start + 1 + |StmtCode(env, n + 1, DoTarget(env, n), false, st.loop)|;
      && Occurs(code, k, [Mark(Lbl(env, DoTestL, n))])
      && Occurs(code, k + 1, ExprCode(env, st.cond))
      && var j := k + 1 + |ExprCode(env, st.cond)|;
      && Occurs(code, j, [TestEaxEax, Jne(Lbl(env, DoL, n))]) && Occurs(code, j + 2, [Mark(Lbl(env, DoEndL, n))])
      && |DoCode(env, n, st)| == j + 3 - start
  {
    hide Occurs, StmtCode, ExprCode;
    var mark, mid := [Mark(Lbl(env, DoL, n))], [Mark(Lbl(env, DoTestL, n))];
    var test, end := [TestEaxEax, Jne(Lbl(env, DoL, n))], [Mark(Lbl(env, DoEndL, n))];
    var body := StmtCode(env, n + 1, DoTarget(env, n), false, st.loop);
    assert [TestEaxEax, Jne(Lbl(env, DoL, n)), Mark(Lbl(env, DoEndL, n))] == test + end;
    OccursSplit(code, start, mark + body, DoTail(env, n, st.cond));
    OccursSplit(code, start, mark, body);
    OccursSplit(code, start + 1 + |body|, mid + ExprCode(env, st.cond), test + end);
    OccursSplit(code, start + 1 + |body|, mid, ExprCode(env, st.cond));
    OccursSplit(code, start + 2 + |body| + |ExprCode(env, st.cond)|, test, end);
  }

  lemma {:induction false} DoStmt(c: Ctx, env: Env, n: nat, brk: Target, fuel: nat, fr: Src.Frame, g: Src.Globals,
                                  st: Src.Stmt, s: State, m: Mem) returns (t: State, m1: Mem)
    requires st.DoWhile? && Src.Braced(st) && StmtPre(c, env, brk, fr, g, s, m)
    requires Occurs(c.code, s.pc, DoCode(env, n, st))
    requires Src.ExecDo(fuel, c.p, fr, g, st).Done?
    ensures Finished(c, brk, Src.ExecDo(fuel, c.p, fr, g, st), s.pc + |DoCode(env, n, st)|, s, t, m1)
    decreases fuel, st, 2
  {
    hide Exec, FrameStack, Occurs, Reaches, Rel, Matches, Src.ExecDo, ExprCode, StmtCode, DoCode, Loaded;
    DoParts(c.code, s.pc, env, n, st);
    ReachesSelf(c.code, s);
    var u := MarkCorrect(c.code, s, s, Lbl(env, DoL, n));
    t, m1 := DoCorrect(c, env, n, brk, fuel, fr, g, st, s.pc, u, m);
    FinishedAfter(c, brk, Src.ExecDo(fuel, c.p, fr, g, st), s.pc + |DoCode(env, n, st)|, s, u, t, m1);
  }

  lemma {:induction false} DoCorrect(c: Ctx, env: Env, n: nat, brk: Target, fuel: nat, fr: Src.Frame, g: Src.Globals,
                                     st: Src.Stmt, start: nat, s: State, m: Mem) returns (t: State, m1: Mem)
    requires st.DoWhile? && Src.Braced(st) && StmtPre(c, env, brk, fr, g, s, m) && s.pc == start + 1
    requires Occurs(c.code, start, DoCode(env, n, st))
    requires Src.ExecDo(fuel, c.p, fr, g, st).Done?
    ensures Finished(c, brk, Src.ExecDo(fuel, c.p, fr, g, st), start + |DoCode(env, n, st)|, s, t, m1)
    decreases fuel, st, 1
  {
    hide Exec, FrameStack, Occurs, Reaches, Rel, Matches, Src.ExecStmt, Src.ExecExpr, ExprCode, StmtCode, DoCode, UniqueLabels;
    DoParts(c.code, start, env, n, st);
    var exitAt := start + |DoCode(env, n, st)| - 1;
    t, m1 := BodyCorrect(c, env, n + 1, Lbl(env, DoEndL, n), fuel, fr, g, st.loop, s, m, exitAt);
    var r1 := Src.ExecStmt(fuel, c.p, fr, g, st.loop);
    if r1.exit.Normal? {
      var u := MarkCorrect(c.code, s, t, Lbl(env, DoTestL, n));
      var r2 := Src.ExecExpr(fuel, c.p, r1.fr, r1.g, st.cond);
      var w, mb := CondCorrect(c, env, fuel, r1.fr, r1.g, st.cond, u, m1, false, Lbl(env, DoL, n), start);
      ReachesTrans(c.code, s, u, w);
      if r2.v.value == 0 {
        t := MarkCorrect(c.code, s, w, Lbl(env, DoEndL, n));
        m1 := mb;
      } else {
        t, m1 := DoCorrect(c, env, n, brk, fuel - 1, r2.fr, r2.g, st, start, w, mb);
        FinishedAfter(c, brk, Src.ExecDo(fuel, c.p, fr, g, st), exitAt + 1, s, w, t, m1);
      }
    }
  }

  // ----- for -----

  function ForCode(env: Env, n: nat, st: Src.Stmt): Code
    requires st.For?
  {
    ForHead(env, n, st.cond, st.iter) + StmtCode(env, n + 1, ForTarget(env, n), false, st.loop) + ForTail(env, n)
  }

  lemma ForHeadParts(code: Code, start: nat, env: Env, n: nat, cond: Src.Expr, iter: Src.Expr)
    requires Occurs(code, start, ForHead(env, n, cond, iter))
    ensures Occurs(code, start, [Mark(Lbl(env, ForL, n))])
    ensures Occurs(code, start + 1, ExprCode(env, cond))
    ensures var k := start + 1 + |ExprCode(env, cond)|;
      && Occurs(code, k, [TestEaxEax, Je(Lbl(env, ForEndL, n))])
      && Occurs(code, k + 2, [Jmp(Lbl(env, ForThenL, n))]) && Occurs(code, k + 3, [Mark(Lbl(env, ForIterL, n))])
      && Occurs(code, k + 4, ExprCode(env, iter))
      && var i := k + 4 + |ExprCode(env, iter)|;
      && Occurs(code, i, [Jmp(Lbl(env, ForL, n))]) && Occurs(code, i + 1, [Mark(Lbl(env, ForThenL, n))])
      && |ForHead(env, n, cond, iter)| == i + 2 - start
  {
    hide Occurs, ExprCode;
    var mark, ce, ie := [Mark(Lbl(env, ForL, n))], ExprCode(env, cond), ExprCode(env, iter);
    var test, jump, it := [TestEaxEax, Je(Lbl(env, ForEndL, n))], [Jmp(Lbl(env, ForThenL, n))], [Mark(Lbl(env, ForIterL, n))];
    var back, then_ := [Jmp(Lbl(env, ForL, n))], [Mark(Lbl(env, ForThenL, n))];
    var four := [TestEaxEax, Je(Lbl(env, ForEndL, n)), Jmp(Lbl(env, ForThenL, n)), Mark(Lbl(env, ForIterL, n))];
    assert four == test + jump + it;
    assert [Jmp(Lbl(env, ForL, n)), Mark(Lbl(env, ForThenL, n))] == back + then_;
    OccursSplit(code, start, mark + ce + four + ie, back + then_);
    OccursSplit(code, start, mark + ce + four, ie);
    OccursSplit(code, start, mark + ce, four);
    OccursSplit(code, start, mark, ce);
    OccursSplit(code, start + 1 + |ce|, test + jump, it);
    OccursSplit(code, start + 1 + |ce|, test, jump);
    OccursSplit(code, start + 5 + |ce| + |ie|, back, then_);
  }

  lemma ForParts(code: Code, start: nat, env: Env, n: nat, st: Src.Stmt)
    requires st.For? && Occurs(code, start, ForCode(env, n, st))
    ensures Occurs(code, start, ForHead(env, n, st.cond, st.iter))
    ensures var i := start + |ForHead(env, n, st.cond, st.iter)|;
      && Occurs(code, i, StmtCode(env, n + 1, ForTarget(env, n), false, st.loop))
      && var j := i + |StmtCode(env, n + 1, ForTarget(env, n), false, st.loop)|;
      && Occurs(code, j, [Jmp(Lbl(env, ForIterL, n))]) && Occurs(code, j + 1, [Mark(Lbl(env, ForEndL, n))])
      && |ForCode(env, n, st)| == j + 2 - start
  {
    hide Occurs, StmtCode, ForHead;
    var head, body := ForHead(env, n, st.cond, st.iter), StmtCode(env, n + 1, ForTarget(env, n), false, st.loop);
    assert ForTail(env, n) == [Jmp(Lbl(env, ForIterL, n))] + [Mark(Lbl(env, ForEndL, n))];
    OccursSplit(code, start, head + body, ForTail(env, n));
    OccursSplit(code, start, head, body);
    OccursSplit(code, start + |head| + |body|, [Jmp(Lbl(env, ForIterL, n))], [Mark(Lbl(env, ForEndL, n))]);
  }

  lemma {:induction false} ForStmt(c: Ctx, env: Env, n: nat, brk: Target, fuel: nat, fr: Src.Frame, g: Src.Globals,
                                   st: Src.Stmt, s: State, m: Mem) returns (t: State, m1: Mem)
    requires st.For? && Src.Braced(st) && StmtPre(c, env, brk, fr, g, s, m)
    requires Occurs(c.code, s.pc, OptCode(env, st.start) + ForHead(env, n, st.cond, st.iter)
                                  + StmtCode(env, n + 1, ForTarget(env, n), false, st.loop) + ForTail(env, n))
    requires Src.ExecStmt(fuel, c.p, fr, g, st).Done?
    ensures Finished(c, brk, Src.ExecStmt(fuel, c.p, fr, g, st), s.pc + |OptCode(env, st.start)| + |ForCode(env, n, st)|, s, t, m1)
    decreases fuel, st, 2
  {
    hide Exec, FrameStack, Occurs, Reaches, Rel, Matches, Src.ExecFor, Src.ExecOpt, ExprCode, StmtCode, Loaded, ForHead, OptCode;
    assert OptCode(env, st.start) + ForHead(env, n, st.cond, st.iter)
           + StmtCode(env, n + 1, ForTarget(env, n), false, st.loop) + ForTail(env, n)
        == OptCode(env, st.start) + ForCode(env, n, st);
    OccursSplit(c.code, s.pc, OptCode(env, st.start), ForCode(env, n, st));
    var u, ma := OptCorrect(c, env, fuel, fr, g, st.start, s, m);
    var r1 := Src.ExecOpt(fuel, c.p, fr, g, st.start);
    MatchesShape(env, fr, r1.fr);
    ForParts(c.code, u.pc, env, n, st);
    ForHeadParts(c.code, u.pc, env, n, st.cond, st.iter);
    var w := MarkCorrect(c.code, s, u, Lbl(env, ForL, n));
    t, m1 := ForCorrect(c, env, n, brk, fuel, r1.fr, r1.g, st, u.pc, w, ma);
    FinishedAfter(c, brk, Src.ExecFor(fuel, c.p, r1.fr, r1.g, st), u.pc + |ForCode(env, n, st)|, s, w, t, m1);
  }

  lemma {:induction false} ForCorrect(c: Ctx, env: Env, n: nat, brk: Target, fuel: nat, fr: Src.Frame, g: Src.Globals,
                                      st: Src.Stmt, start: nat, s: State, m: Mem) returns (t: State, m1: Mem)
    requires st.For? && Src.Braced(st) && StmtPre(c, env, brk, fr, g, s, m) && s.pc == start + 1
    requires Occurs(c.code, start, ForCode(env, n, st))
    requires Src.ExecFor(fuel, c.p, fr, g, st).Done?
    ensures Finished(c, brk, Src.ExecFor(fuel, c.p, fr, g, st), start + |ForCode(env, n, st)|, s, t, m1)
    decreases fuel, st, 1
  {
    hide Exec, FrameStack, Occurs, Reaches, Rel, Matches, Src.ExecStmt, ExprCode, StmtCode, ForCode, ForHead, UniqueLabels, Src.EvalExpr;
    ForParts(c.code, start, env, n, st);
    ForHeadParts(c.code, start, env, n, st.cond, st.iter);
    var exitAt := start + |ForCode(env, n, st)| - 1;
    var k := start + 1 + |ExprCode(env, st.cond)|;
    var i := k + 4 + |ExprCode(env, st.iter)|;
    var r1 := Src.ExecExpr(fuel, c.p, fr, g, st.cond);
    t, m1 := CondCorrect(c, env, fuel, fr, g, st.cond, s, m, true, Lbl(env, ForEndL, n), exitAt);
    if r1.v.value != 0 {
      t := JumpCorrect(c.code, s, t, Lbl(env, ForThenL, n), i + 1);
      var u, mb := BodyCorrect(c, env, n + 1, Lbl(env, ForEndL, n), fuel, r1.fr, r1.g, st.loop, t, m1, exitAt);
      ReachesTrans(c.code, s, t, u);
      var r2 := Src.ExecStmt(fuel, c.p, r1.fr, r1.g, st.loop);
      t, m1 := u, mb;
      if r2.exit.Normal? {
        t := JumpCorrect(c.code, s, u, Lbl(env, ForIterL, n), k + 3);
        t, m1 := ForBack(c, env, n, brk, fuel, r2.fr, r2.g, st, start, s, t, mb);
      }
    }
  }

  /** The step of a for loop and the next round. */
  lemma {:induction false} ForBack(c: Ctx, env: Env, n: nat, brk: Target, fuel: nat, fr: Src.Frame, g: Src.Globals,
                                   st: Src.Stmt, start: nat, s: State, u: State, m: Mem) returns (t: State, m1: Mem)
    requires st.For? && Src.Braced(st) && StmtPre(c, env, brk, fr, g, u, m)
    requires u.pc == start + 5 + |ExprCode(env, st.cond)| && Reaches(c.code, s, u)
    requires Occurs(c.code, start, ForCode(env, n, st)) && Occurs(c.code, start, ForHead(env, n, st.cond, st.iter))
    requires var r := Src.ExecExpr(fuel, c.p, fr, g, st.iter);
      fuel > 0 && r.Done? && Src.ExecFor(fuel - 1, c.p, r.fr, r.g, st).Done?
    ensures var r := Src.ExecExpr(fuel, c.p, fr, g, st.iter);
      Finished(c, brk, Src.ExecFor(fuel - 1, c.p, r.fr, r.g, st), start + |ForCode(env, n, st)|, s, t, m1)
    decreases fuel, st, 0
  {
    hide Exec, FrameStack, Occurs, Reaches, Rel, Matches, Src.ExecFor, ExprCode, ForCode, ForHead, UniqueLabels;
    ForHeadParts(c.code, start, env, n, st.cond, st.iter);
    var w, ma := ExprCorrect(c, env, fuel, fr, g, st.iter, u, m, []);
    ReachesTrans(c.code, s, u, w);
    var r := Src.ExecExpr(fuel, c.p, fr, g, st.iter);
    MatchesShape(env, fr, r.fr);
    var back := JumpCorrect(c.code, s, w, Lbl(env, ForL, n), start);
    t, m1 := ForCorrect(c, env, n, brk, fuel - 1, r.fr, r.g, st, start, back, ma);
    FinishedAfter(c, brk, Src.ExecFor(fuel - 1, c.p, r.fr, r.g, st), start + |ForCode(env, n, st)|, s, back, t, m1);
  }

  // ----- if, declarations, return, break, blocks -----

  lemma {:induction false} IfCorrect(c: Ctx, env: Env, n: nat, brk: Target, fuel: nat, fr: Src.Frame, g: Src.Globals,
                                     st: Src.Stmt, s: State, m: Mem, end: nat) returns (t: State, m1: Mem)
    requires st.If? && Src.Braced(st) && StmtPre(c, env, brk, fr, g, s, m)
    requires Occurs(c.code, s.pc, IfHead(env, n, st.cond) + StmtCode(env, n + 1, brk, false, st.thn) + IfMiddle(env, n)
                                  + ElseCode(env, n, brk, st) + IfEnd(env, n))
    requires end == s.pc + |ExprCode(env, st.cond)| + |StmtCode(env, n + 1, brk, false, st.thn)| + |ElseCode(env, n, brk, st)| + 5
    requires Src.ExecStmt(fuel, c.p, fr, g, st).Done?
    ensures Finished(c, brk, Src.ExecStmt(fuel, c.p, fr, g, st), end, s, t, m1)
    decreases fuel, st, 1
  {
    hide Exec, FrameStack, Occurs, Reaches, Rel, Matches, Finished, Src.ExecExpr, ExprCode, StmtCode, UniqueLabels, Loaded;
    var then_, else_ := StmtCode(env, n + 1, brk, false, st.thn), ElseCode(env, n, brk, st);
    IfParts(c.code, s.pc, env, n, st.cond, then_, else_);
    var elseAt := s.pc + |ExprCode(env, st.cond)| + |then_| + 3;
    var r1 := Src.ExecExpr(fuel, c.p, fr, g, st.cond);
    var u, ma := CondCorrect(c, env, fuel, fr, g, st.cond, s, m, true, Lbl(env, ElseL, n), elseAt);
    t, m1 := IfBranch(c, env, n, brk, fuel, r1.fr, r1.g, st, r1.v.value != 0, s, u, ma, elseAt + 1 + |else_|);
  }

  function ElseCode(env: Env, n: nat, brk: Target, st: Src.Stmt): Code
    requires st.If?
  {
    if st.els.Some? then StmtCode(env, n + 1 + Count(st.thn), brk, false, st.els.value) else []
  }

  lemma IfParts(code: Code, start: nat, env: Env, n: nat, cond: Src.Expr, then_: Code, else_: Code)
    requires Occurs(code, start, IfHead(env, n, cond) + then_ + IfMiddle(env, n) + else_ + IfEnd(env, n))
    ensures Occurs(code, start, ExprCode(env, cond))
    ensures var k := start + |ExprCode(env, cond)|;
      && Occurs(code, k, [TestEaxEax, Je(Lbl(env, ElseL, n))]) && Occurs(code, k + 2, then_)
      && var j := k + 2 + |then_|;
      && Occurs(code, j, [Jmp(Lbl(env, EndIfL, n))]) && Occurs(code, j + 1, [Mark(Lbl(env, ElseL, n))])
      && Occurs(code, j + 2, else_) && Occurs(code, j + 2 + |else_|, [Mark(Lbl(env, EndIfL, n))])
  {
    hide Occurs, ExprCode;
    var head, ce := IfHead(env, n, cond), ExprCode(env, cond);
    var jump, mark, end := [Jmp(Lbl(env, EndIfL, n))], [Mark(Lbl(env, ElseL, n))], [Mark(Lbl(env, EndIfL, n))];
    assert IfMiddle(env, n) == jump + mark;
    OccursSplit(code, start, head + then_ + (jump + mark) + else_, end);
    OccursSplit(code, start, head + then_ + (jump + mark), else_);
    OccursSplit(code, start, head + then_, jump + mark);
    OccursSplit(code, start, head, then_);
    OccursSplit(code, start, ce, [TestEaxEax, Je(Lbl(env, ElseL, n))]);
    OccursSplit(code, start + |ce| + 2 + |then_|, jump, mark);
  }

  lemma {:induction false} IfBranch(c: Ctx, env: Env, n: nat, brk: Target, fuel: nat, fr: Src.Frame, g: Src.Globals,
                                    st: Src.Stmt, taken: bool, s: State, u: State, m: Mem, endAt: nat) returns (t: State, m1: Mem)
    requires st.If? && Src.Braced(st) && StmtPre(c, env, brk, fr, g, u, m) && Reaches(c.code, s, u)
    requires taken ==> Occurs(c.code, u.pc, StmtCode(env, n + 1, brk, false, st.thn))
    requires taken ==> Occurs(c.code, u.pc + |StmtCode(env, n + 1, brk, false, st.thn)|, [Jmp(Lbl(env, EndIfL, n))])
    requires !taken && st.els.Some? ==> Occurs(c.code, u.pc, StmtCode(env, n + 1 + Count(st.thn), brk, false, st.els.value))
    requires !taken && st.els.Some? ==> endAt == u.pc + |StmtCode(env, n + 1 + Count(st.thn), brk, false, st.els.value)|
    requires !taken && st.els.None? ==> endAt == u.pc
    requires Occurs(c.code, endAt, [Mark(Lbl(env, EndIfL, n))])
    requires taken ==> Src.ExecStmt(fuel, c.p, fr, g, st.thn).Done?
    requires !taken && st.els.Some? ==> Src.ExecStmt(fuel, c.p, fr, g, st.els.value).Done?
    ensures Finished(c, brk, if taken then Src.ExecStmt(fuel, c.p, fr, g, st.thn)
                             else if st.els.Some? then Src.ExecStmt(fuel, c.p, fr, g, st.els.value)
                             else Src.Done(Src.Normal, fr, g, None), endAt + 1, s, t, m1)
    decreases fuel, st, 0
  {
    hide Exec, FrameStack, Occurs, Reaches, Rel, Matches, Src.ExecStmt, StmtCode, UniqueLabels;
    if taken {
      var r := Src.ExecStmt(fuel, c.p, fr, g, st.thn);
      t, m1 := StmtCorrect(c, env, n + 1, brk, false, fuel, fr, g, st.thn, u, m);
      FinishedAfter(c, brk, r, u.pc + |StmtCode(env, n + 1, brk, false, st.thn)|, s, u, t, m1);
      if r.exit.Normal? { t := JumpCorrect(c.code, s, t, Lbl(env, EndIfL, n), endAt); }
    } else if st.els.Some? {
      var r := Src.ExecStmt(fuel, c.p, fr, g, st.els.value);
      t, m1 := StmtCorrect(c, env, n + 1 + Count(st.thn), brk, false, fuel, fr, g, st.els.value, u, m);
      FinishedAfter(c, brk, r, endAt, s, u, t, m1);
      if r.exit.Normal? { t := MarkCorrect(c.code, s, t, Lbl(env, EndIfL, n)); }
    } else {
      t := MarkCorrect(c.code, s, u, Lbl(env, EndIfL, n));
      m1 := m;
    }
  }

  lemma {:induction false} DeclCorrect(c: Ctx, env: Env, n: nat, brk: Target, ret: bool, fuel: nat, fr: Src.Frame, g: Src.Globals,
                                       st: Src.Stmt, s: State, m: Mem) returns (t: State, m1: Mem)
    requires st.Decl? && StmtPre(c, env, brk, fr, g, s, m)
    requires Occurs(c.code, s.pc, StmtCode(env, n, brk, ret, st))
    requires Src.ExecStmt(fuel, c.p, fr, g, st).Done?
    ensures Finished(c, brk, Src.ExecStmt(fuel, c.p, fr, g, st), s.pc + |StmtCode(env, n, brk, ret, st)|, s, t, m1)
    decreases fuel, st, 1
  {
    hide Exec, FrameStack, Occurs, Reaches, Src.ExecOpt, OptCode, Loaded;
    var env1, fr1 := env.(locals := env.locals + [st.x]), fr.(pending := Some(st.x));
    OccursSplit(c.code, s.pc, OptCode(env1, st.init), [PushEax]);
    var u, ma := OptCorrect(c, env1, fuel, fr1, g, st.init, s, m);
    t := PushCorrect(c, s, u, ma, []);
    m1 := ma.(locals := ma.locals + [u.eax]);
    assert FrameStack(c, ma) + ([] + [u.eax]) == FrameStack(c, m1) + [] by { FramePush(c, ma, u.eax); }
  }

  lemma FramePush(c: Ctx, m: Mem, v: Value)
    ensures FrameStack(c, m) + [v] == FrameStack(c, m.(locals := m.locals + [v]))
    ensures [] + [v] == [v]
    ensures FrameStack(c, m.(locals := m.locals + [v])) + [] == FrameStack(c, m.(locals := m.locals + [v]))
  {
  }

  lemma {:induction false} ReturnCorrect(c: Ctx, env: Env, n: nat, brk: Target, ret: bool, fuel: nat, fr: Src.Frame, g: Src.Globals,
                                         st: Src.Stmt, s: State, m: Mem) returns (t: State, m1: Mem)
    requires st.Return? && StmtPre(c, env, brk, fr, g, s, m)
    requires Occurs(c.code, s.pc, StmtCode(env, n, brk, ret, st))
    requires Src.ExecStmt(fuel, c.p, fr, g, st).Done?
    ensures Finished(c, brk, Src.ExecStmt(fuel, c.p, fr, g, st), s.pc + |StmtCode(env, n, brk, ret, st)|, s, t, m1)
    decreases fuel, st, 1
  {
    hide Exec, FrameStack, Occurs, Reaches, Src.ExecOpt, OptCode, Loaded;
    var k := |env.locals|;
    OccursSplit(c.code, s.pc, OptCode(env, st.result) + Pops(k), [Ret]);
    OccursSplit(c.code, s.pc, OptCode(env, st.result), Pops(k));
    var u, ma := OptCorrect(c, env, fuel, fr, g, st.result, s, m);
    LocalsCount(env, fr, g, m, Src.ExecOpt(fuel, c.p, fr, g, st.result).fr, Src.ExecOpt(fuel, c.p, fr, g, st.result).g, ma);
    var w := PopLocals(c, s, u, ma, 0);
    m1 := ma.(locals := ma.locals[..0]);
    t := RetCorrect(c, s, w, m1);
  }

  lemma LocalsCount(env: Env, fr: Src.Frame, g: Src.Globals, m: Mem, fr1: Src.Frame, g1: Src.Globals, m1: Mem)
    requires Matches(env, fr) && Rel(fr, g, m) && fr.pending.None? && Src.SameShape(fr, fr1) && Rel(fr1, g1, m1)
    ensures |m.locals| == |env.locals| == |m1.locals| == |fr.locals|
  {
    assert |Src.Names(fr.locals)| == |fr.locals| && |Src.Names(fr1.locals)| == |fr1.locals|;
  }

  lemma {:induction false} BreakCorrect(c: Ctx, env: Env, n: nat, brk: Target, ret: bool, fuel: nat, fr: Src.Frame, g: Src.Globals,
                                        s: State, m: Mem) returns (t: State, m1: Mem)
    requires StmtPre(c, env, brk, fr, g, s, m)
    requires Occurs(c.code, s.pc, StmtCode(env, n, brk, ret, Src.Break))
    ensures Finished(c, brk, Src.ExecStmt(fuel, c.p, fr, g, Src.Break), s.pc + |StmtCode(env, n, brk, ret, Src.Break)|, s, t, m1)
  {
    hide Exec, FrameStack, Occurs, Reaches, Loaded;
    t, m1 := s, m;
    if brk.Target? {
      LocalsCount(env, fr, g, m, fr, g, m);
      OccursSplit(c.code, s.pc, Pops(|env.locals| - brk.frame), [Jmp(brk.l)]);
      ReachesSelf(c.code, s);
      t := PopLocals(c, s, s, m, brk.frame);
      m1 := m.(locals := m.locals[..brk.frame]);
      t := GotoCorrect(c.code, s, t, brk.l);
    }
  }

  lemma GotoCorrect(code: Code, s0: State, s: State, l: Label) returns (t: State)
    requires Reaches(code, s0, s) && Occurs(code, s.pc, [Jmp(l)]) && Find(code, l).Some?
    ensures Reaches(code, s0, t) && t == s.(pc := Find(code, l).value)
  {
    Fetch(code, s.pc, [Jmp(l)]);
    t := Go(code, s0, s, Jmp(l));
  }

  lemma {:induction false} BlockCorrect(c: Ctx, env: Env, n: nat, brk: Target, ret: bool, fuel: nat, fr: Src.Frame, g: Src.Globals,
                                        body: seq<Src.Stmt>, s: State, m: Mem) returns (t: State, m1: Mem)
    requires Src.Braced(Src.Block(body)) && StmtPre(c, env, brk, fr, g, s, m)
    requires Occurs(c.code, s.pc, BlockCode(env, n, brk, ret, body))
    requires Src.ExecSeq(fuel, c.p, fr, g, body).Done?
    ensures var r := Src.ExecSeq(fuel, c.p, fr, g, body);
      && |fr.locals| <= |r.fr.locals|
      && Finished(c, brk, r.(fr := Cut(r.fr, |fr.locals|)), s.pc + |BlockCode(env, n, brk, ret, body)|, s, t, m1)
    decreases fuel, body, 2
  {
    hide Exec, FrameStack, Occurs, Reaches, Rel, Matches, In, Finished, Src.ExecSeq, SeqCode, Loaded, Src.Names, TargetOk, Src.Braced;
    var code := SeqCode(env, n, brk, ret, body);
    var after := AfterSeq(env, body);
    var r := Src.ExecSeq(fuel, c.p, fr, g, body);
    var end := s.pc + |code|;
    if !EndsInRet(ret, code) { OccursSplit(c.code, s.pc, code, Pops(|after.locals| - |env.locals|)); }
    t, m1 := SeqCorrect(c, env, n, brk, ret, fuel, fr, g, body, s, m);
    LocalsCount(env, fr, g, m, fr, g, m);
    PrefixCount(fr, r.fr);
    if r.exit.Normal? {
      if EndsInRet(ret, code) {
        if code != [] { SeqNotRet(env, n, brk, ret, fuel, c.p, fr, g, body); }
        EmptySeqDeclaresNothing(env, n, brk, ret, body);
      }
      t, m1 := BlockEnd(c, brk, after, s, t, r, end, m1, |fr.locals|, EndsInRet(ret, code));
    } else {
      BlockLeft(c, brk, env, r, end, s.pc + |BlockCode(env, n, brk, ret, body)|, s, t, m1, |fr.locals|);
    }
  }

  /** Closing a block drops its locals, unless a `ret` made that unnecessary and there are none. */
  lemma BlockEnd(c: Ctx, brk: Target, after: Env, s0: State, s: State, r: Src.Outcome, end: nat, m: Mem, k: nat, skip: bool)
    returns (t: State, m1: Mem)
    requires r.Done? && r.exit.Normal? && Finished(c, brk, r, end, s0, s, m)
    requires Matches(after, r.fr) && r.fr.pending.None? && k <= |r.fr.locals|
    requires if skip then |after.locals| == k else Occurs(c.code, end, Pops(|after.locals| - k))
    ensures k <= |after.locals|
    ensures Finished(c, brk, r.(fr := Cut(r.fr, k)), end + |after.locals| - k, s0, t, m1)
  {
    hide Exec, FrameStack, Occurs, Reaches, Rel, Matches;
    LocalsCount(after, r.fr, r.g, m, r.fr, r.g, m);
    RelCut(r.fr, r.g, m, k);
    m1 := m.(locals := m.locals[..k]);
    if skip {
      t := s;
      assert m1 == m;
    } else {
      t := PopLocals(c, s0, s, m, k);
    }
  }

  /** A block left by break or return has dropped its locals already. */
  lemma BlockLeft(c: Ctx, brk: Target, env: Env, r: Src.Outcome, end: nat, end1: nat, s: State, t: State, m: Mem, k: nat)
    requires r.Done? && !r.exit.Normal? && Finished(c, brk, r, end, s, t, m)
    requires k <= |r.fr.locals| && k == |env.locals| && TargetOk(c.code, brk, env)
    ensures Finished(c, brk, r.(fr := Cut(r.fr, k)), end1, s, t, m)
  {
    hide Exec, FrameStack, Occurs, Reaches, Rel, In;
    if r.exit.Broke? && brk.Target? {
      assert Cut(r.fr, brk.frame) == Cut(Cut(r.fr, k), brk.frame);
    }
  }

  lemma PrefixCount(fr: Src.Frame, fr1: Src.Frame)
    requires Src.Extends(fr, fr1)
    ensures |fr.locals| <= |fr1.locals|
  {
    assert |Src.Names(fr.locals)| == |fr.locals| && |Src.Names(fr1.locals)| == |fr1.locals|;
  }

  lemma RelCut(fr: Src.Frame, g: Src.Globals, m: Mem, k: nat)
    requires Rel(fr, g, m) && k <= |fr.locals|
    ensures k <= |m.locals| && Rel(Cut(fr, k), g, m.(locals := m.locals[..k]))
  {
  }

  /** A declaration always emits its push. */
  lemma {:induction false} EmptySeqDeclaresNothing(env: Env, n: nat, brk: Target, ret: bool, ss: seq<Src.Stmt>)
    requires SeqCode(env, n, brk, ret, ss) == []
    ensures AfterSeq(env, ss) == env
    decreases ss
  {
    hide StmtCode;
    if ss != [] {
      var c := StmtCode(env, n, brk, ret, ss[0]);
      assert !ss[0].Decl? by { DeclEmits(env, n, brk, ret, ss[0]); }
      EmptySeqDeclaresNothing(After(env, ss[0]), n + Count(ss[0]), brk, EndsInRet(ret, c), ss[1..]);
    }
  }

  lemma DeclEmits(env: Env, n: nat, brk: Target, ret: bool, st: Src.Stmt)
    ensures st.Decl? ==> StmtCode(env, n, brk, ret, st) != []
  {
  }

  lemma {:induction false} SeqCorrect(c: Ctx, env: Env, n: nat, brk: Target, ret: bool, fuel: nat, fr: Src.Frame, g: Src.Globals,
                                      ss: seq<Src.Stmt>, s: State, m: Mem) returns (t: State, m1: Mem)
    requires StmtPre(c, env, brk, fr, g, s, m) && Src.Braced(Src.Block(ss))
    requires Occurs(c.code, s.pc, SeqCode(env, n, brk, ret, ss))
    requires Src.ExecSeq(fuel, c.p, fr, g, ss).Done?
    ensures var r := Src.ExecSeq(fuel, c.p, fr, g, ss);
      && Finished(c, brk, r, s.pc + |SeqCode(env, n, brk, ret, ss)|, s, t, m1)
      && (r.exit.Normal? ==> Matches(AfterSeq(env, ss), r.fr))
    decreases fuel, ss, 0
  {
    hide Exec, FrameStack, Occurs, Reaches, Rel, Matches, In, Finished, Find, Src.ExecStmt, StmtCode, Loaded, Src.Braced, Src.Names, Count, EndsInRet;
    t, m1 := s, m;
    if ss != [] {
      BracedRest(ss);
      var code := StmtCode(env, n, brk, ret, ss[0]);
      OccursSplit(c.code, s.pc, code, SeqCode(After(env, ss[0]), n + Count(ss[0]), brk, EndsInRet(ret, code), ss[1..]));
      var r1 := Src.ExecStmt(fuel, c.p, fr, g, ss[0]);
      t, m1 := StmtCorrect(c, env, n, brk, ret, fuel, fr, g, ss[0], s, m);
      if r1.exit.Normal? {
        MatchesAfter(env, fr, r1.fr, Src.Declared(ss[0]));
        t, m1 := SeqRest(c, After(env, ss[0]), n + Count(ss[0]), brk, EndsInRet(ret, code), fuel, r1, s.pc + |code|, ss[1..], s, t, m1);
      } else {
        LeftAnywhere(c, brk, r1, s.pc + |code|, s.pc + |SeqCode(env, n, brk, ret, ss)|, s, t, m1);
      }
    } else {
      EmptyFinished(c, brk, fr, g, s, m);
    }
  }

  lemma EmptyFinished(c: Ctx, brk: Target, fr: Src.Frame, g: Src.Globals, s: State, m: Mem)
    requires In(c, s, s.pc, m, []) && Rel(fr, g, m)
    ensures Finished(c, brk, Src.Done(Src.Normal, fr, g, None), s.pc, s, s, m)
  {
    ReachesSelf(c.code, s);
  }

  /** Where a statement would fall through does not matter when it is left otherwise. */
  lemma LeftAnywhere(c: Ctx, brk: Target, r: Src.Outcome, end: nat, end1: nat, s: State, t: State, m: Mem)
    requires r.Done? && !r.exit.Normal? && Finished(c, brk, r, end, s, t, m)
    ensures Finished(c, brk, r, end1, s, t, m)
  {
  }

  lemma BracedRest(ss: seq<Src.Stmt>)
    requires ss != [] && Src.Braced(Src.Block(ss))
    ensures Src.Braced(ss[0]) && Src.Braced(Src.Block(ss[1..]))
  {
    forall i | 0 <= i < |ss[1..]| ensures Src.Braced(ss[1..][i]) { assert ss[1..][i] == ss[i + 1]; }
  }

  lemma {:induction false} SeqRest(c: Ctx, env: Env, n: nat, brk: Target, ret: bool, fuel: nat, r1: Src.Outcome, end: nat,
                                   ss: seq<Src.Stmt>, s: State, u: State, m: Mem) returns (t: State, m1: Mem)
    requires r1.Done? && r1.exit.Normal? && Finished(c, brk, r1, end, s, u, m)
    requires Loaded(c.code, c.p) && TargetOk(c.code, brk, env) && Matches(env, r1.fr) && r1.fr.pending.None?
    requires Src.Braced(Src.Block(ss)) && Occurs(c.code, end, SeqCode(env, n, brk, ret, ss))
    requires Src.ExecSeq(fuel, c.p, r1.fr, r1.g, ss).Done?
    ensures var r := Src.ExecSeq(fuel, c.p, r1.fr, r1.g, ss);
      && Finished(c, brk, r, end + |SeqCode(env, n, brk, ret, ss)|, s, t, m1)
      && (r.exit.Normal? ==> Matches(AfterSeq(env, ss), r.fr))
    decreases fuel, ss, 1
  {
    hide Exec, FrameStack, Occurs, Reaches, Rel, Matches, Src.ExecSeq, SeqCode, Loaded, Src.Braced;
    t, m1 := SeqCorrect(c, env, n, brk, ret, fuel, r1.fr, r1.g, ss, u, m);
    FinishedAfter(c, brk, Src.ExecSeq(fuel, c.p, r1.fr, r1.g, ss), end + |SeqCode(env, n, brk, ret, ss)|, s, u, t, m1);
  }
}
