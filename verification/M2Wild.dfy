/**
  Two programs outside the conditions of M2Balance.AlwaysBalanced whose `ret` does not find the
  return address: a call with one value too many, and an assignment to an address held in a variable.
 */
module M2Wild {
  import opened Options
  import opened M2Word
  import opened M2Machine
  import opened M2Codegen
  import opened M2Correct
  import opened M2Program
  import opened M2Simulation
  import opened M2Stack
  import Src = M2Source

  const NOWHERE := Src.Scope(map[], {}, {})

  /** int f() { int x; x = 7; } */
  function Local(): Src.Fun {
    Src.Fun("f", [], Src.Block([Src.Decl("x", None), Src.ExprS(Src.Assign(Src.LVal("x"), Src.Const(7)))]), NOWHERE)
  }

  /** int g() { f(1); } */
  function Caller(): Src.Fun { Src.Fun("g", [], Src.Block([Src.ExprS(Src.Call("f", [Src.Const(1)]))]), NOWHERE) }

  /** int h(int p) { (p) = 7; } */
  function Through(): Src.Fun {
    Src.Fun("h", ["p"], Src.Block([Src.ExprS(Src.Assign(Src.Paren(Src.Var("p")), Src.Const(7)))]), NOWHERE)
  }

  function ThroughCode(): Code {
    [Mark(FunctionL("h")), LeaEaxEbp(-4), LoadEax, PushEax, MovEaxImm(7), PopEbx, StoreEbx, Ret]
  }

  lemma ThroughIs()
    ensures ProgramCode([Through()]) == ThroughCode()
  {
    var env := EnvOf(Through());
    assert Src.LastIndex(["p"], "p") == Some(0);
    assert Locate(env, "p") == Src.Arg(0);
    assert ExprCode(env, Src.Paren(Src.Var("p"))) == [LeaEaxEbp(-4), LoadEax];
    var body := ExprCode(env, Src.Assign(Src.Paren(Src.Var("p")), Src.Const(7)));
    assert body == [LeaEaxEbp(-4), LoadEax, PushEax, MovEaxImm(7), PopEbx, StoreEbx];
    var ss := [Src.ExprS(Src.Assign(Src.Paren(Src.Var("p")), Src.Const(7)))];
    assert ss[1..] == [];
    assert SeqCode(env, 0, NoTarget, false, ss) == body;
    assert AfterSeq(env, ss) == env;
    assert BlockCode(env, 0, NoTarget, false, ss) == body;
    assert FunCode(Through()) == ThroughCode();
    assert [Through()][1..] == [];
  }

  /** A machine at pc with this stack and ebp. */
  function Machine(pc: nat, ebp: Value, stack: seq<Value>): State {
    State(pc, Int(0), Int(0), Int(0), Int(0), ebp, Int(0), stack, map[], (0, 0))
  }

  /**
    The variable p holds the address of the word that its function returns by. The assignment goes
    there, and at `ret` the stack is as high as it should be but the word on top is 7.
   */
  lemma StoreThroughValue() returns (t: State)
    ensures var p := [Through()]; var s := Machine(0, StackAt(0), [StackAt(-8), CodeAt(99)]);
      && Distinct(p) && WellFormed(Through()) && !TameFun(p, Through())
      && Find(ProgramCode(p), FunctionL("h")) == Some(s.pc) && s.ebp == StackAt(0) && |s.stack| == 2
      && Reaches(ProgramCode(p), s, t) && t.pc < |ProgramCode(p)| && ProgramCode(p)[t.pc] == Ret
      && |t.stack| == |s.stack| && t.stack[1] == Int(7)
  {
    hide ProgramCode, FunCode, TameFun, Find, ThroughCode;
    ThroughIs();
    ThroughWild();
    t := ThroughRuns(Machine(0, StackAt(0), [StackAt(-8), CodeAt(99)]));
  }

  lemma ThroughWild()
    ensures Distinct([Through()]) && WellFormed(Through()) && !TameFun([Through()], Through())
    ensures Find(ThroughCode(), FunctionL("h")) == Some(0) && |ThroughCode()| == 8 && ThroughCode()[7] == Ret
  {
    assert !Tame([Through()], EnvOf(Through()), 0, Src.Assign(Src.Paren(Src.Var("p")), Src.Const(7)));
  }

  lemma ThroughRuns(s: State) returns (t: State)
    requires s == Machine(0, StackAt(0), [StackAt(-8), CodeAt(99)])
    ensures Reaches(ThroughCode(), s, t) && t.pc == 7 && t.stack == [StackAt(-8), Int(7)]
  {
    var code := ThroughCode();
    ReachesSelf(code, s);
    var s1 := Go(code, s, s, code[0]);
    var s2 := Go(code, s, s1, LeaEaxEbp(-4));
    var s3 := Go(code, s, s2, LoadEax);
    assert s3.eax == StackAt(-8);
    var s4 := Go(code, s, s3, PushEax);
    var s5 := Go(code, s, s4, MovEaxImm(7));
    var s6 := Go(code, s, s5, PopEbx);
    assert s6.stack == s.stack && s6.ebx == StackAt(-8);
    t := Go(code, s, s6, StoreEbx);
  }

  function CallerCode(): Code {
    [Mark(FunctionL("g")), PushEdi, PushEbp, MovEdiEsp, MovEaxImm(1), PushEax, MovEbpEdi, Call("f"),
     PopEbx, PopEbp, PopEdi, Ret]
  }

  function LocalCode(): Code {
    [Mark(FunctionL("f")), PushEax, LeaEaxEbp(-8), PushEax, MovEaxImm(7), PopEbx, StoreEbx, PopEbx, Ret]
  }

  lemma LocalBody(env: Env)
    requires env == EnvOf(Local()).(locals := ["x"])
    ensures ExprCode(env, Src.Assign(Src.LVal("x"), Src.Const(7))) == [LeaEaxEbp(-8), PushEax, MovEaxImm(7), PopEbx, StoreEbx]
  {
    assert Src.LastIndex(["x"], "x") == Some(0);
    assert Locate(env, "x") == Src.Local(0);
    assert AddressCode(env, "x") == [LeaEaxEbp(-8)];
  }

  lemma LastStatement(env: Env, e: Src.Expr)
    ensures forall n, r :: SeqCode(env, n, NoTarget, r, [Src.ExprS(e)]) == ExprCode(env, e)
    ensures AfterSeq(env, [Src.ExprS(e)]) == env
  {
    hide ExprCode, EndsInRet, BlockCode, Count;
    assert [Src.ExprS(e)][1..] == [];
  }

  /** A list of a declaration without initialisation and an expression statement. */
  lemma TwoStatements(env: Env, x: string, e: Src.Expr)
    ensures var ss, env1 := [Src.Decl(x, None), Src.ExprS(e)], env.(locals := env.locals + [x]);
      SeqCode(env, 0, NoTarget, false, ss) == [PushEax] + ExprCode(env1, e) && AfterSeq(env, ss) == env1
  {
    hide ExprCode, EndsInRet, BlockCode, Count;
    var second, env1 := Src.ExprS(e), env.(locals := env.locals + [x]);
    LastStatement(env1, e);
    assert [Src.Decl(x, None), second][1..] == [second];
    assert StmtCode(env, 0, NoTarget, false, Src.Decl(x, None)) == [PushEax];
  }

  lemma LocalIs()
    ensures FunCode(Local()) == LocalCode()
  {
    hide ExprCode, SeqCode, AfterSeq;
    var env := EnvOf(Local());
    var env1 := env.(locals := ["x"]);
    assert env.locals + ["x"] == ["x"];
    LocalBody(env1);
    TwoStatements(env, "x", Src.Assign(Src.LVal("x"), Src.Const(7)));
    assert Pops(1) == [PopEbx];
    assert BlockCode(env, 0, NoTarget, false, Local().body.body) == [PushEax] + ExprCode(env1, Src.Assign(Src.LVal("x"), Src.Const(7))) + [PopEbx];
  }

  lemma CallerIs()
    ensures FunCode(Caller()) == CallerCode()
  {
    var env, e := EnvOf(Caller()), Src.Call("f", [Src.Const(1)]);
    assert [Src.Const(1)][1..] == [];
    assert ArgsCode(env, [Src.Const(1)]) == [MovEaxImm(1), PushEax];
    assert Pops(1) == [PopEbx];
    var body := [PushEdi, PushEbp, MovEdiEsp, MovEaxImm(1), PushEax, MovEbpEdi, Call("f"), PopEbx, PopEbp, PopEdi];
    assert ExprCode(env, e) == body;
    var ss := [Src.ExprS(e)];
    assert ss[1..] == [] && SeqCode(env, 0, NoTarget, false, ss) == body && AfterSeq(env, ss) == env;
    assert BlockCode(env, 0, NoTarget, false, ss) == body;
  }

  lemma PairIs()
    ensures ProgramCode([Caller(), Local()]) == CallerCode() + LocalCode()
  {
    CallerIs();
    LocalIs();
    var p := [Caller(), Local()];
    assert p[1..] == [Local()] && [Local()][1..] == [];
    assert LocalCode() + [] == LocalCode();
  }

  lemma Instructions()
    ensures var code := CallerCode() + LocalCode();
      && |code| == 21 && code[0] == Mark(FunctionL("g")) && code[1] == PushEdi && code[2] == PushEbp && code[3] == MovEdiEsp
      && code[4] == MovEaxImm(1) && code[5] == PushEax && code[6] == MovEbpEdi && code[7] == Call("f")
      && code[12] == Mark(FunctionL("f")) && code[13] == PushEax && code[14] == LeaEaxEbp(-8) && code[15] == PushEax
      && code[16] == MovEaxImm(7) && code[17] == PopEbx && code[18] == StoreEbx && code[19] == PopEbx && code[20] == Ret
  {
  }

  /** g up to the first instruction of f. */
  lemma CallerRuns(s: State) returns (t: State)
    requires s == Machine(0, StackAt(0), [CodeAt(99)])
    ensures Reaches(CallerCode() + LocalCode(), s, t)
    ensures t.pc == 12 && t.ebp == StackAt(-12) && |t.stack| == 5 && t.stack[4] == CodeAt(8)
  {
    hide Reaches, CallerCode, LocalCode, Find, Arith;
    Instructions();
    var code := CallerCode() + LocalCode();
    ReachesSelf(code, s);
    var s1 := Go(code, s, s, code[0]);
    var s2 := Go(code, s, s1, PushEdi);
    var s3 := Go(code, s, s2, PushEbp);
    assert |s3.stack| == 3;
    var s4 := Go(code, s, s3, MovEdiEsp);
    assert s4.edi == StackAt(-12);
    t := CallerCalls(s, s4);
  }

  /** The argument and the call. */
  lemma CallerCalls(s: State, u: State) returns (t: State)
    requires Reaches(CallerCode() + LocalCode(), s, u)
    requires u.pc == 4 && |u.stack| == 3 && u.edi == StackAt(-12)
    ensures Reaches(CallerCode() + LocalCode(), s, t)
    ensures t.pc == 12 && t.ebp == StackAt(-12) && |t.stack| == 5 && t.stack[4] == CodeAt(8)
  {
    hide Reaches, CallerCode, LocalCode, Find, Arith;
    Instructions();
    var code := CallerCode() + LocalCode();
    var s5 := Go(code, s, u, MovEaxImm(1));
    var s6 := Go(code, s, s5, PushEax);
    var s7 := Go(code, s, s6, MovEbpEdi);
    assert |s7.stack| == 4 && s7.ebp == StackAt(-12) && s7.pc == 7;
    EntryAt();
    t := Go(code, s, s7, Call("f"));
  }

  lemma EntryAt()
    ensures Find(CallerCode() + LocalCode(), FunctionL("f")) == Some(12)
    ensures Find(CallerCode() + LocalCode(), FunctionL("g")) == Some(0)
  {
    var code := CallerCode() + LocalCode();
    assert code[12] == Mark(FunctionL("f")) && code[0] == Mark(FunctionL("g"));
    assert UniqueLabels(code);
    FindUnique(code, FunctionL("f"), 12);
    FindUnique(code, FunctionL("g"), 0);
  }

  /**
    f has no parameter and g passes a value to it, so that the depth of f's local variable is that
    of its return address. At `ret` the word on top is 7.
   */
  lemma ValueTooMany() returns (t: State)
    ensures var p := [Caller(), Local()]; var s := Machine(0, StackAt(0), [CodeAt(99)]);
      && Distinct(p) && WellFormed(Caller()) && WellFormed(Local()) && !TameFun(p, Caller())
      && Find(ProgramCode(p), FunctionL("g")) == Some(s.pc)
      && Reaches(ProgramCode(p), s, t) && t.pc < |ProgramCode(p)| && ProgramCode(p)[t.pc] == Ret
      && |t.stack| == 5 && t.stack[4] == Int(7)
  {
    hide ProgramCode, FunCode, TameFun, Find, CallerCode, LocalCode;
    PairIs();
    EntryAt();
    PairWild();
    var s := Machine(0, StackAt(0), [CodeAt(99)]);
    var u := CallerRuns(s);
    t := LocalRuns(s, u);
  }

  lemma PairWild()
    ensures Distinct([Caller(), Local()]) && WellFormed(Caller()) && WellFormed(Local()) && !TameFun([Caller(), Local()], Caller())
  {
    var p := [Caller(), Local()];
    assert p[1..] == [Local()];
    assert Src.FindFun(p, "f") == Some(Local());
    assert !Tame(p, EnvOf(Caller()), 0, Src.Call("f", [Src.Const(1)]));
  }

  /** f from its first instruction to its last. */
  lemma LocalRuns(s: State, u: State) returns (t: State)
    requires Reaches(CallerCode() + LocalCode(), s, u)
    requires u.pc == 12 && u.ebp == StackAt(-12) && |u.stack| == 5
    ensures Reaches(CallerCode() + LocalCode(), s, t) && t.pc == 20 && |t.stack| == 5 && t.stack[4] == Int(7)
    ensures |CallerCode() + LocalCode()| == 21 && (CallerCode() + LocalCode())[20] == Ret
  {
    hide Reaches, CallerCode, LocalCode, Find, Arith;
    Instructions();
    var code := CallerCode() + LocalCode();
    var u1 := Go(code, s, u, code[12]);
    var u2 := Go(code, s, u1, PushEax);
    var u3 := Go(code, s, u2, LeaEaxEbp(-8));
    assert u3.eax == StackAt(-20) && |u3.stack| == 6;
    var u4 := Go(code, s, u3, PushEax);
    t := LocalEnds(s, u4);
  }

  lemma LocalEnds(s: State, u: State) returns (t: State)
    requires Reaches(CallerCode() + LocalCode(), s, u)
    requires u.pc == 16 && |u.stack| == 7 && u.stack[6] == StackAt(-20)
    ensures Reaches(CallerCode() + LocalCode(), s, t) && t.pc == 20 && |t.stack| == 5 && t.stack[4] == Int(7)
  {
    hide Reaches, CallerCode, LocalCode, Find, Arith;
    Instructions();
    var code := CallerCode() + LocalCode();
    var u5 := Go(code, s, u, MovEaxImm(7));
    var u6 := Go(code, s, u5, PopEbx);
    assert |u6.stack| == 6 && u6.ebx == StackAt(-20);
    var u7 := Go(code, s, u6, StoreEbx);
    assert u7.stack[4] == Int(7);
    t := Go(code, s, u7, PopEbx);
  }
}
