/**
  Compiled programs as the text that is handed to the assembler: a label is no more than its
  spelling, and when two labels are spelled alike the last one counts, as in m2min/hex2.awk:63.
 */
module M2Text {
  import opened Options
  import opened M2Word
  import opened M2Machine
  import opened M2Codegen
  import opened M2Simulation
  import opened M2Correct
  import opened M2Program
  import opened LabelText
  import opened M2LabelText
  import Src = M2Source

  predicate Spells(i: Instr, name: string) { i.Mark? && Spell(i.l) == name }

  /** The last line that defines this label. */
  function FindText(code: Code, name: string): Option<nat> {
    if code == [] then None
    else if Spells(code[|code| - 1], name) then Some(|code| - 1)
    else FindText(code[..|code| - 1], name)
  }

  lemma {:induction false} FoundText(code: Code, name: string)
    ensures var r := FindText(code, name);
      && (r.Some? ==> r.value < |code| && Spells(code[r.value], name))
      && forall i :: 0 <= i < |code| && Spells(code[i], name) ==> r.Some? && i <= r.value
  {
    hide Spells;
    if code != [] {
      var rest := code[..|code| - 1];
      FoundText(rest, name);
      assert forall i :: 0 <= i < |rest| ==> rest[i] == code[i];
    }
  }

  function TextGoto(code: Code, s: State, name: string): Option<State> {
    match FindText(code, name)
    case None => None
    case Some(i) => Some(s.(pc := i))
  }

  /** One instruction of the text: jumps and calls go where the spelling leads. */
  function TextExec(code: Code, instr: Instr, s: State): Option<State> {
    match instr
    case Je(l) => if s.flags.0 == s.flags.1 then TextGoto(code, s, Spell(l)) else Some(Next(s))
    case Jne(l) => if s.flags.0 != s.flags.1 then TextGoto(code, s, Spell(l)) else Some(Next(s))
    case Jmp(l) => TextGoto(code, s, Spell(l))
    case Call(f) => TextGoto(code, s.(stack := s.stack + [CodeAt(s.pc + 1)]), Spell(FunctionL(f)))
    case _ => Exec(code, instr, s)
  }

  function TextStep(code: Code, s: State): Option<State> {
    if s.pc >= |code| then None else TextExec(code, code[s.pc], s)
  }

  function TextRun(code: Code, s: State, k: nat): Option<State>
    decreases k
  {
    if k == 0 then Some(s)
    else
      match TextStep(code, s)
      case None => None
      case Some(t) => TextRun(code, t, k - 1)
  }

  ghost predicate TextReaches(code: Code, s: State, t: State) {
    exists k: nat :: TextRun(code, s, k) == Some(t)
  }

  /** No two lines define labels that are spelled alike. */
  predicate Unambiguous(code: Code) {
    forall i, j :: 0 <= i < j < |code| && code[i].Mark? && code[j].Mark? ==> Spell(code[i].l) != Spell(code[j].l)
  }

  lemma TextFinds(code: Code, l: Label)
    requires Unambiguous(code) && Find(code, l).Some?
    ensures FindText(code, Spell(l)) == Find(code, l)
  {
    hide Spell;
    var i := Find(code, l).value;
    FoundText(code, Spell(l));
    assert Spells(code[i], Spell(l));
    var j := FindText(code, Spell(l)).value;
    assert i <= j && Spell(code[j].l) == Spell(code[i].l);
  }

  /** Unless labels are spelled alike, the text does what the structured code does. */
  lemma {:induction false} TextRuns(code: Code, s: State, k: nat)
    requires Unambiguous(code) && Run(code, s, k).Some?
    ensures TextRun(code, s, k) == Run(code, s, k)
    decreases k
  {
    hide Unambiguous, Spell, Exec, TextExec;
    if k > 0 {
      var t := Step(code, s).value;
      TextSteps(code, s, t);
      TextRuns(code, t, k - 1);
    }
  }

  lemma TextSteps(code: Code, s: State, t: State)
    requires Unambiguous(code) && Step(code, s) == Some(t)
    ensures TextStep(code, s) == Some(t)
  {
    hide Unambiguous, Spell;
    match code[s.pc]
    case Je(l) => if Find(code, l).Some? { TextFinds(code, l); }
    case Jne(l) => if Find(code, l).Some? { TextFinds(code, l); }
    case Jmp(l) => TextFinds(code, l);
    case Call(f) => TextFinds(code, FunctionL(f));
    case _ =>
  }

  /** Numbers of labels that can be printed. */
  predicate Small(p: Src.Program) { forall d :: d in p ==> Count(d.body) <= LIMIT }

  /** No loop of one function and loop of another one with clashing names have the same number. */
  ghost predicate NoClash(p: Src.Program) {
    forall l, m :: l in Marks(ProgramCode(p)) && m in Marks(ProgramCode(p)) ==> !Clash(l, m)
  }

  lemma {:induction false} MarksPrintable(p: Src.Program)
    requires Small(p)
    ensures forall l :: l in Marks(ProgramCode(p)) ==> Printable(l)
  {
    hide FunCode, Marks;
    if p == [] {
      assert Marks([]) == {} by { PlainNoMarks([]); }
    } else {
      FunPrintable(p[0]);
      MarksPrintable(p[1..]);
      MarksConcat(FunCode(p[0]), ProgramCode(p[1..]));
    }
  }

  lemma FunPrintable(d: Src.Fun)
    requires Count(d.body) <= LIMIT
    ensures forall l :: l in Marks(FunCode(d)) ==> Printable(l)
  {
    hide Marks, StmtCode, UniqueLabels;
    var env := Env(d.name, d.scope, d.params, []);
    var body := StmtCode(env, 0, NoTarget, false, d.body);
    StmtLabels(env, 0, NoTarget, false, d.body);
    OneMark(FunctionL(d.name));
    MarksConcat([Mark(FunctionL(d.name))], body);
    var tail := if EndsInRet(false, body) then [] else [Ret];
    PlainNoMarks(tail);
    MarksConcat([Mark(FunctionL(d.name))] + body, tail);
  }

  /** The labels of a program are spelled differently exactly if no two of them clash. */
  lemma UnambiguousExactly(p: Src.Program)
    requires Distinct(p) && Small(p)
    ensures Unambiguous(ProgramCode(p)) <==> NoClash(p)
  {
    hide ProgramCode, Spell, Clash, UniqueLabels;
    var code := ProgramCode(p);
    MarksPrintable(p);
    ProgramLabels(p);
    if NoClash(p) {
      forall i, j | 0 <= i < j < |code| && code[i].Mark? && code[j].Mark? ensures Spell(code[i].l) != Spell(code[j].l) {
        assert code[i].l in Marks(code) && code[j].l in Marks(code);
        assert code[i].l != code[j].l by { assert UniqueLabels(code); Different(code, i, j); }
        SpelledAlikeExactly(code[i].l, code[j].l);
      }
    } else {
      var l, m :| l in Marks(code) && m in Marks(code) && Clash(l, m);
      ClashAlike(l, m);
      NoSelfClash(l, m);
      var i :| 0 <= i < |code| && code[i].Mark? && code[i].l == l;
      var j :| 0 <= j < |code| && code[j].Mark? && code[j].l == m;
    }
  }

  lemma Different(code: Code, i: nat, j: nat)
    requires UniqueLabels(code) && i < j < |code| && code[i].Mark? && code[j].Mark?
    ensures code[i].l != code[j].l
  {
  }

  lemma NoSelfClash(l: Label, m: Label)
    requires Clash(l, m)
    ensures l != m
  {
  }

  /** Names that are apart cannot clash. */
  lemma NamesApartSuffice(p: Src.Program)
    requires Distinct(p) && NamesApart(set i | 0 <= i < |p| :: p[i].name)
    ensures NoClash(p)
  {
    hide ProgramCode, Extension;
    ProgramLabels(p);
  }

  /**
    The text of a compiled program means what the program means: CompilerCorrect, on the machine
    that knows labels by their spelling only.
   */
  lemma TextCorrect(p: Src.Program, fuel: nat, f: string, vs: seq<Src.Num>, g: Src.Globals,
                    s: State, below: seq<Value>, ra: nat, args: seq<Value>) returns (t: State, out: seq<Value>)
    requires Distinct(p) && (forall d :: d in p ==> WellFormed(d)) && Small(p) && NoClash(p)
    requires Src.CallFun(fuel, p, f, vs, g).Result?
    requires FindText(ProgramCode(p), "FUNCTION_" + f) == Some(s.pc)
    requires s.stack == below + args + [CodeAt(ra)] && s.ebp == StackAt(-4 * |below|)
    requires RefinesAll(vs, args) && RelGlobals(g, s.globals)
    ensures var r := Src.CallFun(fuel, p, f, vs, g);
      && TextReaches(ProgramCode(p), s, t) && t.pc == ra && t.edi == s.edi
      && t.stack == below + out && |out| == |args| && RefinesCells(r.args, out)
      && RelGlobals(r.g, t.globals) && Refines(r.v, t.eax)
  {
    hide Src.CallFun, ProgramCode, Unambiguous, NoClash, Small, Find, FindText;
    UnambiguousExactly(p);
    var code := ProgramCode(p);
    FunctionText(code, f, s.pc);
    t, out := CompilerCorrect(p, fuel, f, vs, g, s, below, ra, args);
    var k: nat :| Run(code, s, k) == Some(t);
    TextRuns(code, s, k);
  }

  lemma FunctionText(code: Code, f: string, i: nat)
    requires Unambiguous(code) && FindText(code, "FUNCTION_" + f) == Some(i)
    ensures Find(code, FunctionL(f)) == Some(i)
  {
    hide Unambiguous, Spell;
    FoundText(code, "FUNCTION_" + f);
    var l := code[i].l;
    if l.LocalL? { LocalNoFunction(l, f); } else { FunctionNamed(l, f); }
    assert Mark(FunctionL(f)) in code;
    assert Spell(FunctionL(f)) == "FUNCTION_" + f by { SpellFunction(f); }
    TextFinds(code, FunctionL(f));
  }

  lemma SpellFunction(f: string)
    ensures Spell(FunctionL(f)) == "FUNCTION_" + f
  {
  }

  lemma FunctionNamed(l: Label, f: string)
    requires l.FunctionL? && Spell(l) == "FUNCTION_" + f
    ensures l == FunctionL(f)
  {
    assert Spell(l)[9..] == l.f && ("FUNCTION_" + f)[9..] == f;
  }

  lemma LocalNoFunction(l: Label, f: string)
    requires l.LocalL?
    ensures Spell(l) != "FUNCTION_" + f
  {
    hide UniqueId;
    FunctionPrefix(l.kind);
    var name := "FUNCTION_" + f;
    assert Spell(l)[0] == Prefix(l.kind)[0] && Spell(l)[1] == Prefix(l.kind)[1];
    assert name[0] == 'F' && name[1] == 'U';
  }
}

/**
  A program whose text does not mean what it means: the first for loop of a function g ends at the
  label with which the first for loop of a function END_g begins.
 */
module M2Clash {
  import opened Options
  import opened M2Word
  import opened M2Machine
  import opened M2Codegen
  import opened M2Correct
  import opened M2Program
  import opened LabelText
  import opened M2LabelText
  import opened M2Text
  import Src = M2Source

  const NOWHERE := Src.Scope(map[], {}, {})

  /** int name() { for (; 0; 0) { } return result; } */
  function Looping(name: string, result: Word): Src.Fun {
    Src.Fun(name, [], Src.Block([Src.For(None, Src.Const(0), Src.Const(0), Src.Block([])), Src.Return(Some(Src.Const(result)))]), NOWHERE)
  }

  function Pair(): Src.Program { [Looping("g", 0), Looping("END_g", 1)] }

  function LoopingCode(name: string, result: Word): Code {
    [Mark(FunctionL(name)), Mark(LocalL(ForL, name, 0)), MovEaxImm(0), TestEaxEax, Je(LocalL(ForEndL, name, 0)),
     Jmp(LocalL(ForThenL, name, 0)), Mark(LocalL(ForIterL, name, 0)), MovEaxImm(0), Jmp(LocalL(ForL, name, 0)),
     Mark(LocalL(ForThenL, name, 0)), Jmp(LocalL(ForIterL, name, 0)), Mark(LocalL(ForEndL, name, 0)),
     MovEaxImm(result), Ret]
  }

  function PairCode(): Code { LoopingCode("g", 0) + LoopingCode("END_g", 1) }

  lemma LoopCode(env: Env)
    requires env.locals == []
    ensures StmtCode(env, 0, NoTarget, false, Src.For(None, Src.Const(0), Src.Const(0), Src.Block([])))
      == [Mark(Lbl(env, ForL, 0)), MovEaxImm(0), TestEaxEax, Je(Lbl(env, ForEndL, 0)),
          Jmp(Lbl(env, ForThenL, 0)), Mark(Lbl(env, ForIterL, 0)), MovEaxImm(0), Jmp(Lbl(env, ForL, 0)),
          Mark(Lbl(env, ForThenL, 0)), Jmp(Lbl(env, ForIterL, 0)), Mark(Lbl(env, ForEndL, 0))]
  {
    assert Pops(0) == [];
    assert BlockCode(env, 1, ForTarget(env, 0), false, []) == [];
    assert StmtCode(env, 1, ForTarget(env, 0), false, Src.Block([])) == [];
  }

  lemma LoopingIs(name: string, result: Word)
    ensures FunCode(Looping(name, result)) == LoopingCode(name, result)
  {
    hide StmtCode, BlockCode;
    var env := Env(name, NOWHERE, [], []);
    var loop, back := Src.For(None, Src.Const(0), Src.Const(0), Src.Block([])), Src.Return(Some(Src.Const(result)));
    LoopCode(env);
    ReturnCode(env, result);
    BlockOfTwo(env, loop, back);
    var body := StmtCode(env, 0, NoTarget, false, loop) + [MovEaxImm(result), Ret];
    assert StmtCode(env, 0, NoTarget, false, Looping(name, result).body) == body;
    assert FunCode(Looping(name, result)) == [Mark(FunctionL(name))] + body + [];
  }

  /** A loop and a return, neither of which declares anything. */
  lemma BlockOfTwo(env: Env, loop: Src.Stmt, back: Src.Stmt)
    requires loop == Src.For(None, Src.Const(0), Src.Const(0), Src.Block([])) && back.Return? && env.locals == []
    requires StmtCode(env, 1, NoTarget, false, back) != [] && EndsInRet(false, StmtCode(env, 1, NoTarget, false, back))
    requires StmtCode(env, 0, NoTarget, false, loop) != [] && !EndsInRet(false, StmtCode(env, 0, NoTarget, false, loop))
    ensures StmtCode(env, 0, NoTarget, false, Src.Block([loop, back]))
      == StmtCode(env, 0, NoTarget, false, loop) + StmtCode(env, 1, NoTarget, false, back)
  {
    var c, d := StmtCode(env, 0, NoTarget, false, loop), StmtCode(env, 1, NoTarget, false, back);
    assert StmtCode(env, 0, NoTarget, false, Src.Block([loop, back])) == BlockCode(env, 0, NoTarget, false, [loop, back]);
    hide StmtCode;
    assert [loop, back][1..] == [back] && [back][1..] == [];
    assert Count(loop) == 1;
    assert SeqCode(env, 1, NoTarget, false, [back]) == d;
    assert SeqCode(env, 0, NoTarget, false, [loop, back]) == c + d;
  }

  lemma ReturnCode(env: Env, result: Word)
    requires env.locals == []
    ensures StmtCode(env, 1, NoTarget, false, Src.Return(Some(Src.Const(result)))) == [MovEaxImm(result), Ret]
  {
    assert Pops(0) == [];
  }

  lemma PairIs()
    ensures ProgramCode(Pair()) == PairCode()
  {
    hide FunCode, LoopingCode;
    LoopingIs("g", 0);
    LoopingIs("END_g", 1);
    assert Pair()[1..] == [Looping("END_g", 1)] && [Looping("END_g", 1)][1..] == [];
    assert LoopingCode("END_g", 1) + [] == LoopingCode("END_g", 1);
  }

  /** The spelling of g's exit is found in END_g, the other labels where they are. */
  lemma Astray()
    ensures Find(PairCode(), LocalL(ForEndL, "g", 0)) == Some(11)
    ensures FindText(PairCode(), Spell(LocalL(ForEndL, "g", 0))) == Some(15)
  {
    hide Spell, LoopingCode, PairCode, UniqueLabels, FindText, Find, ProgramCode;
    var code, exit := PairCode(), LocalL(ForEndL, "g", 0);
    Lines();
    SpelledAlikeExample();
    FoundText(code, Spell(exit));
    assert Spells(code[15], Spell(exit));
    LaterLabels(ForIterL);
    LaterLabels(ForThenL);
    LaterLabels(ForEndL);
    FindUnique(code, exit, 11);
  }

  lemma Lines()
    ensures var code := PairCode();
      && |code| == 28 && UniqueLabels(code)
      && code[11] == Mark(LocalL(ForEndL, "g", 0)) && code[15] == Mark(LocalL(ForL, "END_g", 0))
      && code[25] == Mark(LocalL(ForEndL, "END_g", 0))
      && forall j :: 15 < j < 28 && code[j].Mark? ==>
        code[j].l == LocalL(ForIterL, "END_g", 0) || code[j].l == LocalL(ForThenL, "END_g", 0) || code[j].l == LocalL(ForEndL, "END_g", 0)
  {
    hide UniqueLabels, LoopingCode, ProgramCode;
    PairIs();
    PairDistinct();
    ProgramLabels(Pair());
    LoopingLines("g", 0);
    LoopingLines("END_g", 1);
    var second := LoopingCode("END_g", 1);
    forall j | 14 <= j < 28 ensures PairCode()[j] == second[j - 14] {
    }
  }

  lemma LoopingLines(name: string, result: Word)
    ensures var code := LoopingCode(name, result);
      && |code| == 14 && code[1] == Mark(LocalL(ForL, name, 0)) && code[11] == Mark(LocalL(ForEndL, name, 0))
      && forall j :: 1 < j < 14 && code[j].Mark? ==>
        code[j].l == LocalL(ForIterL, name, 0) || code[j].l == LocalL(ForThenL, name, 0) || code[j].l == LocalL(ForEndL, name, 0)
  {
  }

  lemma PairDistinct()
    ensures Distinct(Pair()) && forall d :: d in Pair() ==> WellFormed(d)
  {
  }

  lemma LaterLabels(kind: LabelKind)
    requires kind != ForL
    ensures Spell(LocalL(kind, "END_g", 0)) != Spell(LocalL(ForEndL, "g", 0))
  {
    SpelledAlikeExactly(LocalL(kind, "END_g", 0), LocalL(ForEndL, "g", 0));
  }

  /** In the source, g returns 0. */
  lemma MeansZero()
    ensures Src.CallFun(1, Pair(), "g", [], map[]).Result? && Src.CallFun(1, Pair(), "g", [], map[]).v == Some(0)
  {
    var p, d, fr, g := Pair(), Looping("g", 0), Src.Frame(NOWHERE, [], [], None), map[];
    var loop, back := Src.For(None, Src.Const(0), Src.Const(0), Src.Block([])), Src.Return(Some(Src.Const(0)));
    assert Src.FindFun(p, "g") == Some(d);
    assert Src.Bind([], []) == [];
    assert Src.ExecFor(0, p, fr, g, loop) == Src.Done(Src.Normal, fr, g, None);
    assert Src.ExecStmt(0, p, fr, g, loop) == Src.Done(Src.Normal, fr, g, None);
    assert Src.ExecStmt(0, p, fr, g, back) == Src.Done(Src.Returned, fr, g, Some(0));
    assert [loop, back][1..] == [back];
    assert Src.ExecSeq(0, p, fr, g, [back]) == Src.Done(Src.Returned, fr, g, Some(0));
    assert Src.ExecSeq(0, p, fr, g, [loop, back]) == Src.Done(Src.Returned, fr, g, Some(0));
    assert fr.locals[..0] == [];
    assert Src.ExecStmt(0, p, fr, g, d.body) == Src.Done(Src.Returned, fr, g, Some(0));
  }

  lemma TextGo(code: Code, s0: State, s: State, instr: Instr) returns (t: State)
    requires TextReaches(code, s0, s) && s.pc < |code| && code[s.pc] == instr && TextExec(code, instr, s).Some?
    ensures TextExec(code, instr, s) == Some(t) && TextReaches(code, s0, t)
  {
    hide TextExec;
    t := TextExec(code, instr, s).value;
    var k: nat :| TextRun(code, s0, k) == Some(s);
    OneMore(code, s0, s, t, k);
  }

  lemma {:induction false} OneMore(code: Code, s0: State, s: State, t: State, k: nat)
    requires TextRun(code, s0, k) == Some(s) && TextStep(code, s) == Some(t)
    ensures TextRun(code, s0, k + 1) == Some(t)
    decreases k
  {
    hide TextStep;
    if k == 0 {
      assert TextRun(code, t, 0) == Some(t);
    } else {
      OneMore(code, TextStep(code, s0).value, s, t, k - 1);
    }
  }

  function Entry(): State {
    State(0, Int(0), Int(0), Int(0), Int(0), StackAt(0), Int(0), [CodeAt(99)], map[], (0, 0))
  }

  lemma TextSelf(code: Code, s: State)
    ensures TextReaches(code, s, s)
  {
    assert TextRun(code, s, 0) == Some(s);
  }

  /** A loop whose condition is 0, from its label at i to where its exit is found. */
  lemma LoopEnds(code: Code, s0: State, s: State, exit: Label, end: nat) returns (t: State)
    requires TextReaches(code, s0, s) && s.pc + 3 < |code| && code[s.pc].Mark?
    requires code[s.pc + 1] == MovEaxImm(0) && code[s.pc + 2] == TestEaxEax && code[s.pc + 3] == Je(exit)
    requires FindText(code, Spell(exit)) == Some(end)
    ensures TextReaches(code, s0, t) && t.pc == end && t.stack == s.stack
  {
    hide TextReaches, Spell, FindText;
    var s1 := TextGo(code, s0, s, code[s.pc]);
    var s2 := TextGo(code, s0, s1, MovEaxImm(0));
    var s3 := TextGo(code, s0, s2, TestEaxEax);
    t := TextGo(code, s0, s3, Je(exit));
  }

  /** In the text, g goes astray at the end of its loop and returns 1. */
  lemma ReturnsOne() returns (t: State)
    ensures TextReaches(PairCode(), Entry(), t) && t.pc == 99 && t.eax == Int(1)
  {
    hide Spell, LoopingCode, PairCode, FindText, Find, TextReaches, TextExec;
    var code, s := PairCode(), Entry();
    Instructions();
    Astray();
    LastLabel();
    TextSelf(code, s);
    var s1 := MarkGoes(code, s, s);
    var s2 := LoopEnds(code, s, s1, LocalL(ForEndL, "g", 0), 15);
    var s3 := LoopEnds(code, s, s2, LocalL(ForEndL, "END_g", 0), 25);
    var s4 := MarkGoes(code, s, s3);
    t := ReturnGoes(code, s, s4, 99);
  }

  lemma MarkGoes(code: Code, s0: State, s: State) returns (t: State)
    requires TextReaches(code, s0, s) && s.pc < |code| && code[s.pc].Mark?
    ensures TextReaches(code, s0, t) && t.pc == s.pc + 1 && t.stack == s.stack
  {
    hide TextReaches;
    t := TextGo(code, s0, s, code[s.pc]);
  }

  lemma ReturnGoes(code: Code, s0: State, s: State, ra: nat) returns (t: State)
    requires TextReaches(code, s0, s) && s.pc + 1 < |code| && code[s.pc] == MovEaxImm(1) && code[s.pc + 1] == Ret
    requires s.stack == [CodeAt(ra)]
    ensures TextReaches(code, s0, t) && t.pc == ra && t.eax == Int(1)
  {
    hide TextReaches;
    var s1 := TextGo(code, s0, s, MovEaxImm(1));
    t := TextGo(code, s0, s1, Ret);
  }

  lemma Instructions()
    ensures var code := PairCode();
      && |code| == 28 && code[0].Mark? && code[1].Mark? && code[15].Mark? && code[25].Mark?
      && code[2] == MovEaxImm(0) && code[3] == TestEaxEax && code[4] == Je(LocalL(ForEndL, "g", 0))
      && code[16] == MovEaxImm(0) && code[17] == TestEaxEax && code[18] == Je(LocalL(ForEndL, "END_g", 0))
      && code[26] == MovEaxImm(1) && code[27] == Ret
  {
  }

  lemma LastLabel()
    ensures FindText(PairCode(), Spell(LocalL(ForEndL, "END_g", 0))) == Some(25)
  {
    hide Spell, LoopingCode, PairCode, UniqueLabels;
    var name := Spell(LocalL(ForEndL, "END_g", 0));
    Lines();
    Instructions();
    FoundText(PairCode(), name);
    assert Spells(PairCode()[25], name);
    NothingBehind();
  }

  lemma NothingBehind()
    ensures |PairCode()| == 28 && !PairCode()[26].Mark? && !PairCode()[27].Mark?
  {
  }

  /**
    Function names are distinct and the program is in order otherwise. g returns 0, but its text
    returns 1; the names clash.
   */
  lemma TextDiffers() returns (t: State)
    ensures Distinct(Pair()) && (forall d :: d in Pair() ==> WellFormed(d)) && Small(Pair()) && !NoClash(Pair())
    ensures Src.CallFun(1, Pair(), "g", [], map[]).Result? && Src.CallFun(1, Pair(), "g", [], map[]).v == Some(0)
    ensures FindText(ProgramCode(Pair()), "FUNCTION_g") == Some(Entry().pc) && Entry().stack == [CodeAt(99)]
    ensures TextReaches(ProgramCode(Pair()), Entry(), t) && t.pc == 99 && t.eax == Int(1)
  {
    hide Src.CallFun, ProgramCode, TextReaches, FindText;
    PairIs();
    PairDistinct();
    PairSmall();
    MeansZero();
    t := ReturnsOne();
    FirstLine();
    PairClashes();
  }

  lemma PairSmall()
    ensures Small(Pair())
  {
    assert Count(Src.For(None, Src.Const(0), Src.Const(0), Src.Block([]))) == 1;
    forall d | d in Pair() ensures Count(d.body) <= LIMIT {
      assert d.body.body[1..] == [d.body.body[1]];
    }
  }

  lemma PairClashes()
    ensures !NoClash(Pair())
  {
    hide LoopingCode, ProgramCode, UniqueLabels;
    PairIs();
    Lines();
    var l, m := LocalL(ForL, "END_g", 0), LocalL(ForEndL, "g", 0);
    MarkedAt(PairCode(), 15);
    MarkedAt(PairCode(), 11);
    assert Clash(l, m) by { assert "END_" + "g" == "END_g"; }
  }

  lemma FirstLine()
    ensures FindText(PairCode(), "FUNCTION_g") == Some(0)
  {
    hide Spell, LoopingCode, PairCode;
    var code := PairCode();
    FoundText(code, "FUNCTION_g");
    FunctionLines();
    assert "FUNCTION_" + "g" == "FUNCTION_g";
    SpellFunction("g");
    assert Spells(code[0], "FUNCTION_g");
    var i := FindText(code, "FUNCTION_g").value;
    if code[i].l.LocalL? { LocalNoFunction(code[i].l, "g"); } else { FunctionNamed(code[i].l, "g"); }
  }

  lemma FunctionLines()
    ensures var code := PairCode();
      && |code| == 28 && code[0] == Mark(FunctionL("g"))
      && forall j :: 0 < j < 28 ==> code[j] != Mark(FunctionL("g"))
  {
  }
}
