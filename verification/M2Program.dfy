/**
  Whole programs: labels never clash when function names are distinct, so the code of every
  function can be entered, and the compiler as a whole preserves meaning.
 */
module M2Program {
  import opened Options
  import opened M2Word
  import opened M2Machine
  import opened M2Codegen
  import opened M2Simulation
  import opened M2Correct
  import Src = M2Source

  /** The labels a piece of code defines. */
  function Marks(code: Code): set<Label> { set i | 0 <= i < |code| && code[i].Mark? :: code[i].l }

  lemma MarksConcat(a: Code, b: Code)
    ensures Marks(a + b) == Marks(a) + Marks(b)
    ensures UniqueLabels(a) && UniqueLabels(b) && Marks(a) !! Marks(b) ==> UniqueLabels(a + b)
  {
    var c := a + b;
    forall l | l in Marks(a) + Marks(b) ensures l in Marks(c) {
      if l in Marks(a) {
        var i :| 0 <= i < |a| && a[i] == Mark(l);
        assert c[i] == Mark(l);
      } else {
        var i :| 0 <= i < |b| && b[i] == Mark(l);
        assert c[|a| + i] == Mark(l);
      }
    }
    if UniqueLabels(a) && UniqueLabels(b) && Marks(a) !! Marks(b) {
      forall i, j | 0 <= i < j < |c| && c[i].Mark? ensures c[i] != c[j] {
        if i < |a| <= j && c[j].Mark? { assert c[i].l in Marks(a) && c[j].l in Marks(b); }
      }
    }
  }

  lemma {:induction false} ExprNoMarks(env: Env, e: Src.Expr)
    ensures Marks(ExprCode(env, e)) == {}
    decreases e, 1
  {
    hide Src.Locate, Marks;
    match e
    case Const(_) | Var(_) | LVal(_) => LeafNoMarks(env, e);
    case Paren(e1) => ExprNoMarks(env, e1);
    case Assign(t, v) =>
      ExprNoMarks(env, t);
      ExprNoMarks(env, v);
      PlainNoMarks([PushEax]);
      PlainNoMarks([PopEbx, StoreEbx]);
      MarksConcat(ExprCode(env, t), [PushEax]);
      MarksConcat(ExprCode(env, t) + [PushEax], ExprCode(env, v));
      MarksConcat(ExprCode(env, t) + [PushEax] + ExprCode(env, v), [PopEbx, StoreEbx]);
    case Un(op, e1) =>
      ExprNoMarks(env, e1);
      PlainNoMarks(UnaryHead(op) + [PushEax]);
      PlainNoMarks([PopEbx] + UnaryCode(op));
      MarksConcat(UnaryHead(op) + [PushEax], ExprCode(env, e1));
      MarksConcat(UnaryHead(op) + [PushEax] + ExprCode(env, e1), [PopEbx] + UnaryCode(op));
    case Bin(op, l, r) =>
      ExprNoMarks(env, l);
      ExprNoMarks(env, r);
      PlainNoMarks([PushEax]);
      PlainNoMarks([PopEbx] + OperatorCode(op));
      MarksConcat(ExprCode(env, l), [PushEax]);
      MarksConcat(ExprCode(env, l) + [PushEax], ExprCode(env, r));
      MarksConcat(ExprCode(env, l) + [PushEax] + ExprCode(env, r), [PopEbx] + OperatorCode(op));
    case Call(f, args) =>
      ArgsNoMarks(env, args);
      PlainNoMarks(SAVE_FRAME);
      PlainNoMarks([MovEbpEdi, Instr.Call(f)] + Pops(|args|) + RESTORE_FRAME);
      MarksConcat(SAVE_FRAME, ArgsCode(env, args));
      MarksConcat(SAVE_FRAME + ArgsCode(env, args), [MovEbpEdi, Instr.Call(f)] + Pops(|args|) + RESTORE_FRAME);
  }

  lemma LeafNoMarks(env: Env, e: Src.Expr)
    requires e.Const? || e.Var? || e.LVal?
    ensures Marks(ExprCode(env, e)) == {}
  {
  }

  lemma PlainNoMarks(code: Code)
    requires forall i :: 0 <= i < |code| ==> !code[i].Mark?
    ensures Marks(code) == {} && UniqueLabels(code)
  {
  }

  lemma {:induction false} ArgsNoMarks(env: Env, es: seq<Src.Expr>)
    ensures Marks(ArgsCode(env, es)) == {}
    decreases es, 0
  {
    if es != [] {
      ExprNoMarks(env, es[0]);
      ArgsNoMarks(env, es[1..]);
      PlainNoMarks([PushEax]);
      MarksConcat(ExprCode(env, es[0]), [PushEax]);
      MarksConcat(ExprCode(env, es[0]) + [PushEax], ArgsCode(env, es[1..]));
    }
  }

  predicate Within(ls: set<Label>, f: string, lo: nat, hi: nat) {
    forall l :: l in ls ==> l.LocalL? && l.f == f && lo <= l.num < hi
  }

  lemma OneMark(l: Label)
    ensures Marks([Mark(l)]) == {l} && UniqueLabels([Mark(l)])
  {
    assert [Mark(l)][0].l in Marks([Mark(l)]);
  }

  lemma NoMarksUnique(code: Code)
    requires Marks(code) == {}
    ensures UniqueLabels(code)
  {
    forall i | 0 <= i < |code| ensures !code[i].Mark? { MarkedAt(code, i); }
  }

  lemma MarkedAt(code: Code, i: nat)
    requires i < |code|
    ensures code[i].Mark? ==> code[i].l in Marks(code)
  {
  }

  lemma ExprPlain(env: Env, e: Src.Expr)
    ensures Marks(ExprCode(env, e)) == {} && UniqueLabels(ExprCode(env, e))
  {
    ExprNoMarks(env, e);
    NoMarksUnique(ExprCode(env, e));
  }

  lemma OptPlain(env: Env, e: Option<Src.Expr>)
    ensures Marks(OptCode(env, e)) == {} && UniqueLabels(OptCode(env, e))
  {
    if e.Some? { ExprPlain(env, e.value); }
  }

  /** Numbers are spent once: a statement's labels lie in [n, n + Count) and are distinct. */
  lemma {:induction false} StmtLabels(env: Env, n: nat, brk: Target, ret: bool, s: Src.Stmt)
    ensures UniqueLabels(StmtCode(env, n, brk, ret, s))
    ensures Within(Marks(StmtCode(env, n, brk, ret, s)), env.fname, n, n + Count(s))
    decreases s, 3
  {
    hide Marks, ExprCode, BlockCode, UniqueLabels, Pops, IfHead, IfMiddle, WhileHead, WhileTail, ForHead, ForTail, DoTail, OptCode;
    PlainNoMarks([PushEax]);
    match s
    case ExprS(e) => ExprPlain(env, e);
    case Block(body) => BlockLabels(env, n, brk, ret, body);
    case Decl(x, init) => OptionalLabels(env.(locals := env.locals + [x]), init, [PushEax]);
    case If(c, t, e) => IfLabels(env, n, brk, s);
    case While(c, b) => WhileLabels(env, n, c, b);
    case DoWhile(b, c) => DoLabels(env, n, c, b);
    case For(start, c, i, b) =>
      var rest := ForHead(env, n, c, i) + StmtCode(env, n + 1, ForTarget(env, n), false, b) + ForTail(env, n);
      ForLabels(env, n, c, i, b);
      OptionalLabels(env, start, rest);
      assert OptCode(env, start) + ForHead(env, n, c, i) + StmtCode(env, n + 1, ForTarget(env, n), false, b) + ForTail(env, n)
          == OptCode(env, start) + rest;
    case Return(e) =>
      PlainNoMarks(Pops(|env.locals|) + [Ret]);
      OptionalLabels(env, e, Pops(|env.locals|) + [Ret]);
      assert OptCode(env, e) + Pops(|env.locals|) + [Ret] == OptCode(env, e) + (Pops(|env.locals|) + [Ret]);
    case Break => PlainNoMarks(StmtCode(env, n, brk, ret, s));
  }

  lemma OptionalLabels(env: Env, e: Option<Src.Expr>, rest: Code)
    requires UniqueLabels(rest)
    ensures UniqueLabels(OptCode(env, e) + rest) && Marks(OptCode(env, e) + rest) == Marks(rest)
  {
    hide Marks, UniqueLabels, OptCode;
    OptPlain(env, e);
    MarksConcat(OptCode(env, e), rest);
  }

  /** Code between two pieces that carry labels numbered n. */
  lemma Around(env: Env, n: nat, a: Code, x: Code, b: Code, hi: nat)
    requires n < hi && UniqueLabels(a) && UniqueLabels(x) && UniqueLabels(b)
    requires Within(Marks(a), env.fname, n, n + 1) && Within(Marks(b), env.fname, n, n + 1) && Marks(a) !! Marks(b)
    requires Within(Marks(x), env.fname, n + 1, hi)
    ensures UniqueLabels(a + x + b) && Within(Marks(a + x + b), env.fname, n, hi)
    ensures Marks(a + x + b) == Marks(a) + Marks(x) + Marks(b)
  {
    hide Marks, UniqueLabels;
    MarksConcat(a, x);
    MarksConcat(a + x, b);
  }

  lemma {:induction false} WhileLabels(env: Env, n: nat, c: Src.Expr, b: Src.Stmt)
    ensures var code := WhileHead(env, n, c) + StmtCode(env, n + 1, WhileTarget(env, n), false, b) + WhileTail(env, n);
      UniqueLabels(code) && Within(Marks(code), env.fname, n, n + 1 + Count(b))
    decreases b, 4
  {
    hide Marks, ExprCode, StmtCode, UniqueLabels;
    var start, test := [Mark(Lbl(env, WhileL, n))], [TestEaxEax, Je(Lbl(env, EndWhileL, n))];
    StmtLabels(env, n + 1, WhileTarget(env, n), false, b);
    ExprPlain(env, c);
    OneMark(Lbl(env, WhileL, n));
    PlainNoMarks(test);
    MarksConcat(start, ExprCode(env, c));
    MarksConcat(start + ExprCode(env, c), test);
    TailMarks(WhileTail(env, n), Lbl(env, EndWhileL, n));
    Around(env, n, WhileHead(env, n, c), StmtCode(env, n + 1, WhileTarget(env, n), false, b), WhileTail(env, n), n + 1 + Count(b));
  }

  lemma TailMarks(tail: Code, l: Label)
    requires |tail| > 0 && tail[|tail| - 1] == Mark(l)
    requires forall i :: 0 <= i < |tail| - 1 ==> !tail[i].Mark?
    ensures Marks(tail) == {l} && UniqueLabels(tail)
  {
    assert tail[|tail| - 1].l in Marks(tail);
  }

  lemma {:induction false} DoLabels(env: Env, n: nat, c: Src.Expr, b: Src.Stmt)
    ensures var code := DoHead(env, n) + StmtCode(env, n + 1, DoTarget(env, n), false, b) + DoTail(env, n, c);
      UniqueLabels(code) && Within(Marks(code), env.fname, n, n + 1 + Count(b))
    decreases b, 4
  {
    hide Marks, ExprCode, StmtCode, UniqueLabels;
    var mid := [Mark(Lbl(env, DoTestL, n))];
    var end := [TestEaxEax, Jne(Lbl(env, DoL, n)), Mark(Lbl(env, DoEndL, n))];
    StmtLabels(env, n + 1, DoTarget(env, n), false, b);
    ExprPlain(env, c);
    OneMark(Lbl(env, DoL, n));
    OneMark(Lbl(env, DoTestL, n));
    TailMarks(end, Lbl(env, DoEndL, n));
    MarksConcat(mid, ExprCode(env, c));
    MarksConcat(mid + ExprCode(env, c), end);
    Around(env, n, [Mark(Lbl(env, DoL, n))], StmtCode(env, n + 1, DoTarget(env, n), false, b), DoTail(env, n, c), n + 1 + Count(b));
  }

  lemma ForHeadLabels(env: Env, n: nat, c: Src.Expr, i: Src.Expr)
    ensures Marks(ForHead(env, n, c, i)) == {Lbl(env, ForL, n), Lbl(env, ForIterL, n), Lbl(env, ForThenL, n)}
    ensures UniqueLabels(ForHead(env, n, c, i))
  {
    hide Marks, ExprCode, UniqueLabels;
    var start := [Mark(Lbl(env, ForL, n))];
    var four := [TestEaxEax, Je(Lbl(env, ForEndL, n)), Jmp(Lbl(env, ForThenL, n)), Mark(Lbl(env, ForIterL, n))];
    ExprPlain(env, c);
    ExprPlain(env, i);
    OneMark(Lbl(env, ForL, n));
    TailMarks(four, Lbl(env, ForIterL, n));
    TailMarks([Jmp(Lbl(env, ForL, n)), Mark(Lbl(env, ForThenL, n))], Lbl(env, ForThenL, n));
    MarksConcat(start, ExprCode(env, c));
    MarksConcat(start + ExprCode(env, c), four);
    MarksConcat(start + ExprCode(env, c) + four, ExprCode(env, i));
    MarksConcat(start + ExprCode(env, c) + four + ExprCode(env, i), [Jmp(Lbl(env, ForL, n)), Mark(Lbl(env, ForThenL, n))]);
  }

  lemma {:induction false} ForLabels(env: Env, n: nat, c: Src.Expr, i: Src.Expr, b: Src.Stmt)
    ensures var code := ForHead(env, n, c, i) + StmtCode(env, n + 1, ForTarget(env, n), false, b) + ForTail(env, n);
      UniqueLabels(code) && Within(Marks(code), env.fname, n, n + 1 + Count(b))
    decreases b, 4
  {
    hide Marks, ExprCode, StmtCode, UniqueLabels, ForHead;
    StmtLabels(env, n + 1, ForTarget(env, n), false, b);
    ForHeadLabels(env, n, c, i);
    TailMarks(ForTail(env, n), Lbl(env, ForEndL, n));
    Around(env, n, ForHead(env, n, c, i), StmtCode(env, n + 1, ForTarget(env, n), false, b), ForTail(env, n), n + 1 + Count(b));
  }

  lemma {:induction false} IfLabels(env: Env, n: nat, brk: Target, s: Src.Stmt)
    requires s.If?
    ensures var code := IfHead(env, n, s.cond) + StmtCode(env, n + 1, brk, false, s.thn) + IfMiddle(env, n)
                        + ElseCode(env, n, brk, s) + IfEnd(env, n);
      UniqueLabels(code) && Within(Marks(code), env.fname, n, n + Count(s))
    decreases s, 1
  {
    hide Marks, ExprCode, UniqueLabels, StmtCode, IfHead, IfMiddle;
    var m := n + 1 + Count(s.thn);
    StmtLabels(env, n + 1, brk, false, s.thn);
    if s.els.Some? { StmtLabels(env, m, brk, false, s.els.value); } else { PlainNoMarks(ElseCode(env, n, brk, s)); }
    IfPieces(env, n, s.cond, StmtCode(env, n + 1, brk, false, s.thn), ElseCode(env, n, brk, s), m, n + Count(s));
  }

  lemma IfPieces(env: Env, n: nat, c: Src.Expr, then_: Code, else_: Code, m: nat, hi: nat)
    requires n < m <= hi && UniqueLabels(then_) && UniqueLabels(else_)
    requires Within(Marks(then_), env.fname, n + 1, m) && Within(Marks(else_), env.fname, m, hi)
    ensures var code := IfHead(env, n, c) + then_ + IfMiddle(env, n) + else_ + IfEnd(env, n);
      UniqueLabels(code) && Within(Marks(code), env.fname, n, hi)
  {
    hide Marks, ExprCode, UniqueLabels;
    var test := [TestEaxEax, Je(Lbl(env, ElseL, n))];
    ExprPlain(env, c);
    PlainNoMarks(test);
    MarksConcat(ExprCode(env, c), test);
    TailMarks(IfMiddle(env, n), Lbl(env, ElseL, n));
    Around(env, n, IfHead(env, n, c), then_, IfMiddle(env, n), m);
    MarksConcat(IfHead(env, n, c) + then_ + IfMiddle(env, n), else_);
    OneMark(Lbl(env, EndIfL, n));
    MarksConcat(IfHead(env, n, c) + then_ + IfMiddle(env, n) + else_, [Mark(Lbl(env, EndIfL, n))]);
  }

  lemma {:induction false} BlockLabels(env: Env, n: nat, brk: Target, ret: bool, body: seq<Src.Stmt>)
    ensures UniqueLabels(BlockCode(env, n, brk, ret, body))
    ensures Within(Marks(BlockCode(env, n, brk, ret, body)), env.fname, n, n + CountSeq(body))
    decreases body, 1
  {
    hide Marks, SeqCode, UniqueLabels;
    SeqLabels(env, n, brk, ret, body);
    var k := |AfterSeq(env, body).locals| - |env.locals|;
    PlainNoMarks(Pops(k));
    MarksConcat(SeqCode(env, n, brk, ret, body), Pops(k));
  }

  lemma {:induction false} SeqLabels(env: Env, n: nat, brk: Target, ret: bool, ss: seq<Src.Stmt>)
    ensures UniqueLabels(SeqCode(env, n, brk, ret, ss))
    ensures Within(Marks(SeqCode(env, n, brk, ret, ss)), env.fname, n, n + CountSeq(ss))
    decreases ss, 0
  {
    hide StmtCode;
    if ss != [] {
      var c := StmtCode(env, n, brk, ret, ss[0]);
      var rest := SeqCode(After(env, ss[0]), n + Count(ss[0]), brk, EndsInRet(ret, c), ss[1..]);
      StmtLabels(env, n, brk, ret, ss[0]);
      SeqLabels(After(env, ss[0]), n + Count(ss[0]), brk, EndsInRet(ret, c), ss[1..]);
      MarksConcat(c, rest);
    }
  }

  // ----- programs -----

  /** No two functions share a name. */
  predicate Distinct(p: Src.Program) {
    forall i, j :: 0 <= i < j < |p| ==> p[i].name != p[j].name
  }

  predicate ByNames(ls: set<Label>, names: set<string>) {
    forall l :: l in ls ==> l.f in names
  }

  lemma FunLabels(d: Src.Fun)
    ensures UniqueLabels(FunCode(d)) && ByNames(Marks(FunCode(d)), {d.name})
  {
    hide Marks, StmtCode, UniqueLabels;
    var env := Env(d.name, d.scope, d.params, []);
    var body := StmtCode(env, 0, NoTarget, false, d.body);
    StmtLabels(env, 0, NoTarget, false, d.body);
    OneMark(FunctionL(d.name));
    MarksConcat([Mark(FunctionL(d.name))], body);
    var tail := if EndsInRet(false, body) then [] else [Ret];
    PlainNoMarks(tail);
    MarksConcat([Mark(FunctionL(d.name))] + body, tail);
  }

  lemma {:induction false} ProgramLabels(p: Src.Program)
    requires Distinct(p)
    ensures UniqueLabels(ProgramCode(p))
    ensures ByNames(Marks(ProgramCode(p)), set i | 0 <= i < |p| :: p[i].name)
  {
    hide FunCode;
    if p != [] {
      var rest := p[1..];
      assert Distinct(rest) by { forall i, j | 0 <= i < j < |rest| ensures rest[i].name != rest[j].name { assert p[i + 1].name != p[j + 1].name; } }
      FunLabels(p[0]);
      ProgramLabels(rest);
      var names := set i | 0 <= i < |rest| :: rest[i].name;
      assert forall i :: 0 <= i < |rest| ==> rest[i] == p[i + 1];
      MarksConcat(FunCode(p[0]), ProgramCode(rest));
      forall x | x in names + {p[0].name} ensures x in set i | 0 <= i < |p| :: p[i].name {
        if x == p[0].name { } else { var i :| 0 <= i < |rest| && rest[i].name == x; assert p[i + 1].name == x; }
      }
    }
  }

  /** Every function's code lies in the program's code. */
  lemma {:induction false} FunOccurs(p: Src.Program, f: string) returns (pos: nat)
    requires Src.FindFun(p, f).Some?
    ensures Occurs(ProgramCode(p), pos, FunCode(Src.FindFun(p, f).value))
  {
    hide FunCode;
    var first, rest := FunCode(p[0]), ProgramCode(p[1..]);
    if p[0].name == f {
      pos := 0;
      assert (first + rest)[..|first|] == first;
    } else {
      var k := FunOccurs(p[1..], f);
      var part := FunCode(Src.FindFun(p[1..], f).value);
      pos := |first| + k;
      assert (first + rest)[pos..pos + |part|] == rest[k..k + |part|];
    }
  }

  lemma ProgramLoaded(p: Src.Program)
    requires Distinct(p) && forall d :: d in p ==> WellFormed(d)
    ensures Loaded(ProgramCode(p), p)
  {
    ProgramLabels(p);
    var code := ProgramCode(p);
    forall f | Src.FindFun(p, f).Some? ensures LoadedFun(code, Src.FindFun(p, f).value) {
      var d := Src.FindFun(p, f).value;
      var pos := FunOccurs(p, f);
      EntryFound(code, pos, d);
    }
  }

  lemma EntryFound(code: Code, pos: nat, d: Src.Fun)
    requires UniqueLabels(code) && Occurs(code, pos, FunCode(d))
    ensures Find(code, FunctionL(d.name)) == Some(pos)
  {
    hide StmtCode, UniqueLabels;
    OccursAt(code, pos, FunCode(d), 0);
    FindUnique(code, FunctionL(d.name), pos);
  }

  /**
    The compiler preserves meaning. If, in the source semantics, calling f of program p with the
    given arguments ends, then the emitted code, entered at f's label with the arguments and a
    return address on the stack, comes back to that address with f's result in eax, the globals
    as f left them, esp just above the arguments, edi unchanged and everything below untouched.
    Labels are told apart here by kind, function and number; M2Text does it by their spelling.
   */
  lemma CompilerCorrect(p: Src.Program, fuel: nat, f: string, vs: seq<Src.Num>, g: Src.Globals,
                        s: State, below: seq<Value>, ra: nat, args: seq<Value>) returns (t: State, out: seq<Value>)
    requires Distinct(p) && forall d :: d in p ==> WellFormed(d)
    requires Src.CallFun(fuel, p, f, vs, g).Result?
    requires Find(ProgramCode(p), FunctionL(f)) == Some(s.pc)
    requires s.stack == below + args + [CodeAt(ra)] && s.ebp == StackAt(-4 * |below|)
    requires RefinesAll(vs, args) && RelGlobals(g, s.globals)
    ensures var r := Src.CallFun(fuel, p, f, vs, g);
      && Reaches(ProgramCode(p), s, t) && t.pc == ra && t.edi == s.edi
      && t.stack == below + out && |out| == |args| && RefinesCells(r.args, out)
      && RelGlobals(r.g, t.globals) && Refines(r.v, t.eax)
  {
    hide Src.CallFun, ProgramCode, Loaded;
    ProgramLoaded(p);
    t, out := CallFunCorrect(ProgramCode(p), p, fuel, f, vs, g, s, below, ra, args);
  }
}
