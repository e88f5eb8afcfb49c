/**
  What m2min/M2_tcc.c emits for each construct, as a function of the construct, the names
  in scope, the running label number and the innermost loop.
 */
module M2Codegen {
  import opened Options
  import opened M2Word
  import opened M2Machine
  import Src = M2Source

  const REGISTER_SIZE := 4

  /** Names visible while a function body is compiled; `locals` lists declarations oldest first. */
  datatype Env = Env(fname: string, scope: Src.Scope, args: seq<string>, locals: seq<string>)

  /** Target of `break`, and how many locals were live when the loop was entered. */
  datatype Target = NoTarget | Target(l: Label, frame: nat)

  function Locate(env: Env, x: string): (p: Src.Place)
    ensures p.Local? ==> p.i < |env.locals|
    ensures p.Arg? ==> p.i < |env.args|
  {
    Src.Locate(env.scope, env.args, env.locals, x)
  }

  function ArgDepth(i: nat): int { -REGISTER_SIZE - REGISTER_SIZE * i }

  /** Depth of the first local: below the arguments and the return address; in main, -20. */
  function FirstLocal(fname: string, nargs: nat): int {
    if fname == "main" then -20 else -REGISTER_SIZE * nargs - 2 * REGISTER_SIZE
  }

  function LocalDepth(env: Env, i: nat): int {
    FirstLocal(env.fname, |env.args|) - REGISTER_SIZE * i
  }

  /** Address of a name in eax; a constant's number, as for a value. */
  function AddressCode(env: Env, x: string): Code {
    match Locate(env, x)
    case Constant(n) => [MovEaxImm(n)]
    case Local(i) => [LeaEaxEbp(LocalDepth(env, i))]
    case Arg(i) => [LeaEaxEbp(ArgDepth(i))]
    case Global => [MovEaxGlobal(x)]
    case _ => []
  }

  function LoadCode(env: Env, x: string): Code {
    match Locate(env, x)
    case Constant(_) => AddressCode(env, x)
    case _ => AddressCode(env, x) + [LoadEax]
  }

  function OperatorCode(op: Src.BinOp): Code {
    match op
    case Add => [AddEaxEbx]
    case Sub => [SubEbxEax, MovEaxEbx]
    case Mul => [ImulEbx]
    case Div => [XchgEbxEax, Cdq, IdivEbx]
    case Mod => [XchgEbxEax, Cdq, IdivEbx, MovEaxEdx]
    case Shl => [MovEcxEax, MovEaxEbx, SalEaxCl]
    case Shr => [MovEcxEax, MovEaxEbx, SarEaxCl]
    case Lt => CompareCode(SetL)
    case Le => CompareCode(SetLe)
    case Ge => CompareCode(SetGe)
    case Gt => CompareCode(SetG)
    case Eq => CompareCode(SetE)
    case Ne => CompareCode(SetNe)
    case And => [LogicEaxEbx(LAnd)]
    case Or => [LogicEaxEbx(LOr)]
    case Xor => [LogicEaxEbx(LXor)]
  }

  /** The left operand a unary operator supplies; ~ pushes whatever eax holds. */
  function UnaryHead(op: Src.UnOp): Code {
    match op
    case Neg => [MovEaxImm(0)]
    case Not => [MovEaxImm(1)]
    case Compl => []
  }

  function UnaryCode(op: Src.UnOp): Code {
    match op
    case Neg => [SubEbxEax, MovEaxEbx]
    case Not => CompareCode(SetA)
    case Compl => [NotEax]
  }

  function CompareCode(c: Cond): Code { [CmpEbxEax, SetAl(c), MovzxEaxAl] }

  function Pops(n: nat): (c: Code)
    ensures |c| == n && forall i :: 0 <= i < n ==> c[i] == PopEbx
  {
    seq(n, _ => PopEbx)
  }

  const SAVE_FRAME: Code := [PushEdi, PushEbp, MovEdiEsp]
  const RESTORE_FRAME: Code := [PopEbp, PopEdi]

  function ExprCode(env: Env, e: Src.Expr): Code
    decreases e, 1
  {
    match e
    case Const(n) => [MovEaxImm(n)]
    case Paren(e1) => ExprCode(env, e1)
    case Var(x) => LoadCode(env, x)
    case LVal(x) => AddressCode(env, x)
    case Assign(t, v) => ExprCode(env, t) + [PushEax] + ExprCode(env, v) + [PopEbx, StoreEbx]
    case Un(op, e1) => UnaryHead(op) + [PushEax] + ExprCode(env, e1) + ([PopEbx] + UnaryCode(op))
    case Bin(op, l, r) => ExprCode(env, l) + [PushEax] + ExprCode(env, r) + ([PopEbx] + OperatorCode(op))
    case Call(f, args) =>
      SAVE_FRAME + ArgsCode(env, args) + ([MovEbpEdi, Instr.Call(f)] + Pops(|args|) + RESTORE_FRAME)
  }

  function ArgsCode(env: Env, es: seq<Src.Expr>): Code
    decreases es, 0
  {
    if es == [] then [] else ExprCode(env, es[0]) + [PushEax] + ArgsCode(env, es[1..])
  }

  function OptCode(env: Env, e: Option<Src.Expr>): Code {
    match e
    case None => []
    case Some(x) => ExprCode(env, x)
  }

  /** How many label numbers a statement consumes. */
  function Count(s: Src.Stmt): nat
    decreases s, 1
  {
    match s
    case Block(b) => CountSeq(b)
    case If(_, t, e) => 1 + Count(t) + (if e.Some? then Count(e.value) else 0)
    case While(_, b) => 1 + Count(b)
    case DoWhile(b, _) => 1 + Count(b)
    case For(_, _, _, b) => 1 + Count(b)
    case _ => 0
  }

  function CountSeq(ss: seq<Src.Stmt>): nat
    decreases ss, 0
  {
    if ss == [] then 0 else Count(ss[0]) + CountSeq(ss[1..])
  }

  /** Scope after a statement: only a declaration changes it. */
  function After(env: Env, s: Src.Stmt): Env {
    if s.Decl? then env.(locals := env.locals + [s.x]) else env
  }

  function AfterSeq(env: Env, ss: seq<Src.Stmt>): (r: Env)
    ensures r == env.(locals := r.locals) && |r.locals| >= |env.locals|
    ensures r.locals[..|env.locals|] == env.locals
    decreases ss
  {
    if ss == [] then env else AfterSeq(After(env, ss[0]), ss[1..])
  }

  /** Whether the code emitted so far ends in `ret`; `before` tells it of the code emitted earlier. */
  predicate EndsInRet(before: bool, code: Code) {
    if code == [] then before else code[|code| - 1] == Ret
  }

  function Lbl(env: Env, kind: LabelKind, n: nat): Label { LocalL(kind, env.fname, n) }

  /** Code of a statement. n is the next label number, brk the innermost loop and `ret`
      whether the last thing emitted was a `ret`. */
  function StmtCode(env: Env, n: nat, brk: Target, ret: bool, s: Src.Stmt): Code
    decreases s, 1
  {
    match s
    case ExprS(e) => ExprCode(env, e)
    case Block(body) => BlockCode(env, n, brk, ret, body)
    case Decl(x, init) => OptCode(env.(locals := env.locals + [x]), init) + [PushEax]
    case If(c, t, e) =>
      IfHead(env, n, c) + StmtCode(env, n + 1, brk, false, t) + IfMiddle(env, n)
      + (if e.Some? then StmtCode(env, n + 1 + Count(t), brk, false, e.value) else [])
      + IfEnd(env, n)
    case While(c, b) =>
      WhileHead(env, n, c) + StmtCode(env, n + 1, WhileTarget(env, n), false, b) + WhileTail(env, n)
    case DoWhile(b, c) =>
      DoHead(env, n) + StmtCode(env, n + 1, DoTarget(env, n), false, b) + DoTail(env, n, c)
    case For(start, c, i, b) =>
      OptCode(env, start) + ForHead(env, n, c, i) + StmtCode(env, n + 1, ForTarget(env, n), false, b) + ForTail(env, n)
    case Return(e) => OptCode(env, e) + Pops(|env.locals|) + [Ret]
    case Break =>
      if brk.NoTarget? then []
      else Pops(if |env.locals| >= brk.frame then |env.locals| - brk.frame else |env.locals|) + [Jmp(brk.l)]
  }

  /** A block drops the locals it declared, unless it has just returned. */
  function BlockCode(env: Env, n: nat, brk: Target, ret: bool, body: seq<Src.Stmt>): Code
    decreases body, 1
  {
    var c := SeqCode(env, n, brk, ret, body);
    if EndsInRet(ret, c) then c else c + Pops(|AfterSeq(env, body).locals| - |env.locals|)
  }

  function SeqCode(env: Env, n: nat, brk: Target, ret: bool, ss: seq<Src.Stmt>): Code
    decreases ss, 0
  {
    if ss == [] then []
    else
      var c := StmtCode(env, n, brk, ret, ss[0]);
      c + SeqCode(After(env, ss[0]), n + Count(ss[0]), brk, EndsInRet(ret, c), ss[1..])
  }

  function IfHead(env: Env, n: nat, c: Src.Expr): Code {
    ExprCode(env, c) + [TestEaxEax, Je(Lbl(env, ElseL, n))]
  }

  function IfMiddle(env: Env, n: nat): Code {
    [Jmp(Lbl(env, EndIfL, n)), Mark(Lbl(env, ElseL, n))]
  }

  function IfEnd(env: Env, n: nat): Code { [Mark(Lbl(env, EndIfL, n))] }

  function WhileTarget(env: Env, n: nat): Target { Target(Lbl(env, EndWhileL, n), |env.locals|) }

  function WhileHead(env: Env, n: nat, c: Src.Expr): Code {
    [Mark(Lbl(env, WhileL, n))] + ExprCode(env, c) + [TestEaxEax, Je(Lbl(env, EndWhileL, n))]
  }

  function WhileTail(env: Env, n: nat): Code {
    [Jmp(Lbl(env, WhileL, n)), Mark(Lbl(env, EndWhileL, n))]
  }

  function DoTarget(env: Env, n: nat): Target { Target(Lbl(env, DoEndL, n), |env.locals|) }

  function DoHead(env: Env, n: nat): Code { [Mark(Lbl(env, DoL, n))] }

  function DoTail(env: Env, n: nat, c: Src.Expr): Code {
    [Mark(Lbl(env, DoTestL, n))] + ExprCode(env, c)
    + [TestEaxEax, Jne(Lbl(env, DoL, n)), Mark(Lbl(env, DoEndL, n))]
  }

  function ForTarget(env: Env, n: nat): Target { Target(Lbl(env, ForEndL, n), |env.locals|) }

  function ForHead(env: Env, n: nat, c: Src.Expr, i: Src.Expr): Code {
    [Mark(Lbl(env, ForL, n))] + ExprCode(env, c)
    + [TestEaxEax, Je(Lbl(env, ForEndL, n)), Jmp(Lbl(env, ForThenL, n)), Mark(Lbl(env, ForIterL, n))]
    + ExprCode(env, i) + [Jmp(Lbl(env, ForL, n)), Mark(Lbl(env, ForThenL, n))]
  }

  function ForTail(env: Env, n: nat): Code {
    [Jmp(Lbl(env, ForIterL, n)), Mark(Lbl(env, ForEndL, n))]
  }

  /** A function: its label, its body and a final `ret` unless one was just emitted. */
  function FunCode(d: Src.Fun): Code {
    var head := [Mark(FunctionL(d.name))];
    var body := StmtCode(Env(d.name, d.scope, d.params, []), 0, NoTarget, false, d.body);
    head + body + (if EndsInRet(false, body) then [] else [Ret])
  }

  function ProgramCode(p: Src.Program): Code {
    if p == [] then [] else FunCode(p[0]) + ProgramCode(p[1..])
  }
}
