/**
  The int fragment of the language accepted by m2min/M2_tcc.c: syntax, static scopes and
  a reference semantics that knows nothing about stacks or registers.

  Operators associate to the left on three flat levels (arithmetic and shifts, relational,
  bitwise) and `&&`, `||` are the bitwise operators. A variable that has no value yet, and the result of a
  function that returned none, are indeterminate: they may be passed on but not computed with.
 */
module M2Source {
  import opened Options
  import opened M2Word

  datatype BinOp = Add | Sub | Mul | Div | Mod | Shl | Shr
    | Lt | Le | Ge | Gt | Eq | Ne | And | Or | Xor

  datatype UnOp = Neg | Not | Compl

  /** LVal is an identifier directly followed by '=': the compiler then leaves its address. */
  datatype Expr =
    | Const(n: Word)
    | Paren(inner: Expr)
    | Var(x: string)
    | LVal(x: string)
    | Assign(target: Expr, value: Expr)
    | Un(uop: UnOp, e: Expr)
    | Bin(op: BinOp, left: Expr, right: Expr)
    | Call(f: string, args: seq<Expr>)

  datatype Stmt =
    | ExprS(e: Expr)
    | Block(body: seq<Stmt>)
    | Decl(x: string, init: Option<Expr>)
    | If(cond: Expr, thn: Stmt, els: Option<Stmt>)
    | While(cond: Expr, loop: Stmt)
    | DoWhile(loop: Stmt, cond: Expr)
    | For(start: Option<Expr>, cond: Expr, iter: Expr, loop: Stmt)
    | Return(result: Option<Expr>)
    | Break

  /** The names visible when a function was compiled. */
  datatype Scope = Scope(consts: map<string, Word>, funs: set<string>, globs: set<string>)

  datatype Fun = Fun(name: string, params: seq<string>, body: Stmt, scope: Scope)

  type Program = seq<Fun>

  /** A word, or indeterminate. */
  type Num = Option<Word>

  datatype Cell = Cell(name: string, val: Num)

  /** A running activation. `pending` is the variable whose initialiser is being evaluated. */
  datatype Frame = Frame(scope: Scope, args: seq<Cell>, locals: seq<Cell>, pending: Option<string>)

  type Globals = map<string, Num>

  function Names(cells: seq<Cell>): (ns: seq<string>)
    ensures |ns| == |cells|
    ensures forall i :: 0 <= i < |cells| ==> ns[i] == cells[i].name
  {
    seq(|cells|, i requires 0 <= i < |cells| => cells[i].name)
  }

  /** Innermost declaration of a name: the last one in the list. */
  function LastIndex(names: seq<string>, x: string): (r: Option<nat>)
    ensures r.Some? ==> r.value < |names| && names[r.value] == x
    ensures r.Some? ==> forall j :: r.value < j < |names| ==> names[j] != x
    ensures r.None? ==> x !in names
  {
    if names == [] then None
    else if names[|names| - 1] == x then Some(|names| - 1)
    else LastIndex(names[..|names| - 1], x)
  }

  /** Where a name lives; the order is that of primary_expr_variable. */
  datatype Place = Constant(n: Word) | Local(i: nat) | Arg(i: nat) | FunctionName | Global | Unknown

  function Locate(sc: Scope, args: seq<string>, locals: seq<string>, x: string): (p: Place)
    ensures p.Local? ==> p.i < |locals|
    ensures p.Arg? ==> p.i < |args|
  {
    if x in sc.consts then Constant(sc.consts[x])
    else
      match LastIndex(locals, x)
      case Some(i) => Local(i)
      case None =>
        match LastIndex(args, x)
        case Some(i) => Arg(i)
        case None =>
          if x in sc.funs then FunctionName else if x in sc.globs then Global else Unknown
  }

  function LocalNames(fr: Frame): seq<string> {
    Names(fr.locals) + (if fr.pending.Some? then [fr.pending.value] else [])
  }

  function PlaceOf(fr: Frame, x: string): (p: Place)
    ensures p.Arg? ==> p.i < |fr.args|
  {
    Locate(fr.scope, Names(fr.args), LocalNames(fr), x)
  }

  /** The value of an operator; None where the machine would trap on a division. */
  function Apply(op: BinOp, a: Word, b: Word): Option<Word> {
    match op
    case Add => Some(Wrap(a + b))
    case Sub => Some(Wrap(a - b))
    case Mul => Some(Wrap(a * b))
    case Div => if b == 0 || (a == -0x8000_0000 && b == -1) then None else Some(Wrap(TruncDiv(a, b)))
    case Mod => if b == 0 || (a == -0x8000_0000 && b == -1) then None else Some(Wrap(TruncMod(a, b)))
    case Shl => Some(Wrap(a * Pow2(Unsigned(b) % 32)))
    case Shr => Some(Wrap(a / Pow2(Unsigned(b) % 32)))
    case Lt => Some(Truth(a < b))
    case Le => Some(Truth(a <= b))
    case Ge => Some(Truth(a >= b))
    case Gt => Some(Truth(a > b))
    case Eq => Some(Truth(a == b))
    case Ne => Some(Truth(a != b))
    case And => Some(Bitwise(LAnd, a, b))
    case Or => Some(Bitwise(LOr, a, b))
    case Xor => Some(Bitwise(LXor, a, b))
  }

  function Unary(op: UnOp, v: Word): Word {
    match op
    case Neg => Wrap(0 - v)
    case Not => Truth(v == 0)
    case Compl => Complement(v)
  }

  function Truth(b: bool): Word { if b then 1 else 0 }

  /** Outcome of an expression: its value, the changed frame and globals; no claim is made
      about runs that fault (a trap, an uninitialised or address-valued operand) or exceed the fuel. */
  datatype Eval = Value(v: Num, fr: Frame, g: Globals) | NoValue

  datatype EvalSeq = Values(vs: seq<Num>, fr: Frame, g: Globals) | NoValues

  datatype Exit = Normal | Broke | Returned

  /** `v` is the value just returned. */
  datatype Outcome = Done(exit: Exit, fr: Frame, g: Globals, v: Num) | NoOutcome

  datatype CallResult = Result(v: Num, g: Globals, args: seq<Cell>) | NoResult

  function FindFun(p: Program, f: string): (r: Option<Fun>)
    ensures r.Some? ==> r.value in p && r.value.name == f
  {
    if p == [] then None else if p[0].name == f then Some(p[0]) else FindFun(p[1..], f)
  }

  function Bind(params: seq<string>, vs: seq<Num>): (cells: seq<Cell>)
    requires |params| == |vs|
    ensures |cells| == |vs| && Names(cells) == params
    ensures forall i :: 0 <= i < |vs| ==> cells[i].val == vs[i]
  {
    seq(|vs|, i requires 0 <= i < |vs| => Cell(params[i], vs[i]))
  }

  function Read(fr: Frame, g: Globals, x: string): Option<Num> {
    match PlaceOf(fr, x)
    case Constant(n) => Some(Some(n))
    case Local(i) => if i < |fr.locals| then Some(fr.locals[i].val) else None
    case Arg(i) => Some(fr.args[i].val)
    case Global => if x in g then Some(g[x]) else None
    case _ => None
  }

  /** Evaluation changes values, never which names a frame holds. */
  predicate SameShape(a: Frame, b: Frame) {
    a.scope == b.scope && a.pending == b.pending && Names(a.args) == Names(b.args) && Names(a.locals) == Names(b.locals)
  }

  /** Stores v in variable x, or None when x is not a variable that holds a value. */
  function Write(fr: Frame, g: Globals, x: string, v: Num): (r: Option<(Frame, Globals)>)
    ensures r.Some? ==> SameShape(fr, r.value.0)
  {
    match PlaceOf(fr, x)
    case Local(i) =>
      if i < |fr.locals| then Some((fr.(locals := fr.locals[i := fr.locals[i].(val := v)]), g)) else None
    case Arg(i) => Some((fr.(args := fr.args[i := fr.args[i].(val := v)]), g))
    case Global => if x in g then Some((fr, g[x := v])) else None
    case _ => None
  }

  /** A statement may only add locals to the frame it starts from. */
  predicate Extends(a: Frame, b: Frame) {
    a.scope == b.scope && a.pending == b.pending && Names(a.args) == Names(b.args) && Names(a.locals) <= Names(b.locals)
  }

  /** Declarations stand directly in braces: no branch, loop body or function body is one. */
  predicate Braced(s: Stmt) {
    match s
    case Block(b) => forall i :: 0 <= i < |b| ==> Braced(b[i])
    case If(_, t, e) => !t.Decl? && Braced(t) && (e.Some? ==> !e.value.Decl? && Braced(e.value))
    case While(_, b) => !b.Decl? && Braced(b)
    case DoWhile(b, _) => !b.Decl? && Braced(b)
    case For(_, _, _, b) => !b.Decl? && Braced(b)
    case _ => true
  }

  /** The names a statement leaves in scope. */
  function Declared(s: Stmt): seq<string> { if s.Decl? then [s.x] else [] }

  function EvalExpr(fuel: nat, p: Program, fr: Frame, g: Globals, e: Expr): (r: Eval)
    ensures r.Value? ==> SameShape(fr, r.fr)
    decreases fuel, e, 1
  {
    hide Apply, Read, Write;
    match e
    case Const(n) => Value(Some(n), fr, g)
    case Paren(e1) => EvalExpr(fuel, p, fr, g, e1)
    case Var(x) =>
      (match Read(fr, g, x)
       case None => NoValue
       case Some(v) => Value(v, fr, g))
    case LVal(_) => NoValue
    case Assign(target, value) =>
      if !target.LVal? then NoValue else
      (match EvalExpr(fuel, p, fr, g, value)
       case NoValue => NoValue
       case Value(v, fr1, g1) =>
         match Write(fr1, g1, target.x, v)
         case None => NoValue
         case Some((fr2, g2)) => Value(v, fr2, g2))
    case Un(op, e1) =>
      (match EvalExpr(fuel, p, fr, g, e1)
       case NoValue => NoValue
       case Value(v, fr1, g1) => if v.None? then NoValue else Value(Some(Unary(op, v.value)), fr1, g1))
    case Bin(op, l, r) =>
      (match EvalExpr(fuel, p, fr, g, l)
       case NoValue => NoValue
       case Value(a, fr1, g1) =>
         match EvalExpr(fuel, p, fr1, g1, r)
         case NoValue => NoValue
         case Value(b, fr2, g2) =>
           if a.None? || b.None? || Apply(op, a.value, b.value).None? then NoValue
           else Value(Apply(op, a.value, b.value), fr2, g2))
    case Call(f, args) =>
      match EvalArgs(fuel, p, fr, g, args)
      case NoValues => NoValue
      case Values(vs, fr1, g1) =>
        if fuel == 0 then NoValue else
        match CallFun(fuel - 1, p, f, vs, g1)
        case NoResult => NoValue
        case Result(v, g2, _) => Value(v, fr1, g2)
  }

  function EvalArgs(fuel: nat, p: Program, fr: Frame, g: Globals, es: seq<Expr>): (r: EvalSeq)
    ensures r.Values? ==> |r.vs| == |es| && SameShape(fr, r.fr)
    decreases fuel, es, 0
  {
    if es == [] then Values([], fr, g)
    else
      match EvalExpr(fuel, p, fr, g, es[0])
      case NoValue => NoValues
      case Value(v, fr1, g1) =>
        match EvalArgs(fuel, p, fr1, g1, es[1..])
        case NoValues => NoValues
        case Values(vs, fr2, g2) => Values([v] + vs, fr2, g2)
  }

  /** A call of f: by name, with as many arguments as parameters. `main` is started by the
      runtime with a frame of its own and is not called here. */
  function CallFun(fuel: nat, p: Program, f: string, vs: seq<Num>, g: Globals): (r: CallResult)
    ensures r.Result? ==> |r.args| == |vs|
    decreases fuel, p, 2
  {
    match FindFun(p, f)
    case None => NoResult
    case Some(d) =>
      if |d.params| != |vs| || f == "main" || fuel == 0 then NoResult else
      match ExecStmt(fuel - 1, p, Frame(d.scope, Bind(d.params, vs), [], None), g, d.body)
      case NoOutcome => NoResult
      case Done(exit, fr1, g1, v) =>
        if exit.Broke? then NoResult else Result(if exit.Returned? then v else None, g1, fr1.args)
  }

  function ExecStmt(fuel: nat, p: Program, fr: Frame, g: Globals, s: Stmt): (r: Outcome)
    requires fr.pending.None?
    ensures r.Done? ==> Extends(fr, r.fr)
    ensures r.Done? && Braced(s) ==> Names(r.fr.locals) == Names(fr.locals) + Declared(s)
    decreases fuel, s, 1
  {
    match s
    case ExprS(e) => ExecExpr(fuel, p, fr, g, e)
    case Block(body) =>
      (match ExecSeq(fuel, p, fr, g, body)
       case NoOutcome => NoOutcome
       case Done(exit, fr1, g1, v) => Done(exit, fr1.(locals := fr1.locals[..|fr.locals|]), g1, v))
    case Decl(x, init) =>
      (match ExecOpt(fuel, p, fr.(pending := Some(x)), g, init)
       case NoOutcome => NoOutcome
       case Done(_, fr1, g1, v) =>
         Done(Normal, fr1.(locals := fr1.locals + [Cell(x, v)], pending := None), g1, None))
    case If(c, t, e) =>
      (match ExecExpr(fuel, p, fr, g, c)
       case NoOutcome => NoOutcome
       case Done(_, fr1, g1, v) =>
         if v.None? then NoOutcome
         else if v.value != 0 then ExecStmt(fuel, p, fr1, g1, t)
         else if e.Some? then ExecStmt(fuel, p, fr1, g1, e.value)
         else Done(Normal, fr1, g1, None))
    case While(_, _) => ExecWhile(fuel, p, fr, g, s)
    case DoWhile(_, _) => ExecDo(fuel, p, fr, g, s)
    case For(start, _, _, _) =>
      (match ExecOpt(fuel, p, fr, g, start)
       case NoOutcome => NoOutcome
       case Done(_, fr1, g1, _) => ExecFor(fuel, p, fr1, g1, s))
    case Return(e) =>
      (match ExecOpt(fuel, p, fr, g, e)
       case NoOutcome => NoOutcome
       case Done(_, fr1, g1, v) => Done(Returned, fr1, g1, v))
    case Break => Done(Broke, fr, g, None)
  }

  function ExecExpr(fuel: nat, p: Program, fr: Frame, g: Globals, e: Expr): (r: Outcome)
    ensures r.Done? ==> r.exit.Normal? && SameShape(fr, r.fr)
    decreases fuel, e, 2
  {
    match EvalExpr(fuel, p, fr, g, e)
    case NoValue => NoOutcome
    case Value(v, fr1, g1) => Done(Normal, fr1, g1, v)
  }

  function ExecOpt(fuel: nat, p: Program, fr: Frame, g: Globals, e: Option<Expr>): (r: Outcome)
    ensures r.Done? ==> r.exit.Normal? && SameShape(fr, r.fr)
    decreases fuel, e, 3
  {
    if e.None? then Done(Normal, fr, g, None) else ExecExpr(fuel, p, fr, g, e.value)
  }

  function ExecWhile(fuel: nat, p: Program, fr: Frame, g: Globals, s: Stmt): (r: Outcome)
    requires s.While? && fr.pending.None?
    ensures r.Done? ==> Extends(fr, r.fr)
    ensures r.Done? && Braced(s) ==> Names(r.fr.locals) == Names(fr.locals)
    decreases fuel, s, 0
  {
    match ExecExpr(fuel, p, fr, g, s.cond)
    case NoOutcome => NoOutcome
    case Done(_, fr1, g1, v) =>
      if v.None? then NoOutcome
      else if v.value == 0 then Done(Normal, fr1, g1, None) else
      match ExecStmt(fuel, p, fr1, g1, s.loop)
      case NoOutcome => NoOutcome
      case Done(exit, fr2, g2, w) =>
        if exit.Broke? then Done(Normal, fr2, g2, None)
        else if exit.Returned? then Done(exit, fr2, g2, w)
        else if fuel == 0 then NoOutcome
        else ExecWhile(fuel - 1, p, fr2, g2, s)
  }

  function ExecDo(fuel: nat, p: Program, fr: Frame, g: Globals, s: Stmt): (r: Outcome)
    requires s.DoWhile? && fr.pending.None?
    ensures r.Done? ==> Extends(fr, r.fr)
    ensures r.Done? && Braced(s) ==> Names(r.fr.locals) == Names(fr.locals)
    decreases fuel, s, 0
  {
    match ExecStmt(fuel, p, fr, g, s.loop)
    case NoOutcome => NoOutcome
    case Done(exit, fr1, g1, w) =>
      if exit.Broke? then Done(Normal, fr1, g1, None)
      else if exit.Returned? then Done(exit, fr1, g1, w)
      else
        match ExecExpr(fuel, p, fr1, g1, s.cond)
        case NoOutcome => NoOutcome
        case Done(_, fr2, g2, v) =>
          if v.None? then NoOutcome
          else if v.value == 0 then Done(Normal, fr2, g2, None)
          else if fuel == 0 then NoOutcome
          else ExecDo(fuel - 1, p, fr2, g2, s)
  }

  /** The rounds of a for loop: test, body, step. */
  function ExecFor(fuel: nat, p: Program, fr: Frame, g: Globals, s: Stmt): (r: Outcome)
    requires s.For? && fr.pending.None?
    ensures r.Done? ==> Extends(fr, r.fr)
    ensures r.Done? && Braced(s) ==> Names(r.fr.locals) == Names(fr.locals)
    decreases fuel, s, 0
  {
    match ExecExpr(fuel, p, fr, g, s.cond)
    case NoOutcome => NoOutcome
    case Done(_, fr1, g1, v) =>
      if v.None? then NoOutcome
      else if v.value == 0 then Done(Normal, fr1, g1, None) else
      match ExecStmt(fuel, p, fr1, g1, s.loop)
      case NoOutcome => NoOutcome
      case Done(exit, fr2, g2, w) =>
        if exit.Broke? then Done(Normal, fr2, g2, None)
        else if exit.Returned? then Done(exit, fr2, g2, w)
        else
          match ExecExpr(fuel, p, fr2, g2, s.iter)
          case NoOutcome => NoOutcome
          case Done(_, fr3, g3, _) => if fuel == 0 then NoOutcome else ExecFor(fuel - 1, p, fr3, g3, s)
  }

  function ExecSeq(fuel: nat, p: Program, fr: Frame, g: Globals, ss: seq<Stmt>): (r: Outcome)
    requires fr.pending.None?
    ensures r.Done? ==> Extends(fr, r.fr)
    decreases fuel, ss, 0
  {
    if ss == [] then Done(Normal, fr, g, None)
    else
      match ExecStmt(fuel, p, fr, g, ss[0])
      case NoOutcome => NoOutcome
      case Done(exit, fr1, g1, v) =>
        if exit.Normal? then ExecSeq(fuel, p, fr1, g1, ss[1..]) else Done(exit, fr1, g1, v)
  }
}
