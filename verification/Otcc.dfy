/**
  Control flow in otccelf/otccelfn.c: one pass emits machine code for statements and for
  `&&` and `||`, and jumps whose target is still unknown are linked through their own
  operands until `gsym` patches them.

  All other expression code is straight-line: an atom of some length that transforms the
  accumulator and the store, in any way.
 */
module OtccCode {
  import opened Options

  type Positive = x: nat | x > 0 witness 1

  /** Everything between jumps; `length` is the number of bytes of its code. */
  datatype Atom = Atom(id: nat, length: Positive)

  /** Logic(0, es) is e1 && e2 ..., Logic(1, es) is e1 || e2 ...; Then runs two pieces in turn. */
  datatype Expr = Plain(a: Atom) | Then(first: Expr, second: Expr) | Logic(t: nat, operands: seq<Expr>)

  datatype Stmt =
    | Eval(e: Expr)
    | Empty
    | If(cond: Expr, yes: Stmt, no: Option<Stmt>)
    | While(cond: Expr, body: Stmt)
    | For(init: Option<Expr>, test: Option<Expr>, step: Option<Expr>, body: Stmt)
    | Break
    | Return(value: Option<Expr>)
    | Block(stmts: seq<Stmt>)

  /** An instruction without its jump operand, which is a word of its own in memory. */
  datatype Op = AtomOp(a: Atom) | LoadOp(n: int) | TestOp(t: nat) | JumpOp

  function Size(op: Op): nat {
    match op
    case AtomOp(a) => a.length
    case LoadOp(_) => 5
    case TestOp(_) => 8    // test, two-byte jcc, operand
    case JumpOp => 5
  }

  /** Instructions and jump operands by address; `landed` are the operands that hold a displacement. */
  datatype Memory = Memory(ops: map<nat, Op>, words: map<nat, int>, ghost landed: set<nat>)

  // ----- what the source means -----

  datatype Machine<!S> = Machine(acc: int, store: S)

  type Meaning<!S> = (Atom, int, S) -> (int, S)

  function EvalExpr<S>(sem: Meaning<S>, e: Expr, m: Machine<S>): Machine<S>
    decreases e
  {
    match e
    case Plain(a) => var r := sem(a, m.acc, m.store); Machine(r.0, r.1)
    case Then(x, y) => EvalExpr(sem, y, EvalExpr(sem, x, m))
    case Logic(t, es) => if |es| == 1 then EvalExpr(sem, es[0], m) else EvalLogic(sem, t, es, m)
  }

  predicate Decides(t: nat, v: int) { (v == 0) == (t == 0) }

  /** Stops at the first operand that decides; leaves 0 or 1. */
  function EvalLogic<S>(sem: Meaning<S>, t: nat, es: seq<Expr>, m: Machine<S>): Machine<S>
    decreases es
  {
    if es == [] then m.(acc := 1 - t)
    else
      var r := EvalExpr(sem, es[0], m);
      if Decides(t, r.acc) then r.(acc := t) else EvalLogic(sem, t, es[1..], r)
  }

  datatype Exit = Through | Broke | Returned

  datatype Outcome<!S> = Outcome(exit: Exit, m: Machine<S>) | Timeout

  function Optional<S>(sem: Meaning<S>, e: Option<Expr>, m: Machine<S>): Machine<S> {
    if e.None? then m else EvalExpr(sem, e.value, m)
  }

  /** Statements as C runs them; `fuel` bounds the loop iterations and Timeout says that it was too little. */
  function Run<S>(sem: Meaning<S>, fuel: nat, s: Stmt, m: Machine<S>): Outcome<S>
    decreases fuel, s, 0
  {
    match s
    case Eval(e) => Outcome(Through, EvalExpr(sem, e, m))
    case Empty => Outcome(Through, m)
    case If(c, yes, no) =>
      var r := EvalExpr(sem, c, m);
      if r.acc != 0 then Run(sem, fuel, yes, r)
      else if no.Some? then Run(sem, fuel, no.value, r) else Outcome(Through, r)
    case While(c, body) =>
      if fuel == 0 then Timeout
      else
        var r := EvalExpr(sem, c, m);
        if r.acc == 0 then Outcome(Through, r)
        else
          var o := Run(sem, fuel, body, r);
          if o.Timeout? then o
          else if o.exit.Broke? then Outcome(Through, o.m)
          else if o.exit.Returned? then o
          else Run(sem, fuel - 1, s, o.m)
    case For(init, test, step, body) => RunFor(sem, fuel, test, step, body, Optional(sem, init, m))
    case Break => Outcome(Broke, m)
    case Return(e) => Outcome(Returned, Optional(sem, e, m))
    case Block(ss) => RunAll(sem, fuel, ss, m)
  }

  function RunFor<S>(sem: Meaning<S>, fuel: nat, test: Option<Expr>, step: Option<Expr>, body: Stmt, m: Machine<S>): Outcome<S>
    decreases fuel, body, 1
  {
    if fuel == 0 then Timeout
    else
      var r := Optional(sem, test, m);
      if test.Some? && r.acc == 0 then Outcome(Through, r)
      else
        var o := Run(sem, fuel, body, r);
        if o.Timeout? then o
        else if o.exit.Broke? then Outcome(Through, o.m)
        else if o.exit.Returned? then o
        else RunFor(sem, fuel - 1, test, step, body, Optional(sem, step, o.m))
  }

  function RunAll<S>(sem: Meaning<S>, fuel: nat, ss: seq<Stmt>, m: Machine<S>): Outcome<S>
    decreases fuel, ss
  {
    if ss == [] then Outcome(Through, m)
    else
      var o := Run(sem, fuel, ss[0], m);
      if o.Timeout? || !o.exit.Through? then o else RunAll(sem, fuel, ss[1..], o.m)
  }

  // ----- what the machine does -----

  datatype Cpu<!S> = Cpu(pc: nat, m: Machine<S>)

  function Step<S>(mem: Memory, sem: Meaning<S>, c: Cpu<S>): Option<Cpu<S>> {
    if c.pc !in mem.ops then None
    else
      match mem.ops[c.pc]
      case AtomOp(a) => var r := sem(a, c.m.acc, c.m.store); Some(Cpu(c.pc + a.length, Machine(r.0, r.1)))
      case LoadOp(n) => Some(Cpu(c.pc + 5, c.m.(acc := n)))
      case TestOp(t) => if Decides(t, c.m.acc) then Jump(mem, c, c.pc + 4) else Some(c.(pc := c.pc + 8))
      case JumpOp => Jump(mem, c, c.pc + 1)
  }

  /** Displacements count from the end of the operand. */
  function Jump<S>(mem: Memory, c: Cpu<S>, hole: nat): Option<Cpu<S>> {
    if hole in mem.words && hole + 4 + mem.words[hole] >= 0 then Some(c.(pc := hole + 4 + mem.words[hole])) else None
  }

  ghost predicate Reaches<S(!new)>(mem: Memory, sem: Meaning<S>, a: Cpu<S>, b: Cpu<S>) {
    exists n: nat :: Steps(mem, sem, a, n) == Some(b)
  }

  function Steps<S>(mem: Memory, sem: Meaning<S>, a: Cpu<S>, n: nat): Option<Cpu<S>>
    decreases n
  {
    if n == 0 then Some(a)
    else
      var b := Step(mem, sem, a);
      if b.None? then None else Steps(mem, sem, b.value, n - 1)
  }

  lemma {:induction false} StepsTrans<S>(mem: Memory, sem: Meaning<S>, a: Cpu<S>, n: nat, b: Cpu<S>, k: nat)
    requires Steps(mem, sem, a, n) == Some(b)
    ensures Steps(mem, sem, a, n + k) == Steps(mem, sem, b, k)
    decreases n
  {
    if n > 0 { StepsTrans(mem, sem, Step(mem, sem, a).value, n - 1, b, k); }
  }

  lemma ReachesTrans<S(!new)>(mem: Memory, sem: Meaning<S>, a: Cpu<S>, b: Cpu<S>, c: Cpu<S>)
    requires Reaches(mem, sem, a, b) && Reaches(mem, sem, b, c)
    ensures Reaches(mem, sem, a, c)
  {
    var n: nat :| Steps(mem, sem, a, n) == Some(b);
    var k: nat :| Steps(mem, sem, b, k) == Some(c);
    StepsTrans(mem, sem, a, n, b, k);
  }

  lemma ReachesStep<S(!new)>(mem: Memory, sem: Meaning<S>, a: Cpu<S>, b: Cpu<S>)
    requires Step(mem, sem, a) == Some(b)
    ensures Reaches(mem, sem, a, b)
  {
    assert Steps(mem, sem, b, 0) == Some(b);
    assert Steps(mem, sem, a, 1) == Some(b);
  }

  lemma ReachesSelf<S(!new)>(mem: Memory, sem: Meaning<S>, a: Cpu<S>)
    ensures Reaches(mem, sem, a, a)
  {
    assert Steps(mem, sem, a, 0) == Some(a);
  }

  // ----- which code stands for which source -----

  /** Where jumps go: a fixed address, or nowhere yet, with their operands in a list. */
  datatype Dest = At(address: nat) | Open(ghost holes: set<nat>)

  ghost predicate Goes(mem: Memory, hole: nat, d: Dest) {
    match d
    case At(x) => hole in mem.landed && hole in mem.words && mem.words[hole] == x - hole - 4
    case Open(holes) => hole in holes
  }

  predicate Holds(mem: Memory, at: nat, op: Op) { at in mem.ops && mem.ops[at] == op }

  function ExprSize(e: Expr): (n: nat)
    decreases e
  {
    match e
    case Plain(a) => a.length
    case Then(x, y) => ExprSize(x) + ExprSize(y)
    case Logic(t, es) => if |es| == 1 then ExprSize(es[0]) else OperandsSize(es) + 15
  }

  function OperandsSize(es: seq<Expr>): nat
    decreases es
  {
    if es == [] then 0 else ExprSize(es[0]) + 8 + OperandsSize(es[1..])
  }

  /** The code of an expression: a chain ends with two loads, the first of them jumped over. */
  ghost predicate IsExpr(mem: Memory, e: Expr, at: nat)
    decreases e
  {
    match e
    case Plain(a) => Holds(mem, at, AtomOp(a))
    case Then(x, y) => IsExpr(mem, x, at) && IsExpr(mem, y, at + ExprSize(x))
    case Logic(t, es) =>
      if |es| == 1 then IsExpr(mem, es[0], at)
      else
        var end := at + OperandsSize(es);
        && IsOperands(mem, t, es, at, At(end + 10))
        && Holds(mem, end, LoadOp(1 - t))
        && Holds(mem, end + 5, JumpOp) && Goes(mem, end + 6, At(end + 15))
        && Holds(mem, end + 10, LoadOp(t))
  }

  ghost predicate IsOperands(mem: Memory, t: nat, es: seq<Expr>, at: nat, exit: Dest)
    decreases es
  {
    es != [] ==>
      var next := at + ExprSize(es[0]);
      && IsExpr(mem, es[0], at)
      && Holds(mem, next, TestOp(t)) && Goes(mem, next + 4, exit)
      && IsOperands(mem, t, es[1..], next + 8, exit)
  }

  function OptionalSize(e: Option<Expr>): nat { if e.None? then 0 else ExprSize(e.value) }

  /** An expression and a jump if it is zero. */
  function TestSize(e: Option<Expr>): nat { if e.None? then 0 else ExprSize(e.value) + 8 }

  function StmtSize(s: Stmt): nat
    decreases s
  {
    match s
    case Eval(e) => ExprSize(e)
    case Empty => 0
    case If(c, yes, no) => ExprSize(c) + 8 + StmtSize(yes) + if no.Some? then 5 + StmtSize(no.value) else 0
    case While(c, body) => ExprSize(c) + 8 + StmtSize(body) + 5
    case For(init, test, step, body) =>
      OptionalSize(init) + TestSize(test) + (if step.Some? then 10 + ExprSize(step.value) else 0) + StmtSize(body) + 5
    case Break => 5
    case Return(e) => OptionalSize(e) + 5
    case Block(ss) => AllSize(ss)
  }

  function AllSize(ss: seq<Stmt>): nat
    decreases ss
  {
    if ss == [] then 0 else StmtSize(ss[0]) + AllSize(ss[1..])
  }

  ghost predicate IsOptional(mem: Memory, e: Option<Expr>, at: nat) { e.Some? ==> IsExpr(mem, e.value, at) }

  ghost predicate IsTest(mem: Memory, e: Option<Expr>, at: nat, exit: Dest) {
    e.Some? ==>
      var next := at + ExprSize(e.value);
      IsExpr(mem, e.value, at) && Holds(mem, next, TestOp(0)) && Goes(mem, next + 4, exit)
  }

  ghost predicate IsJump(mem: Memory, at: nat, d: Dest) { Holds(mem, at, JumpOp) && Goes(mem, at + 1, d) }

  /** The code of a statement whose breaks go to brk and whose returns go to ret. */
  ghost predicate IsCode(mem: Memory, s: Stmt, at: nat, brk: Dest, ret: Dest)
    decreases s
  {
    match s
    case Eval(e) => IsExpr(mem, e, at)
    case Empty => true
    case If(c, yes, no) =>
      var body := at + ExprSize(c) + 8;
      var skip := body + StmtSize(yes) + if no.Some? then 5 else 0;
      && IsTest(mem, Some(c), at, At(skip))
      && IsCode(mem, yes, body, brk, ret)
      && (no.Some? ==> IsJump(mem, skip - 5, At(skip + StmtSize(no.value))) && IsCode(mem, no.value, skip, brk, ret))
    case While(c, body) =>
      var end := at + StmtSize(s);
      && IsTest(mem, Some(c), at, At(end))
      && IsCode(mem, body, at + ExprSize(c) + 8, At(end), ret)
      && IsJump(mem, end - 5, At(at))
    case For(init, test, step, body) =>
      var top := at + OptionalSize(init);
      var mid := top + TestSize(test);
      var start := mid + if step.Some? then 10 + ExprSize(step.value) else 0;
      var end := at + StmtSize(s);
      && IsOptional(mem, init, at) && IsTest(mem, test, top, At(end))
      && (step.Some? ==> IsJump(mem, mid, At(start)) && IsExpr(mem, step.value, mid + 5) && IsJump(mem, start - 5, At(top)))
      && IsCode(mem, body, start, At(end), ret)
      && IsJump(mem, end - 5, At(if step.Some? then mid + 5 else top))
    case Break => IsJump(mem, at, brk)
    case Return(e) => IsOptional(mem, e, at) && IsJump(mem, at + OptionalSize(e), ret)
    case Block(ss) => IsAll(mem, ss, at, brk, ret)
  }

  ghost predicate IsAll(mem: Memory, ss: seq<Stmt>, at: nat, brk: Dest, ret: Dest)
    decreases ss
  {
    ss != [] ==> IsCode(mem, ss[0], at, brk, ret) && IsAll(mem, ss[1..], at + StmtSize(ss[0]), brk, ret)
  }

  // ----- code survives what comes later -----

  /** Later memory: more instructions, and every displacement that was final is as before. */
  ghost predicate Grows(a: Memory, b: Memory) {
    && (forall x :: x in a.ops ==> x in b.ops && b.ops[x] == a.ops[x])
    && (forall h :: h in a.landed ==> h in b.landed)
    && (forall h :: h in a.landed && h in a.words ==> h in b.words && b.words[h] == a.words[h])
  }

  /** A destination becomes more definite: a list grows, or it is patched. */
  ghost predicate Becomes(b: Memory, d: Dest, e: Dest) {
    match d
    case At(x) => e == At(x)
    case Open(holes) =>
      match e
      case At(x) => forall h :: h in holes ==> Goes(b, h, e)
      case Open(more) => holes <= more
  }

  lemma GoesLater(a: Memory, b: Memory, hole: nat, d: Dest, e: Dest)
    requires Grows(a, b) && Becomes(b, d, e) && Goes(a, hole, d)
    ensures Goes(b, hole, e)
  {
  }

  lemma {:induction false} ExprLater(a: Memory, b: Memory, e: Expr, at: nat)
    requires Grows(a, b) && IsExpr(a, e, at)
    ensures IsExpr(b, e, at)
    decreases e
  {
    hide Goes;
    match e
    case Plain(x) =>
    case Then(x, y) =>
      ExprLater(a, b, x, at);
      ExprLater(a, b, y, at + ExprSize(x));
    case Logic(t, es) =>
      if |es| == 1 {
        ExprLater(a, b, es[0], at);
      } else {
        var end := at + OperandsSize(es);
        OperandsLater(a, b, t, es, at, At(end + 10), At(end + 10));
        GoesLater(a, b, end + 6, At(end + 15), At(end + 15));
      }
  }

  lemma {:induction false} OperandsLater(a: Memory, b: Memory, t: nat, es: seq<Expr>, at: nat, d: Dest, d': Dest)
    requires Grows(a, b) && Becomes(b, d, d') && IsOperands(a, t, es, at, d)
    ensures IsOperands(b, t, es, at, d')
    decreases es
  {
    hide Goes, Becomes;
    if es != [] {
      var next := at + ExprSize(es[0]);
      ExprLater(a, b, es[0], at);
      GoesLater(a, b, next + 4, d, d');
      OperandsLater(a, b, t, es[1..], next + 8, d, d');
    }
  }

  lemma TestLater(a: Memory, b: Memory, e: Option<Expr>, at: nat, d: Dest, d': Dest)
    requires Grows(a, b) && Becomes(b, d, d') && IsTest(a, e, at, d)
    ensures IsTest(b, e, at, d')
  {
    hide Goes, Becomes;
    if e.Some? {
      ExprLater(a, b, e.value, at);
      GoesLater(a, b, at + ExprSize(e.value) + 4, d, d');
    }
  }

  lemma JumpLater(a: Memory, b: Memory, at: nat, d: Dest, d': Dest)
    requires Grows(a, b) && Becomes(b, d, d') && IsJump(a, at, d)
    ensures IsJump(b, at, d')
  {
    GoesLater(a, b, at + 1, d, d');
  }

  lemma BecomesSelf(b: Memory, x: nat)
    ensures Becomes(b, At(x), At(x))
  {
  }

  lemma OptionalLater(a: Memory, b: Memory, e: Option<Expr>, at: nat)
    requires Grows(a, b) && IsOptional(a, e, at)
    ensures IsOptional(b, e, at)
  {
    if e.Some? { ExprLater(a, b, e.value, at); }
  }

  /** The code of a statement stays its code while lists grow and when they are patched. */
  lemma {:induction false} CodeLater(a: Memory, b: Memory, s: Stmt, at: nat, brk: Dest, ret: Dest, brk': Dest, ret': Dest)
    requires Grows(a, b) && Becomes(b, brk, brk') && Becomes(b, ret, ret')
    requires IsCode(a, s, at, brk, ret)
    ensures IsCode(b, s, at, brk', ret')
    decreases s
  {
    hide Grows, Becomes, Goes, IsExpr, IsTest, IsJump, IsOptional;
    match s
    case Eval(e) => ExprLater(a, b, e, at);
    case Empty =>
    case If(c, yes, no) =>
      var body := at + ExprSize(c) + 8;
      var skip := body + StmtSize(yes) + if no.Some? then 5 else 0;
      BecomesSelf(b, skip);
      TestLater(a, b, Some(c), at, At(skip), At(skip));
      CodeLater(a, b, yes, body, brk, ret, brk', ret');
      if no.Some? {
        var end := skip + StmtSize(no.value);
        BecomesSelf(b, end);
        JumpLater(a, b, skip - 5, At(end), At(end));
        CodeLater(a, b, no.value, skip, brk, ret, brk', ret');
      }
    case While(c, body) =>
      var end := at + StmtSize(s);
      BecomesSelf(b, end);
      BecomesSelf(b, at);
      TestLater(a, b, Some(c), at, At(end), At(end));
      CodeLater(a, b, body, at + ExprSize(c) + 8, At(end), ret, At(end), ret');
      JumpLater(a, b, end - 5, At(at), At(at));
    case For(init, test, step, body) =>
      ForLater(a, b, s, at, brk, ret, brk', ret');
    case Break => JumpLater(a, b, at, brk, brk');
    case Return(e) =>
      OptionalLater(a, b, e, at);
      JumpLater(a, b, at + OptionalSize(e), ret, ret');
    case Block(ss) => AllLater(a, b, ss, at, brk, ret, brk', ret');
  }

  lemma {:induction false} ForLater(a: Memory, b: Memory, s: Stmt, at: nat, brk: Dest, ret: Dest, brk': Dest, ret': Dest)
    requires s.For? && Grows(a, b) && Becomes(b, ret, ret') && IsCode(a, s, at, brk, ret)
    ensures IsCode(b, s, at, brk', ret')
    decreases s, 0
  {
    hide Grows, Becomes, Goes, IsExpr, IsTest, IsJump, IsOptional, IsAll, TestSize, OptionalSize, ExprSize;
    var top := at + OptionalSize(s.init);
    var mid := top + TestSize(s.test);
    var start := mid + if s.step.Some? then 10 + ExprSize(s.step.value) else 0;
    var end := at + StmtSize(s);
    BecomesSelf(b, end);
    BecomesSelf(b, top);
    OptionalLater(a, b, s.init, at);
    TestLater(a, b, s.test, top, At(end), At(end));
    if s.step.Some? {
      BecomesSelf(b, start);
      BecomesSelf(b, mid + 5);
      JumpLater(a, b, mid, At(start), At(start));
      ExprLater(a, b, s.step.value, mid + 5);
      JumpLater(a, b, start - 5, At(top), At(top));
      JumpLater(a, b, end - 5, At(mid + 5), At(mid + 5));
    } else {
      JumpLater(a, b, end - 5, At(top), At(top));
    }
    CodeLater(a, b, s.body, start, At(end), ret, At(end), ret');
  }

  lemma {:induction false} AllLater(a: Memory, b: Memory, ss: seq<Stmt>, at: nat, brk: Dest, ret: Dest, brk': Dest, ret': Dest)
    requires Grows(a, b) && Becomes(b, brk, brk') && Becomes(b, ret, ret')
    requires IsAll(a, ss, at, brk, ret)
    ensures IsAll(b, ss, at, brk', ret')
    decreases ss
  {
    hide Grows, Becomes, IsCode;
    if ss != [] {
      CodeLater(a, b, ss[0], at, brk, ret, brk', ret');
      AllLater(a, b, ss[1..], at + StmtSize(ss[0]), brk, ret, brk', ret');
    }
  }
}

module OtccCorrect {
  import opened Options
  import opened OtccCode

  lemma JumpRuns<S(!new)>(mem: Memory, sem: Meaning<S>, at: nat, x: nat, m: Machine<S>)
    requires IsJump(mem, at, At(x))
    ensures Reaches(mem, sem, Cpu(at, m), Cpu(x, m))
  {
    ReachesStep(mem, sem, Cpu(at, m), Cpu(x, m));
  }

  lemma TestRuns<S(!new)>(mem: Memory, sem: Meaning<S>, at: nat, t: nat, x: nat, m: Machine<S>)
    requires Holds(mem, at, TestOp(t)) && Goes(mem, at + 4, At(x))
    ensures Reaches(mem, sem, Cpu(at, m), Cpu(if Decides(t, m.acc) then x else at + 8, m))
  {
    ReachesStep(mem, sem, Cpu(at, m), Cpu(if Decides(t, m.acc) then x else at + 8, m));
  }

  lemma LoadRuns<S(!new)>(mem: Memory, sem: Meaning<S>, at: nat, n: int, m: Machine<S>)
    requires Holds(mem, at, LoadOp(n))
    ensures Reaches(mem, sem, Cpu(at, m), Cpu(at + 5, m.(acc := n)))
  {
    ReachesStep(mem, sem, Cpu(at, m), Cpu(at + 5, m.(acc := n)));
  }

  lemma AtomRuns<S(!new)>(mem: Memory, sem: Meaning<S>, at: nat, a: Atom, m: Machine<S>)
    requires Holds(mem, at, AtomOp(a))
    ensures Reaches(mem, sem, Cpu(at, m), Cpu(at + a.length, EvalExpr(sem, Plain(a), m)))
  {
    ReachesStep(mem, sem, Cpu(at, m), Cpu(at + a.length, EvalExpr(sem, Plain(a), m)));
  }

  /** Running the code of an expression evaluates it and comes out behind it. */
  lemma {:induction false} ExprRuns<S(!new)>(mem: Memory, sem: Meaning<S>, e: Expr, at: nat, m: Machine<S>)
    requires IsExpr(mem, e, at)
    ensures Reaches(mem, sem, Cpu(at, m), Cpu(at + ExprSize(e), EvalExpr(sem, e, m)))
    decreases e
  {
    hide Reaches, Holds, Goes;
    match e
    case Plain(a) => AtomRuns(mem, sem, at, a, m);
    case Then(x, y) =>
      var r := EvalExpr(sem, x, m);
      ExprRuns(mem, sem, x, at, m);
      ExprRuns(mem, sem, y, at + ExprSize(x), r);
      ReachesTrans(mem, sem, Cpu(at, m), Cpu(at + ExprSize(x), r), Cpu(at + ExprSize(e), EvalExpr(sem, e, m)));
    case Logic(t, es) =>
      if |es| == 1 {
        ExprRuns(mem, sem, es[0], at, m);
      } else {
        LogicRuns(mem, sem, t, es, at, at + OperandsSize(es), m);
      }
  }

  /** A chain from any of its operands on: evaluation stops at the first one that decides, and 0 or 1 is left. */
  lemma {:induction false} LogicRuns<S(!new)>(mem: Memory, sem: Meaning<S>, t: nat, es: seq<Expr>, at: nat, end: nat, m: Machine<S>)
    requires IsOperands(mem, t, es, at, At(end + 10)) && end == at + OperandsSize(es)
    requires Holds(mem, end, LoadOp(1 - t)) && IsJump(mem, end + 5, At(end + 15)) && Holds(mem, end + 10, LoadOp(t))
    ensures Reaches(mem, sem, Cpu(at, m), Cpu(end + 15, EvalLogic(sem, t, es, m)))
    decreases es
  {
    hide Reaches, Holds, Goes, IsJump;
    if es == [] {
      LoadRuns(mem, sem, end, 1 - t, m);
      JumpRuns(mem, sem, end + 5, end + 15, m.(acc := 1 - t));
      ReachesTrans(mem, sem, Cpu(at, m), Cpu(end + 5, m.(acc := 1 - t)), Cpu(end + 15, m.(acc := 1 - t)));
    } else {
      var next, r := at + ExprSize(es[0]), EvalExpr(sem, es[0], m);
      ExprRuns(mem, sem, es[0], at, m);
      TestRuns(mem, sem, next, t, end + 10, r);
      if Decides(t, r.acc) {
        ReachesTrans(mem, sem, Cpu(at, m), Cpu(next, r), Cpu(end + 10, r));
        LoadRuns(mem, sem, end + 10, t, r);
        ReachesTrans(mem, sem, Cpu(at, m), Cpu(end + 10, r), Cpu(end + 15, r.(acc := t)));
      } else {
        ReachesTrans(mem, sem, Cpu(at, m), Cpu(next, r), Cpu(next + 8, r));
        LogicRuns(mem, sem, t, es[1..], next + 8, end, r);
        ReachesTrans(mem, sem, Cpu(at, m), Cpu(next + 8, r), Cpu(end + 15, EvalLogic(sem, t, es, m)));
      }
    }
  }

  lemma OptionalRuns<S(!new)>(mem: Memory, sem: Meaning<S>, e: Option<Expr>, at: nat, m: Machine<S>)
    requires IsOptional(mem, e, at)
    ensures Reaches(mem, sem, Cpu(at, m), Cpu(at + OptionalSize(e), Optional(sem, e, m)))
  {
    hide Reaches, IsExpr;
    if e.Some? { ExprRuns(mem, sem, e.value, at, m); } else { ReachesSelf(mem, sem, Cpu(at, m)); }
  }

  /** A tested condition: on to the body unless it is zero; a missing one is true. */
  lemma ConditionRuns<S(!new)>(mem: Memory, sem: Meaning<S>, e: Option<Expr>, at: nat, exit: nat, m: Machine<S>)
    requires IsTest(mem, e, at, At(exit))
    ensures var r := Optional(sem, e, m);
      Reaches(mem, sem, Cpu(at, m), Cpu(if e.Some? && r.acc == 0 then exit else at + TestSize(e), r))
  {
    hide Reaches, IsExpr, Holds, Goes;
    if e.Some? {
      var next, r := at + ExprSize(e.value), EvalExpr(sem, e.value, m);
      ExprRuns(mem, sem, e.value, at, m);
      TestRuns(mem, sem, next, 0, exit, r);
      ReachesTrans(mem, sem, Cpu(at, m), Cpu(next, r), Cpu(if r.acc == 0 then exit else next + 8, r));
    } else {
      ReachesSelf(mem, sem, Cpu(at, m));
    }
  }

  /** Where control goes after a statement. */
  function ExitAt(exit: Exit, end: nat, brk: nat, ret: nat): nat {
    match exit
    case Through => end
    case Broke => brk
    case Returned => ret
  }

  /** Whatever a statement does in C, its code does, and it leaves by the right door. */
  lemma {:induction false} StmtRuns<S(!new)>(mem: Memory, sem: Meaning<S>, fuel: nat, s: Stmt, at: nat, brk: nat, ret: nat, m: Machine<S>)
    requires IsCode(mem, s, at, At(brk), At(ret)) && Run(sem, fuel, s, m).Outcome?
    ensures var o := Run(sem, fuel, s, m);
      Reaches(mem, sem, Cpu(at, m), Cpu(ExitAt(o.exit, at + StmtSize(s), brk, ret), o.m))
    decreases fuel, s, 2
  {
    hide Reaches, IsExpr, IsTest, IsJump, IsOptional;
    var o := Run(sem, fuel, s, m);
    match s
    case Eval(e) => ExprRuns(mem, sem, e, at, m);
    case Empty => ReachesSelf(mem, sem, Cpu(at, m));
    case If(c, yes, no) => IfRuns(mem, sem, fuel, s, at, brk, ret, m);
    case While(c, body) => WhileRuns(mem, sem, fuel, s, at, brk, ret, m);
    case For(init, test, step, body) =>
      var top := at + OptionalSize(init);
      var r := Optional(sem, init, m);
      OptionalRuns(mem, sem, init, at, m);
      ForRuns(mem, sem, fuel, s, at, brk, ret, r);
      ReachesTrans(mem, sem, Cpu(at, m), Cpu(top, r), Cpu(ExitAt(o.exit, at + StmtSize(s), brk, ret), o.m));
    case Break => JumpRuns(mem, sem, at, brk, m);
    case Return(e) =>
      var r := Optional(sem, e, m);
      OptionalRuns(mem, sem, e, at, m);
      JumpRuns(mem, sem, at + OptionalSize(e), ret, r);
      ReachesTrans(mem, sem, Cpu(at, m), Cpu(at + OptionalSize(e), r), Cpu(ret, r));
    case Block(ss) => AllRuns(mem, sem, fuel, ss, at, brk, ret, m);
  }

  lemma {:induction false} IfRuns<S(!new)>(mem: Memory, sem: Meaning<S>, fuel: nat, s: Stmt, at: nat, brk: nat, ret: nat, m: Machine<S>)
    requires s.If? && IsCode(mem, s, at, At(brk), At(ret)) && Run(sem, fuel, s, m).Outcome?
    ensures var o := Run(sem, fuel, s, m);
      Reaches(mem, sem, Cpu(at, m), Cpu(ExitAt(o.exit, at + StmtSize(s), brk, ret), o.m))
    decreases fuel, s, 1
  {
    hide Reaches, IsTest, IsJump;
    var o := Run(sem, fuel, s, m);
    var body := at + ExprSize(s.cond) + 8;
    var skip := body + StmtSize(s.yes) + if s.no.Some? then 5 else 0;
    var r := EvalExpr(sem, s.cond, m);
    var last := Cpu(ExitAt(o.exit, at + StmtSize(s), brk, ret), o.m);
    ConditionRuns(mem, sem, Some(s.cond), at, skip, m);
    if r.acc != 0 {
      StmtRuns(mem, sem, fuel, s.yes, body, brk, ret, r);
      var after := Cpu(ExitAt(o.exit, body + StmtSize(s.yes), brk, ret), o.m);
      ReachesTrans(mem, sem, Cpu(at, m), Cpu(body, r), after);
      if s.no.Some? && o.exit.Through? {
        JumpRuns(mem, sem, skip - 5, skip + StmtSize(s.no.value), o.m);
        ReachesTrans(mem, sem, Cpu(at, m), after, last);
      }
    } else if s.no.Some? {
      StmtRuns(mem, sem, fuel, s.no.value, skip, brk, ret, r);
      ReachesTrans(mem, sem, Cpu(at, m), Cpu(skip, r), last);
    }
  }

  lemma {:induction false} WhileRuns<S(!new)>(mem: Memory, sem: Meaning<S>, fuel: nat, s: Stmt, at: nat, brk: nat, ret: nat, m: Machine<S>)
    requires s.While? && IsCode(mem, s, at, At(brk), At(ret)) && Run(sem, fuel, s, m).Outcome?
    ensures var o := Run(sem, fuel, s, m);
      Reaches(mem, sem, Cpu(at, m), Cpu(ExitAt(o.exit, at + StmtSize(s), brk, ret), o.m))
    decreases fuel, s, 1
  {
    hide Reaches, IsTest, IsJump;
    var o := Run(sem, fuel, s, m);
    var body, end := at + ExprSize(s.cond) + 8, at + StmtSize(s);
    var r := EvalExpr(sem, s.cond, m);
    var last := Cpu(ExitAt(o.exit, end, brk, ret), o.m);
    ConditionRuns(mem, sem, Some(s.cond), at, end, m);
    if r.acc != 0 {
      var b := Run(sem, fuel, s.body, r);
      StmtRuns(mem, sem, fuel, s.body, body, end, ret, r);
      var after := Cpu(ExitAt(b.exit, end - 5, end, ret), b.m);
      ReachesTrans(mem, sem, Cpu(at, m), Cpu(body, r), after);
      if b.exit.Through? {
        JumpRuns(mem, sem, end - 5, at, b.m);
        ReachesTrans(mem, sem, Cpu(at, m), after, Cpu(at, b.m));
        WhileRuns(mem, sem, fuel - 1, s, at, brk, ret, b.m);
        ReachesTrans(mem, sem, Cpu(at, m), Cpu(at, b.m), last);
      }
    }
  }

  lemma {:induction false} ForRuns<S(!new)>(mem: Memory, sem: Meaning<S>, fuel: nat, s: Stmt, at: nat, brk: nat, ret: nat, m: Machine<S>)
    requires s.For? && IsCode(mem, s, at, At(brk), At(ret))
    requires RunFor(sem, fuel, s.test, s.step, s.body, m).Outcome?
    ensures var o := RunFor(sem, fuel, s.test, s.step, s.body, m);
      Reaches(mem, sem, Cpu(at + OptionalSize(s.init), m), Cpu(ExitAt(o.exit, at + StmtSize(s), brk, ret), o.m))
    decreases fuel, s.body, 3
  {
    hide Reaches, IsTest, IsJump, IsOptional, IsExpr;
    var o := RunFor(sem, fuel, s.test, s.step, s.body, m);
    var top := at + OptionalSize(s.init);
    var mid := top + TestSize(s.test);
    var start := mid + if s.step.Some? then 10 + ExprSize(s.step.value) else 0;
    var end := at + StmtSize(s);
    var r := Optional(sem, s.test, m);
    var last := Cpu(ExitAt(o.exit, end, brk, ret), o.m);
    ConditionRuns(mem, sem, s.test, top, end, m);
    if !(s.test.Some? && r.acc == 0) {
      if s.step.Some? {
        JumpRuns(mem, sem, mid, start, r);
        ReachesTrans(mem, sem, Cpu(top, m), Cpu(mid, r), Cpu(start, r));
      }
      var b := Run(sem, fuel, s.body, r);
      StmtRuns(mem, sem, fuel, s.body, start, end, ret, r);
      var after := Cpu(ExitAt(b.exit, end - 5, end, ret), b.m);
      ReachesTrans(mem, sem, Cpu(top, m), Cpu(start, r), after);
      if b.exit.Through? {
        var n := Optional(sem, s.step, b.m);
        BackRuns(mem, sem, s.step, mid, end, top, b.m);
        ReachesTrans(mem, sem, Cpu(top, m), after, Cpu(top, n));
        ForRuns(mem, sem, fuel - 1, s, at, brk, ret, n);
        ReachesTrans(mem, sem, Cpu(top, m), Cpu(top, n), last);
      }
    }
  }

  /** From the end of a for body by way of the step back to the test. */
  lemma BackRuns<S(!new)>(mem: Memory, sem: Meaning<S>, step: Option<Expr>, mid: nat, end: nat, top: nat, m: Machine<S>)
    requires end >= 5 && IsJump(mem, end - 5, At(if step.Some? then mid + 5 else top))
    requires step.Some? ==> IsExpr(mem, step.value, mid + 5) && IsJump(mem, mid + 5 + ExprSize(step.value), At(top))
    ensures Reaches(mem, sem, Cpu(end - 5, m), Cpu(top, Optional(sem, step, m)))
  {
    hide Reaches, IsJump, IsExpr;
    if step.Some? {
      var r, x := EvalExpr(sem, step.value, m), mid + 5 + ExprSize(step.value);
      JumpRuns(mem, sem, end - 5, mid + 5, m);
      ExprRuns(mem, sem, step.value, mid + 5, m);
      ReachesTrans(mem, sem, Cpu(end - 5, m), Cpu(mid + 5, m), Cpu(x, r));
      JumpRuns(mem, sem, x, top, r);
      ReachesTrans(mem, sem, Cpu(end - 5, m), Cpu(x, r), Cpu(top, r));
    } else {
      JumpRuns(mem, sem, end - 5, top, m);
    }
  }

  lemma {:induction false} AllRuns<S(!new)>(mem: Memory, sem: Meaning<S>, fuel: nat, ss: seq<Stmt>, at: nat, brk: nat, ret: nat, m: Machine<S>)
    requires IsAll(mem, ss, at, At(brk), At(ret)) && RunAll(sem, fuel, ss, m).Outcome?
    ensures var o := RunAll(sem, fuel, ss, m);
      Reaches(mem, sem, Cpu(at, m), Cpu(ExitAt(o.exit, at + AllSize(ss), brk, ret), o.m))
    decreases fuel, ss
  {
    hide Reaches, IsCode;
    var o := RunAll(sem, fuel, ss, m);
    if ss == [] {
      ReachesSelf(mem, sem, Cpu(at, m));
    } else {
      var b, next := Run(sem, fuel, ss[0], m), at + StmtSize(ss[0]);
      StmtRuns(mem, sem, fuel, ss[0], at, brk, ret, m);
      if b.exit.Through? {
        AllRuns(mem, sem, fuel, ss[1..], next, brk, ret, b.m);
        ReachesTrans(mem, sem, Cpu(at, m), Cpu(next, b.m), Cpu(ExitAt(o.exit, at + AllSize(ss), brk, ret), o.m));
      }
    }
  }
}

module OtccGenerator {
  import opened Options
  import opened OtccCode
  import opened OtccCorrect

  /** The operands linked from t on. */
  ghost predicate Threads(words: map<nat, int>, t: int, holes: seq<nat>)
    decreases |holes|
  {
    if holes == [] then t == 0
    else t == holes[0] && t > 0 && holes[0] in words && Threads(words, words[holes[0]], holes[1..])
  }

  predicate Distinct(s: seq<nat>) { forall i, j :: 0 <= i < j < |s| ==> s[i] != s[j] }

  function Elements(s: seq<nat>): set<nat> { set x | x in s }

  /** A list that is still open: linked through memory, below ind, not patched. */
  ghost predicate OpenList(m: Memory, t: int, holes: seq<nat>, from: nat, ind: nat) {
    && Threads(m.words, t, holes) && Distinct(holes)
    && forall h :: h in holes ==> from < h < ind && h !in m.landed
  }

  /** Between two moments nothing below `from` has changed, and code has only been added. */
  ghost predicate Above(a: Memory, b: Memory, from: nat) {
    && Grows(a, b)
    && (forall h :: h < from && h in a.words ==> h in b.words && b.words[h] == a.words[h])
    && (forall h :: h < from ==> (h in b.landed <==> h in a.landed) && (h in b.words <==> h in a.words))
  }

  lemma {:induction false} ThreadsAbove(a: map<nat, int>, b: map<nat, int>, t: int, holes: seq<nat>)
    requires Threads(a, t, holes)
    requires forall h :: h in holes && h in a ==> h in b && b[h] == a[h]
    ensures Threads(b, t, holes)
    decreases |holes|
  {
    if holes != [] {
      assert forall h :: h in holes[1..] ==> h in holes;
      ThreadsAbove(a, b, a[holes[0]], holes[1..]);
    }
  }

  /** Lists made before are not disturbed by code made after. */
  lemma OpenAbove(a: Memory, b: Memory, t: int, holes: seq<nat>, from: nat, ind: nat, ind': nat)
    requires OpenList(a, t, holes, from, ind) && Above(a, b, ind) && ind <= ind'
    ensures OpenList(b, t, holes, from, ind')
  {
    ThreadsAbove(a.words, b.words, t, holes);
  }

  lemma AboveTrans(a: Memory, b: Memory, c: Memory, from: nat, mid: nat)
    requires Above(a, b, from) && Above(b, c, mid) && from <= mid
    ensures Above(a, c, from)
  {
  }

  /** Every instruction and operand lies below ind. */
  ghost predicate Below(m: Memory, ind: nat) {
    && (forall x :: x in m.ops ==> x + 5 <= ind || (m.ops[x].AtomOp? && x < ind))
    && (forall h :: h in m.words || h in m.landed ==> h + 4 <= ind)
  }

  function Emitted(m: Memory, at: nat, op: Op): Memory { m.(ops := m.ops[at := op]) }

  /** Memory after the list has been patched to jump to x. */
  function PatchedTo(m: Memory, holes: seq<nat>, x: nat): Memory {
    Memory(m.ops, map h | h in m.words :: if h in holes then x - h - 4 else m.words[h], m.landed + Elements(holes))
  }

  lemma EmittedAbove(m: Memory, at: nat, op: Op)
    requires Below(m, at)
    ensures Above(m, Emitted(m, at, op), at) && Below(Emitted(m, at, op), at + Size(op)) && Holds(Emitted(m, at, op), at, op)
  {
  }

  ghost predicate Apart(a: seq<nat>, b: seq<nat>) { forall h :: h in a ==> h !in b }

  predicate Jumps(op: Op) { op.TestOp? || op.JumpOp? }

  /** The operand is the end of the instruction. */
  function HoleOf(at: nat, op: Op): nat
    requires Jumps(op)
  {
    at + Size(op) - 4
  }

  /** Memory with a new jump whose operand is v. */
  function Linked(m: Memory, at: nat, op: Op, v: int): Memory
    requires Jumps(op)
  {
    m.(ops := m.ops[at := op], words := m.words[HoleOf(at, op) := v])
  }

  lemma LinkedAbove(m: Memory, at: nat, op: Op, v: int)
    requires Below(m, at) && Jumps(op)
    ensures var n := Linked(m, at, op, v);
      Above(m, n, at) && Below(n, at + Size(op)) && Holds(n, at, op)
  {
  }

  lemma LinkedOpen(m: Memory, at: nat, op: Op, t: int, holes: seq<nat>, from: nat)
    requires Below(m, at) && Jumps(op) && OpenList(m, t, holes, from, at) && from <= at
    ensures var s := HoleOf(at, op); OpenList(Linked(m, at, op, t), s, [s] + holes, from, at + Size(op))
  {
    var s := HoleOf(at, op);
    var n := Linked(m, at, op, t);
    LinkedAbove(m, at, op, t);
    OpenAbove(m, n, t, holes, from, at, at + Size(op));
    assert ([s] + holes)[1..] == holes;
  }

  /** A jump with its displacement known at once. */
  ghost function LinkedLanded(m: Memory, at: nat, op: Op, v: int): Memory
    requires Jumps(op)
  {
    var n := Linked(m, at, op, v);
    n.(landed := n.landed + {HoleOf(at, op)})
  }

  lemma LandedAbove(m: Memory, at: nat, op: Op, v: int)
    requires Below(m, at) && Jumps(op)
    ensures var n := LinkedLanded(m, at, op, v);
      Above(m, n, at) && Below(n, at + Size(op)) && Holds(n, at, op)
  {
  }

  /** One list patched; an open list that has no hole in common stays open. */
  lemma PatchedOpen(m: Memory, holes: seq<nat>, x: nat, t: int, other: seq<nat>, from: nat, ind: nat)
    requires OpenList(m, t, other, from, ind) && Apart(other, holes)
    ensures OpenList(PatchedTo(m, holes, x), t, other, from, ind)
  {
    ThreadsAbove(m.words, PatchedTo(m, holes, x).words, t, other);
  }

  lemma PatchedAbove(m: Memory, holes: seq<nat>, x: nat, t: int, from: nat, ind: nat)
    requires OpenList(m, t, holes, from, ind) && Below(m, ind)
    ensures var n := PatchedTo(m, holes, x);
      && Above(m, n, from) && Below(n, ind)
      && forall h :: h in holes ==> Goes(n, h, At(x))
  {
    ThreadsIn(m.words, t, holes);
  }

  lemma {:induction false} ThreadsIn(words: map<nat, int>, t: int, holes: seq<nat>)
    requires Threads(words, t, holes)
    ensures forall h :: h in holes ==> h in words
    decreases |holes|
  {
    if holes != [] {
      ThreadsIn(words, words[holes[0]], holes[1..]);
      assert holes == [holes[0]] + holes[1..];
    }
  }

  lemma ThreadsHead(words: map<nat, int>, t: int, holes: seq<nat>)
    requires Threads(words, t, holes)
    ensures t == 0 <==> holes == []
    ensures holes != [] ==> t == holes[0] && t > 0 && holes[0] in words && Threads(words, words[holes[0]], holes[1..])
  {
  }

  /** The words while a list is being patched: the first k holes done. */
  function Partly(words: map<nat, int>, holes: seq<nat>, k: nat, x: nat): map<nat, int>
    requires k <= |holes|
  {
    map h | h in words :: if h in holes[..k] then x - h - 4 else words[h]
  }

  lemma PartlyStep(words: map<nat, int>, holes: seq<nat>, k: nat, x: nat)
    requires k < |holes| && Distinct(holes) && holes[k] in words
    ensures holes[k] in Partly(words, holes, k, x)
    ensures Partly(words, holes, k, x)[holes[k] := x - holes[k] - 4] == Partly(words, holes, k + 1, x)
    ensures forall h :: h in holes[k..] && h in words ==> Partly(words, holes, k, x)[h] == words[h]
  {
    assert holes[..k + 1] == holes[..k] + [holes[k]];
    forall h | h in holes[k..] && h in words ensures h !in holes[..k] {
    }
  }

  class Generator {
    var mem: Memory
    var ind: nat
    var rsym: int
    ghost var returns_: seq<nat>

    constructor (start: nat)
      requires start > 0
      ensures ind == start && mem == Memory(map[], map[], {}) && rsym == 0 && returns_ == []
    {
      mem := Memory(map[], map[], {});
      ind := start;
      rsym := 0;
      returns_ := [];
    }

    /** Code lies below ind and the list of returns is open. */
    ghost predicate Valid(base: nat)
      reads this
    {
      ind > 0 && Below(mem, ind) && OpenList(mem, rsym, returns_, base, ind)
    }

    method EmitOp(op: Op, ghost base: nat)
      requires Valid(base) && base <= ind
      modifies this`mem, this`ind
      ensures Valid(base) && mem == Emitted(old(mem), old(ind), op) && ind == old(ind) + Size(op)
      ensures Above(old(mem), mem, old(ind)) && Holds(mem, old(ind), op)
    {
      hide Below, Above, OpenList;
      EmittedAbove(mem, ind, op);
      OpenAbove(mem, Emitted(mem, ind, op), rsym, returns_, base, ind, ind + Size(op));
      mem := Emitted(mem, ind, op);
      ind := ind + Size(op);
    }

    /** A jump whose operand joins list t. */
    method Psym(op: Op, t: int, ghost holes: seq<nat>, ghost base: nat) returns (s: nat)
      requires Valid(base) && base <= ind && Jumps(op) && OpenList(mem, t, holes, base, ind)
      modifies this`mem, this`ind
      ensures Valid(base) && ind == old(ind) + Size(op) && s == ind - 4
      ensures mem == Linked(old(mem), old(ind), op, t)
      ensures Above(old(mem), mem, old(ind)) && Holds(mem, old(ind), op)
      ensures OpenList(mem, s, [s] + holes, base, ind)
    {
      hide Below, Above, OpenList;
      s := HoleOf(ind, op);
      ghost var m := Linked(mem, ind, op, t);
      LinkedAbove(mem, ind, op, t);
      LinkedOpen(mem, ind, op, t, holes, base);
      OpenAbove(mem, m, rsym, returns_, base, ind, ind + Size(op));
      mem := mem.(ops := mem.ops[ind := op], words := mem.words[s := t]);
      ind := ind + Size(op);
    }

    /** The same with a displacement that is known. */
    method Gjmp(displacement: int, ghost base: nat) returns (s: nat)
      requires Valid(base) && base <= ind
      modifies this`mem, this`ind
      ensures Valid(base) && ind == old(ind) + 5 && s == ind - 4
      ensures mem == LinkedLanded(old(mem), old(ind), JumpOp, displacement)
      ensures Above(old(mem), mem, old(ind)) && Holds(mem, old(ind), JumpOp)
    {
      hide Below, Above, OpenList;
      s := ind + 1;
      ghost var m := LinkedLanded(mem, ind, JumpOp, displacement);
      LandedAbove(mem, ind, JumpOp, displacement);
      OpenAbove(mem, m, rsym, returns_, base, ind, ind + 5);
      mem := Memory(mem.ops[ind := JumpOp], mem.words[s := displacement], mem.landed + {s});
      ind := ind + 5;
    }

    /** `gsym`: every jump of the list is made to land here. */
    method Gsym(t: int, ghost holes: seq<nat>, ghost base: nat)
      requires Valid(base) && OpenList(mem, t, holes, base, ind) && Apart(returns_, holes)
      modifies this`mem
      ensures Valid(base) && mem == PatchedTo(old(mem), holes, ind)
      ensures forall h :: h in holes ==> Goes(mem, h, At(ind))
    {
      hide Below, Above, Threads, OpenList, Partly, Goes;
      ghost var m := mem;
      OpenThreads(m, t, holes, base, ind);
      PatchedAbove(m, holes, ind, t, base, ind);
      PatchedOpen(m, holes, ind, rsym, returns_, base, ind);
      ThreadsHead(m.words, t, holes);
      PartlyEnds(m.words, holes, ind);
      ghost var k := 0;
      var rest := t;
      assert holes[0..] == holes;
      while rest != 0
        invariant k <= |holes| && Threads(m.words, rest, holes[k..]) && (rest == 0 <==> k == |holes|)
        invariant mem == m.(words := Partly(m.words, holes, k, ind))
        decreases |holes| - k
      {
        ThreadsHead(m.words, rest, holes[k..]);
        PartlyStep(m.words, holes, k, ind);
        assert holes[k] in holes[k..];
        assert holes[k..][1..] == holes[k + 1..];
        var n := mem.words[rest];
        mem := mem.(words := mem.words[rest := ind - rest - 4]);
        rest := n;
        k := k + 1;
        ThreadsHead(m.words, rest, holes[k..]);
      }
      mem := mem.(landed := mem.landed + Elements(holes));
      assert mem == PatchedTo(m, holes, ind);
    }

    /** Operands and tests of a chain; all tests join one list. */
    method Chain(t: nat, es: seq<Expr>, ghost base: nat) returns (a: int, ghost holes: seq<nat>)
      requires Valid(base) && base <= ind && AllParsed(es)
      modifies this`mem, this`ind
      ensures Valid(base) && ind == old(ind) + OperandsSize(es) && OpenList(mem, a, holes, base, ind)
      ensures IsOperands(mem, t, es, old(ind), Open(Elements(holes)))
      ensures Above(old(mem), mem, old(ind)) && Accounted(mem, old(ind), holes) && From(holes, old(ind))
      decreases es
    {
      hide Below, Above, OpenList, IsOperands, IsExpr, Accounted, Holds, Grows;
      ghost var start, m := ind, mem;
      a, holes := 0, [];
      NothingYet(mem, t, base, ind);
      NothingAccounted(mem, ind);
      var i := 0;
      while i < |es|
        invariant i <= |es| && Valid(base) && start <= ind == start + OperandsSize(es[..i])
        invariant OpenList(mem, a, holes, base, ind) && From(holes, start)
        invariant IsOperands(mem, t, es[..i], start, Open(Elements(holes)))
        invariant Above(m, mem, start) && Accounted(mem, start, holes)
      {
        ghost var m1, ind1 := mem, ind;
        Sum(es[i], base);
        ghost var m2, ind2 := mem, ind;
        OpenAbove(m1, m2, a, holes, base, ind1, ind2);
        a := Psym(TestOp(t), a, holes, base);
        OperandAdded(m, m1, m2, mem, t, es, i, start, holes, a);
        AccountedOperand(m1, m2, mem, start, ind1, ind2, TestOp(t), holes);
        holes := [a] + holes;
        i := i + 1;
      }
      assert es[..i] == es;
    }

    /** An expression: atoms as they come, `&&` and `||` with an exit that leaves 0 or 1. */
    method Sum(e: Expr, ghost base: nat)
      requires Valid(base) && base <= ind && Parsed(e)
      modifies this`mem, this`ind
      ensures Valid(base) && ind == old(ind) + ExprSize(e) && IsExpr(mem, e, old(ind))
      ensures Above(old(mem), mem, old(ind)) && Accounted(mem, old(ind), [])
      decreases e
    {
      hide Below, Above, OpenList, IsOperands, Accounted, Holds, Grows, Goes, Becomes, OperandsSize;
      ghost var start, m := ind, mem;
      NothingAccounted(mem, ind);
      match e {
        case Plain(a) =>
          EmitOp(AtomOp(a), base);
          AccountedOp(m, mem, start, start, AtomOp(a));
        case Then(x, y) =>
          Sum(x, base);
          ghost var m1, ind1 := mem, ind;
          Sum(y, base);
          AboveExpr(m1, mem, x, start, ind1);
          AboveTrans(m, m1, mem, start, ind1);
          AccountedMore(m1, mem, start, ind1, [], []);
          NoHoles(mem, start);
        case Logic(t, es) =>
          if |es| == 1 {
            Sum(es[0], base);
          } else {
            var a; ghost var holes;
            a, holes := Chain(t, es, base);
            ghost var m1, end := mem, ind;
            EmitOp(LoadOp(1 - t), base);
            ghost var m2 := mem;
            OpenAbove(m1, m2, a, holes, base, end, end + 5);
            var s := Gjmp(5, base);
            ghost var m3 := mem;
            OpenAbove(m2, m3, a, holes, base, end + 5, end + 10);
            ReturnsApart(m, returns_, rsym, base, start, holes);
            Gsym(a, holes, base);
            ghost var m4 := mem;
            Narrowed(m3, a, holes, base, start, end + 10);
            PatchedAbove(m3, holes, end + 10, a, start, end + 10);
            EmitOp(LoadOp(t), base);
            LogicDone(m, m1, m2, m3, m4, mem, t, es, start, end, holes);
          }
      }
    }

    /** A condition and the jump taken when it is zero, which opens a list. */
    method TestExpr(e: Expr, ghost base: nat) returns (a: int, ghost holes: seq<nat>)
      requires Valid(base) && base <= ind && Parsed(e)
      modifies this`mem, this`ind
      ensures Valid(base) && ind == old(ind) + ExprSize(e) + 8 && OpenList(mem, a, holes, base, ind)
      ensures From(holes, old(ind)) && IsTest(mem, Some(e), old(ind), Open(Elements(holes)))
      ensures Above(old(mem), mem, old(ind)) && Accounted(mem, old(ind), holes)
    {
      hide Below, Above, OpenList, IsExpr, Accounted, Holds;
      ghost var start, m := ind, mem;
      Sum(e, base);
      ghost var m1, ind1 := mem, ind;
      EmptyOpen(m1, base, ind);
      var s := Psym(TestOp(0), 0, [], base);
      a, holes := s, [s];
      assert [s] + [] == [s];
      TestDone(m, m1, mem, e, start, ind1, s);
    }

    /** A statement. The lists of breaks and returns grow by nb and nr. */
    method Block(s: Stmt, l: int, ghost brk: seq<nat>, ghost base: nat, ghost inLoop: bool)
      returns (l': int, ghost nb: seq<nat>, ghost nr: seq<nat>)
      requires Valid(base) && base <= ind && OpenList(mem, l, brk, base, ind) && StmtParsed(s, inLoop)
      modifies this
      ensures Valid(base) && ind == old(ind) + StmtSize(s) && OpenList(mem, l', nb + brk, base, ind)
      ensures returns_ == nr + old(returns_) && (!inLoop ==> nb == [] && l' == l)
      ensures Compiled(old(mem), mem, s, old(ind), nb, nr)
      decreases s, 1
    {
      hide Below, Above, OpenList, Accounted, Compiled, IsExpr, IsJump, Goes;
      l', nb, nr := l, [], [];
      ghost var m, start := mem, ind;
      assert nb + brk == brk && nr + returns_ == returns_;
      NothingAccounted(m, start);
      match s {
        case Eval(e) =>
          Sum(e, base);
          OpenAbove(m, mem, l, brk, base, start, ind);
          EvalDone(m, mem, s, start);
        case Empty =>
          EvalDone(m, mem, s, start);
        case If(c, yes, no) =>
          if no.None? {
            l', nb, nr := IfThen(s, l, brk, base, inLoop);
          } else {
            l', nb, nr := IfElse(s, l, brk, base, inLoop);
          }
        case While(c, body) =>
          nb, nr := WhileLoop(s, l, brk, base);
        case For(init, test, step, body) =>
          nb, nr := ForLoop(s, l, brk, base);
        case Break =>
          var h := Psym(JumpOp, l, brk, base);
          l', nb := h, [h];
          BreakDone(m, mem, start, l, h);
        case Return(e) =>
          if e.Some? {
            Sum(e.value, base);
            OpenAbove(m, mem, l, brk, base, start, ind);
          }
          ghost var m1, ind1 := mem, ind;
          var h := Psym(JumpOp, rsym, returns_, base);
          OpenAbove(m1, mem, l, brk, base, ind1, ind);
          rsym := h;
          returns_ := [h] + returns_;
          nr := [h];
          ReturnDone(m, m1, mem, e, start, ind1, h);
        case Block(ss) =>
          l', nb, nr := Statements(ss, l, brk, base, inLoop);
          BlockDone(m, mem, ss, start, nb, nr);
      }
    }

    method IfThen(s: Stmt, l: int, ghost brk: seq<nat>, ghost base: nat, ghost inLoop: bool)
      returns (l': int, ghost nb: seq<nat>, ghost nr: seq<nat>)
      requires s.If? && s.no.None? && StmtParsed(s, inLoop)
      requires Valid(base) && base <= ind && OpenList(mem, l, brk, base, ind)
      modifies this
      ensures Valid(base) && ind == old(ind) + StmtSize(s) && OpenList(mem, l', nb + brk, base, ind)
      ensures returns_ == nr + old(returns_) && (!inLoop ==> nb == [] && l' == l)
      ensures Compiled(old(mem), mem, s, old(ind), nb, nr)
      decreases s, 0
    {
      hide Below, Above, OpenList, Accounted, Compiled, IsTest, IsCode, Goes;
      ghost var m, start, rets := mem, ind, returns_;
      var a; ghost var ha;
      a, ha := TestExpr(s.cond, base);
      ghost var m1, i1 := mem, ind;
      OpenAbove(m, m1, l, brk, base, start, i1);
      l', nb, nr := Block(s.yes, l, brk, base, inLoop);
      ghost var m2, i2 := mem, ind;
      CompiledAbove(m1, m2, s.yes, i1, nb, nr);
      OpenAbove(m1, m2, a, ha, base, i1, i2);
      OpenUnder(m, l, brk, base, start);
      OpenUnder(m, old(rsym), rets, base, start);
      OpenUnder(m1, a, ha, base, i1);
      ApartFrom(nb, brk, ha, start, i1);
      ApartFrom(nr, rets, ha, start, i1);
      Gsym(a, ha, base);
      PatchedOpen(m2, ha, i2, l', nb + brk, base, i2);
      Narrowed(m2, a, ha, base, start, i2);
      PatchedAbove(m2, ha, i2, a, start, i2);
      IfThenDone(m, m1, m2, mem, s, start, i1, i2, ha, nb, nr);
    }

    method IfElse(s: Stmt, l: int, ghost brk: seq<nat>, ghost base: nat, ghost inLoop: bool)
      returns (l': int, ghost nb: seq<nat>, ghost nr: seq<nat>)
      requires s.If? && s.no.Some? && StmtParsed(s, inLoop)
      requires Valid(base) && base <= ind && OpenList(mem, l, brk, base, ind)
      modifies this
      ensures Valid(base) && ind == old(ind) + StmtSize(s) && OpenList(mem, l', nb + brk, base, ind)
      ensures returns_ == nr + old(returns_) && (!inLoop ==> nb == [] && l' == l)
      ensures Compiled(old(mem), mem, s, old(ind), nb, nr)
      decreases s, 0
    {
      hide Below, Above, OpenList, Accounted, Compiled, IsTest, IsCode, Goes, PatchedTo, Linked, Grows;
      ghost var m, start, rets := mem, ind, returns_;
      var a; ghost var ha;
      a, ha := TestExpr(s.cond, base);
      ghost var m1, i1 := mem, ind;
      OpenAbove(m, m1, l, brk, base, start, i1);
      ghost var nb1, nr1;
      l', nb1, nr1 := Block(s.yes, l, brk, base, inLoop);
      ghost var m2, i2, all1 := mem, ind, nb1 + brk;
      CompiledAbove(m1, m2, s.yes, i1, nb1, nr1);
      OpenAbove(m1, m2, a, ha, base, i1, i2);
      EmptyOpen(m2, base, i2);
      var n := Psym(JumpOp, 0, [], base);
      ghost var m3, i3, hn := mem, ind, [n];
      assert [n] + [] == hn;
      OpenAbove(m2, m3, a, ha, base, i2, i3);
      OpenAbove(m2, m3, l', all1, base, i2, i3);
      OpenUnder(m, l, brk, base, start);
      OpenUnder(m, old(rsym), rets, base, start);
      OpenUnder(m1, a, ha, base, i1);
      OpenUnder(m2, l', all1, base, i2);
      OpenUnder(m2, rsym, nr1 + rets, base, i2);
      UnderParts(nb1, brk, i2);
      UnderParts(nr1, rets, i2);
      ApartFrom(nb1, brk, ha, start, i1);
      ApartFrom(nr1, rets, ha, start, i1);
      Gsym(a, ha, base);
      ghost var m4 := mem;
      ApartFrom(hn, [], ha, start, i1);
      assert hn + [] == hn;
      PatchedOpen(m3, ha, i3, n, hn, base, i3);
      PatchedOpen(m3, ha, i3, l', all1, base, i3);
      Narrowed(m3, a, ha, base, start, i3);
      PatchedAbove(m3, ha, i3, a, start, i3);
      ghost var nb2, nr2;
      l', nb2, nr2 := Block(s.no.value, l', all1, base, inLoop);
      ghost var m5, i5 := mem, ind;
      CompiledAbove(m4, m5, s.no.value, i3, nb2, nr2);
      OpenAbove(m4, m5, n, hn, base, i3, i5);
      ApartFrom(nr2, nr1 + rets, hn, i2, i3);
      ApartFrom(nb2, all1, hn, i2, i3);
      Gsym(n, hn, base);
      PatchedOpen(m5, hn, i5, l', nb2 + all1, base, i5);
      Narrowed(m5, n, hn, base, i2, i5);
      PatchedAbove(m5, hn, i5, n, i2, i5);
      nb, nr := nb2 + nb1, nr2 + nr1;
      assert nb2 + all1 == nb + brk && nr2 + (nr1 + rets) == nr + rets;
      IfElseDone(m, m1, m2, m3, m4, m5, mem, s, start, i1, i2, i3, i5, n, ha, nb1, nr1, nb2, nr2);
    }

    method WhileLoop(s: Stmt, ghost l: int, ghost brk: seq<nat>, ghost base: nat)
      returns (ghost nb: seq<nat>, ghost nr: seq<nat>)
      requires s.While? && StmtParsed(s, true)
      requires Valid(base) && base <= ind && OpenList(mem, l, brk, base, ind)
      modifies this
      ensures Valid(base) && ind == old(ind) + StmtSize(s) && OpenList(mem, l, nb + brk, base, ind)
      ensures returns_ == nr + old(returns_) && nb == []
      ensures Compiled(old(mem), mem, s, old(ind), nb, nr)
      decreases s, 0
    {
      hide Below, Above, OpenList, Accounted, Compiled, IsTest, IsCode, Goes, PatchedTo, LinkedLanded, Grows;
      ghost var m, start, rets := mem, ind, returns_;
      var n := ind;
      var a; ghost var ha;
      a, ha := TestExpr(s.cond, base);
      ghost var m1, i1 := mem, ind;
      OpenUnder(m1, a, ha, base, i1);
      OpenAbove(m, m1, l, brk, base, start, i1);
      ghost var inner;
      a, inner, nr := Block(s.body, a, ha, base, true);
      ghost var m2, i2, all := mem, ind, inner + ha;
      CompiledAbove(m1, m2, s.body, i1, inner, nr);
      OpenAbove(m1, m2, l, brk, base, i1, i2);
      var j := Gjmp(n - ind - 5, base);
      ghost var m3, i3 := mem, ind;
      OpenAbove(m2, m3, a, all, base, i2, i3);
      OpenAbove(m2, m3, l, brk, base, i2, i3);
      OpenUnder(m, l, brk, base, start);
      OpenUnder(m, old(rsym), rets, base, start);
      LoopApart(inner, nr, ha, rets, brk, start, i1);
      Gsym(a, all, base);
      PatchedOpen(m3, all, i3, l, brk, base, i3);
      Narrowed(m3, a, all, base, start, i3);
      PatchedAbove(m3, all, i3, a, start, i3);
      nb := [];
      assert nb + brk == brk;
      WhileDone(m, m1, m2, m3, mem, s, start, i1, i2, i3, ha, inner, nr);
    }

    /** Initialisation, test and step of a for loop; n is where the body jumps back to. */
    method ForHead(s: Stmt, ghost base: nat) returns (n: nat, a: int, ghost ha: seq<nat>)
      requires s.For? && StmtParsed(s, true) && Valid(base) && base <= ind
      modifies this`mem, this`ind
      ensures Valid(base) && ind == old(ind) + HeadSize(s) && OpenList(mem, a, ha, base, ind) && From(ha, old(ind))
      ensures IsHead(mem, s, old(ind), Open(Elements(ha))) && n == BackTo(s, old(ind))
      ensures Above(old(mem), mem, old(ind)) && Accounted(mem, old(ind), ha)
    {
      hide Below, Above, OpenList, Accounted, IsTest, Goes, PatchedTo, Linked, LinkedLanded, Grows, IsExpr, IsJump;
      ghost var m, start, rets := mem, ind, returns_;
      NothingAccounted(m, ind);
      if s.init.Some? {
        Sum(s.init.value, base);
      }
      ghost var m0 := mem;
      n := ind;
      a, ha := 0, [];
      EmptyOpen(mem, base, ind);
      NothingAccounted(mem, ind);
      if s.test.Some? {
        a, ha := TestExpr(s.test.value, base);
      } else {
        NoTest(mem, ind);
      }
      ghost var m1, mid := mem, ind;
      HeadFirst(m, m0, m1, s, start, n, mid, ha);
      if s.step.Some? {
        EmptyOpen(mem, base, ind);
        var t := Psym(JumpOp, 0, [], base);
        ghost var m2, ht := mem, [t];
        assert [t] + [] == ht;
        Sum(s.step.value, base);
        ghost var m3, i3 := mem, ind;
        OpenAbove(m2, m3, t, ht, base, mid + 5, i3);
        var j := Gjmp(n - ind - 5, base);
        ghost var m4, i4 := mem, ind;
        OpenAbove(m3, m4, t, ht, base, i3, i4);
        OpenUnder(m, rsym, rets, base, start);
        OpenUnder(m1, a, ha, base, mid);
        StepApart(ha, rets, t, start, mid, i4);
        Gsym(t, ht, base);
        OpenAbove(m1, m2, a, ha, base, mid, mid + 5);
        OpenAbove(m2, m3, a, ha, base, mid + 5, i3);
        OpenAbove(m3, m4, a, ha, base, i3, i4);
        PatchedOpen(m4, ht, i4, a, ha, base, i4);
        Narrowed(m4, t, ht, base, mid, i4);
        PatchedAbove(m4, ht, i4, t, mid, i4);
        HeadStep(m, m1, m2, m3, m4, mem, s, start, n, mid, i3, i4, t, ha);
        n := t + 4;
      }
    }

    method ForLoop(s: Stmt, ghost l: int, ghost brk: seq<nat>, ghost base: nat)
      returns (ghost nb: seq<nat>, ghost nr: seq<nat>)
      requires s.For? && StmtParsed(s, true)
      requires Valid(base) && base <= ind && OpenList(mem, l, brk, base, ind)
      modifies this
      ensures Valid(base) && ind == old(ind) + StmtSize(s) && OpenList(mem, l, nb + brk, base, ind)
      ensures returns_ == nr + old(returns_) && nb == []
      ensures Compiled(old(mem), mem, s, old(ind), nb, nr)
      decreases s, 0
    {
      hide Below, Above, OpenList, Accounted, Compiled, IsHead, IsCode, Goes, PatchedTo, LinkedLanded, Grows, BackTo;
      ghost var m, start, rets := mem, ind, returns_;
      var n, a; ghost var ha;
      n, a, ha := ForHead(s, base);
      ghost var m1, i1 := mem, ind;
      OpenUnder(m1, a, ha, base, i1);
      OpenAbove(m, m1, l, brk, base, start, i1);
      ghost var inner;
      a, inner, nr := Block(s.body, a, ha, base, true);
      ghost var m2, i2, all := mem, ind, inner + ha;
      CompiledAbove(m1, m2, s.body, i1, inner, nr);
      OpenAbove(m1, m2, l, brk, base, i1, i2);
      var j := Gjmp(n - ind - 5, base);
      ghost var m3, i3 := mem, ind;
      OpenAbove(m2, m3, a, all, base, i2, i3);
      OpenAbove(m2, m3, l, brk, base, i2, i3);
      OpenUnder(m, l, brk, base, start);
      OpenUnder(m, old(rsym), rets, base, start);
      LoopApart(inner, nr, ha, rets, brk, start, i1);
      Gsym(a, all, base);
      PatchedOpen(m3, all, i3, l, brk, base, i3);
      Narrowed(m3, a, all, base, start, i3);
      PatchedAbove(m3, all, i3, a, start, i3);
      nb := [];
      assert nb + brk == brk;
      ForDone(m, m1, m2, m3, mem, s, start, i1, i2, i3, ha, inner, nr);
    }

    method Statements(ss: seq<Stmt>, l: int, ghost brk: seq<nat>, ghost base: nat, ghost inLoop: bool)
      returns (l': int, ghost nb: seq<nat>, ghost nr: seq<nat>)
      requires Valid(base) && base <= ind && OpenList(mem, l, brk, base, ind)
      requires forall i :: 0 <= i < |ss| ==> StmtParsed(ss[i], inLoop)
      modifies this
      ensures Valid(base) && ind == old(ind) + AllSize(ss) && OpenList(mem, l', nb + brk, base, ind)
      ensures returns_ == nr + old(returns_) && (!inLoop ==> nb == [] && l' == l)
      ensures IsAll(mem, ss, old(ind), Open(Elements(nb)), Open(Elements(nr)))
      ensures Above(old(mem), mem, old(ind)) && Accounted(mem, old(ind), nb + nr) && New(nb, nr, old(ind))
      decreases ss
    {
      hide Below, Above, OpenList, Accounted, Compiled, IsCode, IsAll, New, StmtSize, AllSize, StmtParsed;
      ghost var m, start, rets := mem, ind, returns_;
      l', nb, nr := l, [], [];
      assert nb + brk == brk && nr + rets == rets;
      NothingStated(m, start, ss);
      var i := 0;
      while i < |ss|
        invariant i <= |ss| && Valid(base) && start <= ind == start + AllSize(ss[..i])
        invariant OpenList(mem, l', nb + brk, base, ind) && returns_ == nr + rets && (!inLoop ==> nb == [] && l' == l)
        invariant IsAll(mem, ss[..i], start, Open(Elements(nb)), Open(Elements(nr)))
        invariant Above(m, mem, start) && Accounted(mem, start, nb + nr) && New(nb, nr, start)
      {
        ghost var m1, i1 := mem, ind;
        OpenUnder(m1, l', nb + brk, base, i1);
        OpenUnder(m1, rsym, nr + rets, base, i1);
        UnderParts(nb, brk, i1);
        UnderParts(nr, rets, i1);
        ghost var nb2, nr2;
        l', nb2, nr2 := Block(ss[i], l', nb + brk, base, inLoop);
        StatementAdded(m, m1, mem, ss, i, start, nb, nr, nb2, nr2);
        assert nb2 + (nb + brk) == (nb2 + nb) + brk && nr2 + (nr + rets) == (nr2 + nr) + rets;
        nb, nr := nb2 + nb, nr2 + nr;
        i := i + 1;
      }
      assert ss[..i] == ss;
    }

    /** The body of a function between prologue and epilogue; every return lands on the epilogue. */
    method Function(body: Stmt, prologue: Atom, epilogue: Atom) returns (start: nat, end: nat)
      requires ind > 0 && Below(mem, ind) && StmtParsed(body, false)
      modifies this
      ensures start == old(ind) + prologue.length && end == start + StmtSize(body) && ind == end + epilogue.length
      ensures Holds(mem, old(ind), AtomOp(prologue)) && Holds(mem, end, AtomOp(epilogue))
      ensures forall x :: IsCode(mem, body, start, At(x), At(end))
      ensures forall h :: h in mem.words && h >= old(ind) ==> h in mem.landed
      ensures Above(old(mem), mem, old(ind)) && Below(mem, ind) && rsym == 0
    {
      hide Above, OpenList, Accounted, Compiled, IsCode, Goes, PatchedTo, Grows, Holds, Below, Emitted;
      ghost var m, base := mem, ind;
      rsym := 0;
      returns_ := [];
      EmptyOpen(mem, base, ind);
      NothingAccounted(m, base);
      EmitOp(AtomOp(prologue), base);
      ghost var m1 := mem;
      AccountedOp(m, m1, base, base, AtomOp(prologue));
      start := ind;
      EmptyOpen(mem, base, ind);
      ghost var l, nb, nr;
      l, nb, nr := Block(body, 0, [], base, false);
      ghost var m2 := mem;
      end := ind;
      CompiledAbove(m1, m2, body, start, nb, nr);
      assert nr + [] == nr;
      var t := rsym;
      rsym := 0;
      returns_ := [];
      EmptyOpen(mem, base, ind);
      Gsym(t, nr, base);
      ghost var m3 := mem;
      Narrowed(m2, t, nr, base, start, end);
      PatchedAbove(m2, nr, end, t, start, end);
      EmitOp(AtomOp(epilogue), base);
      FunctionDone(m, m1, m2, m3, mem, body, base, start, end, prologue, epilogue, nr);
    }
  }

  /** Where the body of a for loop jumps back to: the step, or the test. */
  function BackTo(s: Stmt, at: nat): nat
    requires s.For?
  {
    var top := at + OptionalSize(s.init);
    if s.step.Some? then top + TestSize(s.test) + 5 else top
  }

  /** A for loop up to its body. */
  ghost predicate IsHead(mem: Memory, s: Stmt, at: nat, exit: Dest)
    requires s.For?
  {
    var top := at + OptionalSize(s.init);
    var mid, start := top + TestSize(s.test), at + HeadSize(s);
    && IsOptional(mem, s.init, at) && IsTest(mem, s.test, top, exit)
    && (s.step.Some? ==> IsJump(mem, mid, At(start)) && IsExpr(mem, s.step.value, mid + 5) && IsJump(mem, start - 5, At(top)))
  }

  /** What a statement's code is, relative to the memory before it. */
  ghost predicate Compiled(m: Memory, n: Memory, s: Stmt, at: nat, nb: seq<nat>, nr: seq<nat>) {
    && IsCode(n, s, at, Open(Elements(nb)), Open(Elements(nr)))
    && Above(m, n, at) && Accounted(n, at, nb + nr) && New(nb, nr, at)
  }

  lemma CompiledAbove(m: Memory, n: Memory, s: Stmt, at: nat, nb: seq<nat>, nr: seq<nat>)
    requires Compiled(m, n, s, at, nb, nr)
    ensures Above(m, n, at) && New(nb, nr, at)
  {
  }

  ghost predicate Under(holes: seq<nat>, ind: nat) { forall h :: h in holes ==> h < ind }

  lemma OpenUnder(m: Memory, t: int, holes: seq<nat>, from: nat, ind: nat)
    requires OpenList(m, t, holes, from, ind)
    ensures From(holes, from) && Under(holes, ind)
  {
  }

  /** A list made in between has nothing in common with what is older and what is newer. */
  lemma ApartFrom(newer: seq<nat>, older: seq<nat>, holes: seq<nat>, lo: nat, hi: nat)
    requires From(newer, hi) && Under(older, lo) && From(holes, lo) && Under(holes, hi)
    ensures Apart(newer + older, holes) && Apart(holes, newer + older)
  {
  }

  /** After a list has been patched, what was in it is accounted for. */
  lemma AccountedPatched(m1: Memory, m2: Memory, n: Memory, from: nat, mid: nat, holes: seq<nat>, rest: seq<nat>, x: nat)
    requires Accounted(m1, from, holes) && Above(m1, m2, mid) && Accounted(m2, mid, rest) && from <= mid
    requires n == PatchedTo(m2, holes, x)
    ensures Accounted(n, from, rest)
  {
    AccountedMore(m1, m2, from, mid, holes, rest);
  }

  lemma NewLower(nb: seq<nat>, nr: seq<nat>, lo: nat, hi: nat)
    requires New(nb, nr, hi) && lo <= hi
    ensures New(nb, nr, lo)
  {
  }

  lemma GrowsSelf(m: Memory)
    ensures Grows(m, m)
  {
  }

  lemma OpenBecomes(b: Memory, holes: set<nat>, more: set<nat>)
    requires holes <= more
    ensures Becomes(b, Open(holes), Open(more))
  {
  }

  lemma IfThenDone(
      m: Memory, m1: Memory, m2: Memory, n: Memory, s: Stmt, start: nat, i1: nat, i2: nat,
      ha: seq<nat>, nb: seq<nat>, nr: seq<nat>)
    requires s.If? && s.no.None? && i1 == start + ExprSize(s.cond) + 8 && i2 == i1 + StmtSize(s.yes)
    requires IsTest(m1, Some(s.cond), start, Open(Elements(ha))) && Above(m, m1, start) && Accounted(m1, start, ha)
    requires Compiled(m1, m2, s.yes, i1, nb, nr)
    requires n == PatchedTo(m2, ha, i2) && Above(m2, n, start) && forall h :: h in ha ==> Goes(n, h, At(i2))
    ensures Compiled(m, n, s, start, nb, nr)
  {
    hide Above, Grows, Accounted, IsTest, Goes, PatchedTo, New, Elements, Becomes, StmtSize, ExprSize;
    AboveTrans(m, m1, m2, start, i1);
    AboveTrans(m, m2, n, start, start);
    AboveGrows(m1, m2, i1);
    AboveGrows(m2, n, start);
    GrowsTrans(m1, m2, n);
    GrowsSelf(n);
    BecomesPatched(n, n, ha, i2);
    TestLater(m1, n, Some(s.cond), start, Open(Elements(ha)), At(i2));
    OpenBecomes(n, Elements(nb), Elements(nb));
    OpenBecomes(n, Elements(nr), Elements(nr));
    CodeLater(m2, n, s.yes, i1, Open(Elements(nb)), Open(Elements(nr)), Open(Elements(nb)), Open(Elements(nr)));
    AccountedPatched(m1, m2, n, start, i1, ha, nb + nr, i2);
    NewLower(nb, nr, start, i1);
    SizesOf(s);
  }

  lemma SizesOf(s: Stmt)
    ensures s.If? ==> StmtSize(s) == ExprSize(s.cond) + 8 + StmtSize(s.yes) + if s.no.Some? then 5 + StmtSize(s.no.value) else 0
    ensures s.While? ==> StmtSize(s) == ExprSize(s.cond) + 8 + StmtSize(s.body) + 5
    ensures s.For? ==> StmtSize(s) == HeadSize(s) + StmtSize(s.body) + 5
  {
  }

  /** The list of a loop has nothing in common with the returns nor with the breaks of an outer loop. */
  lemma LoopApart(inner: seq<nat>, nr: seq<nat>, ha: seq<nat>, rets: seq<nat>, brk: seq<nat>, start: nat, i1: nat)
    requires New(inner, nr, i1) && From(ha, start) && Under(ha, i1) && Under(rets, start) && Under(brk, start) && start <= i1
    ensures Apart(nr + rets, inner + ha) && Apart(brk, inner + ha) && From(inner + ha, start)
  {
  }

  lemma NewJoin(nb2: seq<nat>, nr2: seq<nat>, nb1: seq<nat>, nr1: seq<nat>, hi: nat, lo: nat)
    requires New(nb2, nr2, hi) && New(nb1, nr1, lo) && lo <= hi && Under(nb1, hi) && Under(nr1, hi)
    ensures New(nb2 + nb1, nr2 + nr1, lo)
  {
  }

  lemma AccountedSub(m: Memory, from: nat, a: seq<nat>, b: seq<nat>)
    requires Accounted(m, from, a) && forall h :: h in a ==> h in b || h in m.landed
    ensures Accounted(m, from, b)
  {
  }

  lemma IfElseAccounts(
      m1: Memory, m2: Memory, m3: Memory, m4: Memory, m5: Memory, n: Memory, start: nat, i1: nat, i2: nat, i3: nat, i5: nat,
      j: nat, ha: seq<nat>, nb1: seq<nat>, nr1: seq<nat>, nb2: seq<nat>, nr2: seq<nat>)
    requires Accounted(m1, start, ha) && Above(m1, m2, i1) && Accounted(m2, i1, nb1 + nr1) && start <= i1 <= i2 <= i3
    requires m3 == Linked(m2, i2, JumpOp, 0) && j == i2 + 1 && m4 == PatchedTo(m3, ha, i3)
    requires Above(m4, m5, i3) && Accounted(m5, i3, nb2 + nr2) && n == PatchedTo(m5, [j], i5)
    ensures Accounted(n, start, (nb2 + nb1) + (nr2 + nr1))
  {
    AccountedMore(m1, m2, start, i1, ha, nb1 + nr1);
    var a := [j] + (nb1 + nr1);
    assert Accounted(m4, start, a);
    AccountedMore(m4, m5, start, i3, a, nb2 + nr2);
  }

  lemma IfElseDone(
      m: Memory, m1: Memory, m2: Memory, m3: Memory, m4: Memory, m5: Memory, n: Memory, s: Stmt,
      start: nat, i1: nat, i2: nat, i3: nat, i5: nat, j: nat,
      ha: seq<nat>, nb1: seq<nat>, nr1: seq<nat>, nb2: seq<nat>, nr2: seq<nat>)
    requires s.If? && s.no.Some? && i1 == start + ExprSize(s.cond) + 8 && i2 == i1 + StmtSize(s.yes)
    requires i3 == i2 + 5 && i5 == i3 + StmtSize(s.no.value) && j == i2 + 1
    requires IsTest(m1, Some(s.cond), start, Open(Elements(ha))) && Above(m, m1, start) && Accounted(m1, start, ha)
    requires Compiled(m1, m2, s.yes, i1, nb1, nr1) && Under(nb1, i2) && Under(nr1, i2)
    requires m3 == Linked(m2, i2, JumpOp, 0) && Above(m2, m3, i2) && Holds(m3, i2, JumpOp)
    requires m4 == PatchedTo(m3, ha, i3) && Above(m3, m4, start) && forall h :: h in ha ==> Goes(m4, h, At(i3))
    requires Compiled(m4, m5, s.no.value, i3, nb2, nr2)
    requires n == PatchedTo(m5, [j], i5) && Above(m5, n, i2) && forall h :: h in [j] ==> Goes(n, h, At(i5))
    ensures Compiled(m, n, s, start, nb2 + nb1, nr2 + nr1)
  {
    hide Above, Grows, Accounted, IsTest, Goes, PatchedTo, New, Elements, Becomes, StmtSize, ExprSize, Linked, Holds, Under;
    IfElseAccounts(m1, m2, m3, m4, m5, n, start, i1, i2, i3, i5, j, ha, nb1, nr1, nb2, nr2);
    IfElseAbove(m, m1, m2, m3, m4, m5, n, start, i1, i2, i3);
    var nb, nr := Elements(nb2 + nb1), Elements(nr2 + nr1);
    BecomesPatched(m4, n, ha, i3);
    TestLater(m1, n, Some(s.cond), start, Open(Elements(ha)), At(i3));
    JoinedBecomes(n, nb2, nb1);
    JoinedBecomes(n, nr2, nr1);
    CodeLater(m2, n, s.yes, i1, Open(Elements(nb1)), Open(Elements(nr1)), Open(nb), Open(nr));
    CodeLater(m5, n, s.no.value, i3, Open(Elements(nb2)), Open(Elements(nr2)), Open(nb), Open(nr));
    HoldsLater(m3, n, i2, JumpOp);
    assert j in [j];
    UnderMore(nb1, i2, i3);
    UnderMore(nr1, i2, i3);
    NewJoin(nb2, nr2, nb1, nr1, i3, i1);
    NewLower(nb2 + nb1, nr2 + nr1, start, i1);
    SizesOf(s);
  }

  lemma UnderParts(a: seq<nat>, b: seq<nat>, x: nat)
    requires Under(a + b, x)
    ensures Under(a, x)
  {
    forall h | h in a ensures h < x {
      assert h in a + b;
    }
  }

  lemma UnderMore(holes: seq<nat>, lo: nat, hi: nat)
    requires Under(holes, lo) && lo <= hi
    ensures Under(holes, hi)
  {
  }

  lemma JoinedBecomes(m: Memory, a: seq<nat>, b: seq<nat>)
    ensures Becomes(m, Open(Elements(a)), Open(Elements(a + b))) && Becomes(m, Open(Elements(b)), Open(Elements(a + b)))
  {
  }

  lemma IfElseAbove(
      m: Memory, m1: Memory, m2: Memory, m3: Memory, m4: Memory, m5: Memory, n: Memory, start: nat, i1: nat, i2: nat, i3: nat)
    requires start <= i1 <= i2 <= i3
    requires Above(m, m1, start) && Above(m1, m2, i1) && Above(m2, m3, i2) && Above(m3, m4, start)
    requires Above(m4, m5, i3) && Above(m5, n, i2)
    ensures Above(m, n, start) && Grows(m1, n) && Grows(m2, n) && Grows(m3, n) && Grows(m4, n) && Grows(m5, n)
  {
    hide Above, Grows;
    AboveTrans(m, m1, m2, start, i1);
    AboveTrans(m, m2, m3, start, i2);
    AboveTrans(m, m3, m4, start, start);
    AboveTrans(m, m4, m5, start, i3);
    AboveTrans(m, m5, n, start, i2);
    AboveGrows(m1, m2, i1);
    AboveGrows(m2, m3, i2);
    AboveGrows(m3, m4, start);
    AboveGrows(m4, m5, i3);
    AboveGrows(m5, n, i2);
    GrowsTrans(m4, m5, n);
    GrowsTrans(m3, m4, n);
    GrowsTrans(m2, m3, n);
    GrowsTrans(m1, m2, n);
  }

  lemma WhileDone(
      m: Memory, m1: Memory, m2: Memory, m3: Memory, n: Memory, s: Stmt, start: nat, i1: nat, i2: nat, i3: nat,
      ha: seq<nat>, inner: seq<nat>, nr: seq<nat>)
    requires s.While? && i1 == start + ExprSize(s.cond) + 8 && i2 == i1 + StmtSize(s.body) && i3 == i2 + 5
    requires IsTest(m1, Some(s.cond), start, Open(Elements(ha))) && Above(m, m1, start) && Accounted(m1, start, ha)
    requires Compiled(m1, m2, s.body, i1, inner, nr)
    requires m3 == LinkedLanded(m2, i2, JumpOp, start - i2 - 5) && Above(m2, m3, i2)
    requires n == PatchedTo(m3, inner + ha, i3) && Above(m3, n, start) && forall h :: h in inner + ha ==> Goes(n, h, At(i3))
    ensures Compiled(m, n, s, start, [], nr)
  {
    hide Above, Grows, Accounted, IsTest, Goes, PatchedTo, New, Elements, Becomes, StmtSize, ExprSize, LinkedLanded, Holds;
    LoopAccounts(m1, m2, m3, n, start, i1, i2, i3, start - i2 - 5, ha, inner, nr);
    LoopAbove(m, m1, m2, m3, n, start, i1, i2);
    GrowsSelf(n);
    BecomesPatched(n, n, ha, i3);
    BecomesPatched(n, n, inner, i3);
    TestLater(m1, n, Some(s.cond), start, Open(Elements(ha)), At(i3));
    OpenBecomes(n, Elements(nr), Elements(nr));
    CodeLater(m2, n, s.body, i1, Open(Elements(inner)), Open(Elements(nr)), At(i3), Open(Elements(nr)));
    LandedGoes(m2, i2, JumpOp, start - i2 - 5);
    BecomesSelf(n, start);
    JumpLater(m3, n, i2, At(start), At(start));
    OnlyReturns(inner, nr, i1, start);
    SizesOf(s);
  }

  lemma OnlyReturns(inner: seq<nat>, nr: seq<nat>, i1: nat, start: nat)
    requires New(inner, nr, i1) && start <= i1
    ensures New([], nr, start)
  {
  }

  lemma LoopAccounts(
      m1: Memory, m2: Memory, m3: Memory, n: Memory, start: nat, i1: nat, i2: nat, i3: nat, d: int,
      ha: seq<nat>, inner: seq<nat>, nr: seq<nat>)
    requires Accounted(m1, start, ha) && Above(m1, m2, i1) && Accounted(m2, i1, inner + nr) && start <= i1 <= i2
    requires m3 == LinkedLanded(m2, i2, JumpOp, d) && n == PatchedTo(m3, inner + ha, i3)
    ensures Accounted(n, start, [] + nr)
  {
    AccountedMore(m1, m2, start, i1, ha, inner + nr);
  }

  lemma LoopAbove(m: Memory, m1: Memory, m2: Memory, m3: Memory, n: Memory, start: nat, i1: nat, i2: nat)
    requires start <= i1 <= i2
    requires Above(m, m1, start) && Above(m1, m2, i1) && Above(m2, m3, i2) && Above(m3, n, start)
    ensures Above(m, n, start) && Grows(m1, n) && Grows(m2, n) && Grows(m3, n)
  {
    hide Above, Grows;
    AboveTrans(m, m1, m2, start, i1);
    AboveTrans(m, m2, m3, start, i2);
    AboveTrans(m, m3, n, start, start);
    AboveGrows(m1, m2, i1);
    AboveGrows(m2, m3, i2);
    AboveGrows(m3, n, start);
    GrowsTrans(m2, m3, n);
    GrowsTrans(m1, m2, n);
  }

  function HeadSize(s: Stmt): nat
    requires s.For?
  {
    OptionalSize(s.init) + TestSize(s.test) + if s.step.Some? then 10 + ExprSize(s.step.value) else 0
  }

  lemma EvalDone(m: Memory, n: Memory, s: Stmt, at: nat)
    requires (s.Eval? && IsExpr(n, s.e, at)) || s.Empty?
    requires Above(m, n, at) && Accounted(n, at, [])
    ensures Compiled(m, n, s, at, [], [])
  {
  }

  lemma BreakDone(m: Memory, n: Memory, at: nat, l: int, h: nat)
    requires n == Linked(m, at, JumpOp, l) && h == at + 1 && Above(m, n, at) && Holds(n, at, JumpOp)
    requires Accounted(m, at, [])
    ensures Compiled(m, n, Break, at, [h], [])
  {
    assert h in [h] && h in [h] + [];
  }

  lemma ReturnDone(m: Memory, m1: Memory, n: Memory, e: Option<Expr>, at: nat, mid: nat, h: nat)
    requires mid == at + OptionalSize(e) && h == mid + 1
    requires Above(m, m1, at) && Accounted(m1, at, []) && IsOptional(m1, e, at)
    requires exists t :: n == Linked(m1, mid, JumpOp, t)
    requires Above(m1, n, mid) && Holds(n, mid, JumpOp)
    ensures Compiled(m, n, Return(e), at, [], [h])
  {
    AboveTrans(m, m1, n, at, mid);
    AboveGrows(m1, n, mid);
    OptionalLater(m1, n, e, at);
    assert h in [h] && h in [] + [h];
  }

  lemma BlockDone(m: Memory, n: Memory, ss: seq<Stmt>, at: nat, nb: seq<nat>, nr: seq<nat>)
    requires IsAll(n, ss, at, Open(Elements(nb)), Open(Elements(nr)))
    requires Above(m, n, at) && Accounted(n, at, nb + nr) && New(nb, nr, at)
    ensures Compiled(m, n, Block(ss), at, nb, nr)
  {
  }

  ghost predicate New(nb: seq<nat>, nr: seq<nat>, from: nat) { From(nb, from) && From(nr, from) && Apart(nb, nr) }

  predicate StmtParsed(s: Stmt, inLoop: bool)
    decreases s
  {
    match s
    case Eval(e) => Parsed(e)
    case Empty => true
    case If(c, yes, no) => Parsed(c) && StmtParsed(yes, inLoop) && (no.Some? ==> StmtParsed(no.value, inLoop))
    case While(c, body) => Parsed(c) && StmtParsed(body, true)
    case For(init, test, step, body) =>
      && (init.Some? ==> Parsed(init.value)) && (test.Some? ==> Parsed(test.value)) && (step.Some? ==> Parsed(step.value))
      && StmtParsed(body, true)
    case Break => inLoop
    case Return(e) => e.Some? ==> Parsed(e.value)
    case Block(ss) => forall i :: 0 <= i < |ss| ==> StmtParsed(ss[i], inLoop)
  }

  lemma EmptyOpen(m: Memory, base: nat, ind: nat)
    ensures OpenList(m, 0, [], base, ind)
  {
  }

  lemma TestDone(m: Memory, m1: Memory, n: Memory, e: Expr, start: nat, ind1: nat, a: nat)
    requires Above(m, m1, start) && IsExpr(m1, e, start) && Accounted(m1, start, []) && ind1 == start + ExprSize(e)
    requires n == Linked(m1, ind1, TestOp(0), 0) && Above(m1, n, ind1) && Holds(n, ind1, TestOp(0)) && a == ind1 + 4
    ensures IsTest(n, Some(e), start, Open(Elements([a]))) && Above(m, n, start) && Accounted(n, start, [a]) && From([a], start)
  {
    hide IsExpr, ExprSize;
    AboveTrans(m, m1, n, start, ind1);
    AboveExpr(m1, n, e, start, ind1);
    assert a in [a];
  }

  lemma OpenThreads(m: Memory, t: int, holes: seq<nat>, from: nat, ind: nat)
    requires OpenList(m, t, holes, from, ind)
    ensures Threads(m.words, t, holes) && Distinct(holes)
  {
  }

  lemma PartlyEnds(words: map<nat, int>, holes: seq<nat>, x: nat)
    ensures Partly(words, holes, 0, x) == words
    ensures Partly(words, holes, |holes|, x) == map h | h in words :: if h in holes then x - h - 4 else words[h]
  {
    assert holes[..|holes|] == holes;
  }

  /** What the parser builds: a chain has an operand. */
  predicate Parsed(e: Expr)
    decreases e
  {
    match e
    case Plain(_) => true
    case Then(x, y) => Parsed(x) && Parsed(y)
    case Logic(t, es) => t < 2 && |es| > 0 && AllParsed(es)
  }

  predicate AllParsed(es: seq<Expr>)
    decreases es
  {
    forall i :: 0 <= i < |es| ==> Parsed(es[i])
  }

  /** Every operand from a place on is patched or in the list. */
  ghost predicate Accounted(m: Memory, from: nat, holes: seq<nat>) {
    forall h :: h in m.words && h >= from ==> h in m.landed || h in holes
  }

  ghost predicate From(holes: seq<nat>, from: nat) { forall h :: h in holes ==> h > from }

  lemma NothingYet(m: Memory, t: nat, base: nat, ind: nat)
    ensures OpenList(m, 0, [], base, ind) && IsOperands(m, t, [], ind, Open({})) && Elements([]) == {}
    ensures Above(m, m, ind) && OperandsSize([]) == 0
  {
  }

  lemma NothingAccounted(m: Memory, ind: nat)
    requires Below(m, ind)
    ensures Accounted(m, ind, []) && Above(m, m, ind)
  {
  }

  lemma AccountedOp(m: Memory, n: Memory, from: nat, at: nat, op: Op)
    requires n == Emitted(m, at, op) && Accounted(m, from, [])
    ensures Accounted(n, from, [])
  {
  }

  /** Accounts of two pieces of code, one after the other. */
  lemma AccountedMore(m: Memory, n: Memory, from: nat, mid: nat, a: seq<nat>, b: seq<nat>)
    requires Accounted(m, from, a) && Above(m, n, mid) && Accounted(n, mid, b) && from <= mid
    ensures Accounted(n, from, b + a)
  {
  }

  lemma NoHoles(m: Memory, from: nat)
    requires Accounted(m, from, [] + [])
    ensures Accounted(m, from, [])
  {
  }

  lemma AccountedOperand(m1: Memory, m2: Memory, n: Memory, from: nat, ind1: nat, ind2: nat, op: Op, holes: seq<nat>)
    requires Jumps(op) && Accounted(m1, from, holes) && Above(m1, m2, ind1) && Accounted(m2, ind1, []) && from <= ind1 <= ind2
    requires exists t :: n == Linked(m2, ind2, op, t)
    ensures Accounted(n, from, [HoleOf(ind2, op)] + holes)
  {
    AccountedMore(m1, m2, from, ind1, holes, []);
    assert [] + holes == holes;
  }

  lemma AboveExpr(m: Memory, n: Memory, e: Expr, at: nat, from: nat)
    requires Above(m, n, from) && IsExpr(m, e, at)
    ensures IsExpr(n, e, at)
  {
    ExprLater(m, n, e, at);
  }

  lemma {:induction false} OperandsSnoc(m: Memory, t: nat, es: seq<Expr>, i: nat, at: nat, d: Dest)
    requires i < |es| && IsOperands(m, t, es[..i], at, d)
    requires var last := at + OperandsSize(es[..i]);
      IsExpr(m, es[i], last) && Holds(m, last + ExprSize(es[i]), TestOp(t)) && Goes(m, last + ExprSize(es[i]) + 4, d)
    ensures IsOperands(m, t, es[..i + 1], at, d)
    ensures OperandsSize(es[..i + 1]) == OperandsSize(es[..i]) + ExprSize(es[i]) + 8
    decreases i
  {
    hide IsExpr, ExprSize, Holds, Goes;
    if i > 0 {
      assert es[..i][1..] == es[1..][..i - 1] && es[..i + 1][1..] == es[1..][..i];
      OperandsSnoc(m, t, es[1..], i - 1, at + ExprSize(es[0]) + 8, d);
    } else {
      assert es[..1][1..] == [];
    }
  }

  /** One more operand and its test. */
  lemma OperandAdded(
      m: Memory, m1: Memory, m2: Memory, n: Memory, t: nat, es: seq<Expr>, i: nat, start: nat, holes: seq<nat>, s: nat)
    requires i < |es| && IsOperands(m1, t, es[..i], start, Open(Elements(holes)))
    requires var ind1 := start + OperandsSize(es[..i]); var ind2 := ind1 + ExprSize(es[i]);
      && Above(m, m1, start) && Above(m1, m2, ind1) && Above(m2, n, ind2)
      && IsExpr(m2, es[i], ind1) && Holds(n, ind2, TestOp(t)) && s == ind2 + 4
    ensures IsOperands(n, t, es[..i + 1], start, Open(Elements([s] + holes)))
    ensures Above(m, n, start)
    ensures OperandsSize(es[..i + 1]) == OperandsSize(es[..i]) + ExprSize(es[i]) + 8
  {
    hide IsExpr, IsOperands, Above, Holds, ExprSize, OperandsSize;
    var ind1 := start + OperandsSize(es[..i]);
    AboveTrans(m1, m2, n, ind1, ind1 + ExprSize(es[i]));
    AboveTrans(m, m1, n, start, ind1);
    AboveGrows(m1, n, ind1);
    AboveGrows(m2, n, ind1 + ExprSize(es[i]));
    OperandsLater(m1, n, t, es[..i], start, Open(Elements(holes)), Open(Elements([s] + holes)));
    ExprLater(m2, n, es[i], ind1);
    assert s in [s] + holes;
    OperandsSnoc(n, t, es, i, start, Open(Elements([s] + holes)));
  }

  lemma AboveGrows(a: Memory, b: Memory, from: nat)
    requires Above(a, b, from)
    ensures Grows(a, b)
  {
  }

  /** Jumps emitted since a moment are not among the returns of before. */
  lemma ReturnsApart(m: Memory, returns_: seq<nat>, t: int, base: nat, start: nat, holes: seq<nat>)
    requires OpenList(m, t, returns_, base, start) && From(holes, start)
    ensures Apart(returns_, holes)
  {
  }

  lemma Narrowed(m: Memory, t: int, holes: seq<nat>, base: nat, from: nat, ind: nat)
    requires OpenList(m, t, holes, base, ind) && From(holes, from)
    ensures OpenList(m, t, holes, from, ind)
  {
  }

  lemma GrowsTrans(a: Memory, b: Memory, c: Memory)
    requires Grows(a, b) && Grows(b, c)
    ensures Grows(a, c)
  {
  }

  lemma HoldsLater(a: Memory, b: Memory, at: nat, op: Op)
    requires Grows(a, b) && Holds(a, at, op)
    ensures Holds(b, at, op)
  {
  }

  /** The end of a chain: load, jump over, land, load. */
  lemma LogicDone(
      m: Memory, m1: Memory, m2: Memory, m3: Memory, m4: Memory, n: Memory,
      t: nat, es: seq<Expr>, start: nat, end: nat, holes: seq<nat>)
    requires |es| != 1 && end == start + OperandsSize(es) && t < 2
    requires IsOperands(m1, t, es, start, Open(Elements(holes))) && Accounted(m1, start, holes) && Above(m, m1, start)
    requires m2 == Emitted(m1, end, LoadOp(1 - t)) && Above(m1, m2, end)
    requires m3 == LinkedLanded(m2, end + 5, JumpOp, 5) && Above(m2, m3, end + 5)
    requires m4 == PatchedTo(m3, holes, end + 10) && Above(m3, m4, start)
    requires forall h :: h in holes ==> Goes(m4, h, At(end + 10))
    requires n == Emitted(m4, end + 10, LoadOp(t)) && Above(m4, n, end + 10)
    ensures IsExpr(n, Logic(t, es), start) && Above(m, n, start) && Accounted(n, start, [])
  {
    hide Above, Grows, IsOperands, Accounted, Holds, Goes, Emitted, LinkedLanded, PatchedTo, OperandsSize, Becomes, Elements;
    LogicAccounts(m1, m2, m3, m4, n, t, start, end, holes);
    LogicAbove(m, m1, m2, m3, m4, n, start, end);
    BecomesPatched(m4, n, holes, end + 10);
    OperandsLater(m1, n, t, es, start, Open(Elements(holes)), At(end + 10));
    EmittedHolds(m1, end, LoadOp(1 - t));
    EmittedHolds(m4, end + 10, LoadOp(t));
    HoldsLater(m2, n, end, LoadOp(1 - t));
    LandedGoes(m2, end + 5, JumpOp, 5);
    HoldsLater(m3, n, end + 5, JumpOp);
    BecomesSelf(n, end + 15);
    GoesLater(m3, n, end + 6, At(end + 15), At(end + 15));
  }

  lemma LogicAbove(m: Memory, m1: Memory, m2: Memory, m3: Memory, m4: Memory, n: Memory, start: nat, end: nat)
    requires start <= end && Above(m, m1, start) && Above(m1, m2, end) && Above(m2, m3, end + 5)
    requires Above(m3, m4, start) && Above(m4, n, end + 10)
    ensures Above(m, n, start) && Grows(m1, n) && Grows(m2, n) && Grows(m3, n) && Grows(m4, n)
  {
    hide Above, Grows;
    AboveTrans(m3, m4, n, start, end + 10);
    AboveTrans(m1, m2, m3, end, end + 5);
    AboveTrans(m, m1, m3, start, end);
    AboveTrans(m, m3, n, start, start);
    AboveGrows(m1, m3, end);
    AboveGrows(m2, m3, end + 5);
    AboveGrows(m3, n, start);
    AboveGrows(m4, n, end + 10);
    GrowsTrans(m1, m3, n);
    GrowsTrans(m2, m3, n);
  }

  /** A patched list has become a destination, and stays one. */
  lemma BecomesPatched(a: Memory, b: Memory, holes: seq<nat>, x: nat)
    requires Grows(a, b) && forall h :: h in holes ==> Goes(a, h, At(x))
    ensures Becomes(b, Open(Elements(holes)), At(x))
  {
    hide Grows, Goes;
    forall h | h in holes ensures Goes(b, h, At(x)) {
      BecomesSelf(b, x);
      GoesLater(a, b, h, At(x), At(x));
    }
  }

  lemma EmittedHolds(m: Memory, at: nat, op: Op)
    ensures Holds(Emitted(m, at, op), at, op)
  {
  }

  lemma LandedGoes(m: Memory, at: nat, op: Op, v: int)
    requires Jumps(op)
    ensures var n := LinkedLanded(m, at, op, v); var h := HoleOf(at, op);
      Holds(n, at, op) && (h + 4 + v >= 0 ==> Goes(n, h, At(h + 4 + v)))
  {
  }

  lemma LogicAccounts(m1: Memory, m2: Memory, m3: Memory, m4: Memory, n: Memory, t: nat, start: nat, end: nat, holes: seq<nat>)
    requires Accounted(m1, start, holes)
    requires m2 == Emitted(m1, end, LoadOp(1 - t)) && m3 == LinkedLanded(m2, end + 5, JumpOp, 5)
    requires m4 == PatchedTo(m3, holes, end + 10) && n == Emitted(m4, end + 10, LoadOp(t))
    ensures Accounted(n, start, [])
  {
  }

  lemma NoTest(m: Memory, at: nat)
    ensures IsTest(m, None, at, Open(Elements([])))
  {
  }

  lemma HeadFirst(m: Memory, m0: Memory, m1: Memory, s: Stmt, start: nat, top: nat, mid: nat, ha: seq<nat>)
    requires s.For? && top == start + OptionalSize(s.init) && mid == top + TestSize(s.test)
    requires Above(m, m0, start) && Accounted(m0, start, []) && IsOptional(m0, s.init, start)
    requires Above(m0, m1, top) && Accounted(m1, top, ha) && IsTest(m1, s.test, top, Open(Elements(ha)))
    ensures Above(m, m1, start) && Accounted(m1, start, ha)
    ensures IsOptional(m1, s.init, start)
  {
    hide Above, Accounted, IsExpr, IsTest;
    AboveTrans(m, m0, m1, start, top);
    AboveGrows(m0, m1, top);
    OptionalLater(m0, m1, s.init, start);
    AccountedMore(m0, m1, start, top, [], ha);
    assert ha + [] == ha;
  }

  lemma StepApart(ha: seq<nat>, rets: seq<nat>, t: nat, start: nat, mid: nat, ind: nat)
    requires Under(ha, mid) && Under(rets, start) && start <= mid < t
    ensures Apart(rets, [t]) && Apart(ha, [t]) && From([t], mid)
  {
  }

  lemma StepAccounts(
      m1: Memory, m2: Memory, m3: Memory, m4: Memory, n: Memory, start: nat, mid: nat, i3: nat, i4: nat, d: int, t: nat, ha: seq<nat>)
    requires Accounted(m1, start, ha) && m2 == Linked(m1, mid, JumpOp, 0) && t == mid + 1 && start <= mid <= i3
    requires Above(m2, m3, mid + 5) && Accounted(m3, mid + 5, [])
    requires m4 == LinkedLanded(m3, i3, JumpOp, d) && n == PatchedTo(m4, [t], i4)
    ensures Accounted(n, start, ha)
  {
    assert Accounted(m2, start, [t] + ha);
    AccountedMore(m2, m3, start, mid + 5, [t] + ha, []);
  }

  lemma HeadStep(
      m: Memory, m1: Memory, m2: Memory, m3: Memory, m4: Memory, n: Memory, s: Stmt,
      start: nat, top: nat, mid: nat, i3: nat, i4: nat, t: nat, ha: seq<nat>)
    requires s.For? && s.step.Some? && top == start + OptionalSize(s.init) && mid == top + TestSize(s.test)
    requires i3 == mid + 5 + ExprSize(s.step.value) && i4 == i3 + 5 && t == mid + 1
    requires Above(m, m1, start) && Accounted(m1, start, ha)
    requires IsOptional(m1, s.init, start) && IsTest(m1, s.test, top, Open(Elements(ha)))
    requires m2 == Linked(m1, mid, JumpOp, 0) && Above(m1, m2, mid) && Holds(m2, mid, JumpOp)
    requires Above(m2, m3, mid + 5) && Accounted(m3, mid + 5, []) && IsExpr(m3, s.step.value, mid + 5)
    requires m4 == LinkedLanded(m3, i3, JumpOp, top - i3 - 5) && Above(m3, m4, i3)
    requires n == PatchedTo(m4, [t], i4) && Above(m4, n, mid) && forall h :: h in [t] ==> Goes(n, h, At(i4))
    ensures IsHead(n, s, start, Open(Elements(ha))) && Above(m, n, start) && Accounted(n, start, ha)
  {
    hide Above, Grows, Accounted, IsExpr, IsTest, IsOptional, Goes, PatchedTo, Linked, LinkedLanded, Holds, Becomes, Elements, ExprSize;
    StepAccounts(m1, m2, m3, m4, n, start, mid, i3, i4, top - i3 - 5, t, ha);
    StepAbove(m, m1, m2, m3, m4, n, start, mid, i3);
    OptionalLater(m1, n, s.init, start);
    OpenBecomes(n, Elements(ha), Elements(ha));
    TestLater(m1, n, s.test, top, Open(Elements(ha)), Open(Elements(ha)));
    HoldsLater(m2, n, mid, JumpOp);
    assert t in [t];
    ExprLater(m3, n, s.step.value, mid + 5);
    LandedGoes(m3, i3, JumpOp, top - i3 - 5);
    BecomesSelf(n, top);
    JumpLater(m4, n, i3, At(top), At(top));
  }

  lemma StepAbove(m: Memory, m1: Memory, m2: Memory, m3: Memory, m4: Memory, n: Memory, start: nat, mid: nat, i3: nat)
    requires start <= mid && mid + 5 <= i3
    requires Above(m, m1, start) && Above(m1, m2, mid) && Above(m2, m3, mid + 5) && Above(m3, m4, i3) && Above(m4, n, mid)
    ensures Above(m, n, start) && Grows(m1, n) && Grows(m2, n) && Grows(m3, n) && Grows(m4, n)
  {
    hide Above, Grows;
    AboveTrans(m, m1, m2, start, mid);
    AboveTrans(m, m2, m3, start, mid + 5);
    AboveTrans(m, m3, m4, start, i3);
    AboveTrans(m, m4, n, start, mid);
    AboveGrows(m1, m2, mid);
    AboveGrows(m2, m3, mid + 5);
    AboveGrows(m3, m4, i3);
    AboveGrows(m4, n, mid);
    GrowsTrans(m3, m4, n);
    GrowsTrans(m2, m3, n);
    GrowsTrans(m1, m2, n);
  }

  lemma ForDone(
      m: Memory, m1: Memory, m2: Memory, m3: Memory, n: Memory, s: Stmt, start: nat, i1: nat, i2: nat, i3: nat,
      ha: seq<nat>, inner: seq<nat>, nr: seq<nat>)
    requires s.For? && i1 == start + HeadSize(s) && i2 == i1 + StmtSize(s.body) && i3 == i2 + 5
    requires IsHead(m1, s, start, Open(Elements(ha))) && Above(m, m1, start) && Accounted(m1, start, ha)
    requires Compiled(m1, m2, s.body, i1, inner, nr)
    requires m3 == LinkedLanded(m2, i2, JumpOp, BackTo(s, start) - i2 - 5) && Above(m2, m3, i2)
    requires n == PatchedTo(m3, inner + ha, i3) && Above(m3, n, start) && forall h :: h in inner + ha ==> Goes(n, h, At(i3))
    ensures Compiled(m, n, s, start, [], nr)
  {
    hide Above, Grows, Accounted, IsTest, IsExpr, IsJump, IsOptional, Goes, PatchedTo, New, Elements, Becomes, StmtSize, ExprSize, OptionalSize, TestSize, LinkedLanded, Holds;
    LoopAccounts(m1, m2, m3, n, start, i1, i2, i3, BackTo(s, start) - i2 - 5, ha, inner, nr);
    LoopAbove(m, m1, m2, m3, n, start, i1, i2);
    GrowsSelf(n);
    BecomesPatched(n, n, ha, i3);
    BecomesPatched(n, n, inner, i3);
    HeadLater(m1, n, s, start, Open(Elements(ha)), At(i3));
    OpenBecomes(n, Elements(nr), Elements(nr));
    CodeLater(m2, n, s.body, i1, Open(Elements(inner)), Open(Elements(nr)), At(i3), Open(Elements(nr)));
    LandedGoes(m2, i2, JumpOp, BackTo(s, start) - i2 - 5);
    BecomesSelf(n, BackTo(s, start));
    assert IsJump(m3, i2, At(BackTo(s, start))) by { JumpMade(m3, i2, BackTo(s, start)); }
    JumpLater(m3, n, i2, At(BackTo(s, start)), At(BackTo(s, start)));
    OnlyReturns(inner, nr, i1, start);
    SizesOf(s);
    ForAssembled(n, s, start, i3, Open(Elements([])), Open(Elements(nr)));
  }

  lemma JumpMade(m: Memory, at: nat, x: nat)
    requires Holds(m, at, JumpOp) && Goes(m, at + 1, At(x))
    ensures IsJump(m, at, At(x))
  {
  }

  lemma HeadLater(a: Memory, b: Memory, s: Stmt, at: nat, d: Dest, d': Dest)
    requires s.For? && Grows(a, b) && Becomes(b, d, d') && IsHead(a, s, at, d)
    ensures IsHead(b, s, at, d')
  {
    hide Grows, Becomes, IsTest, IsExpr, IsJump, IsOptional;
    var top := at + OptionalSize(s.init);
    var mid, start := top + TestSize(s.test), at + HeadSize(s);
    OptionalLater(a, b, s.init, at);
    TestLater(a, b, s.test, top, d, d');
    if s.step.Some? {
      BecomesSelf(b, start);
      BecomesSelf(b, top);
      JumpLater(a, b, mid, At(start), At(start));
      ExprLater(a, b, s.step.value, mid + 5);
      JumpLater(a, b, start - 5, At(top), At(top));
    }
  }

  lemma ForAssembled(n: Memory, s: Stmt, at: nat, end: nat, brk: Dest, ret: Dest)
    requires s.For? && end == at + StmtSize(s) && IsHead(n, s, at, At(end))
    requires IsCode(n, s.body, at + HeadSize(s), At(end), ret) && IsJump(n, end - 5, At(BackTo(s, at)))
    ensures IsCode(n, s, at, brk, ret)
  {
    hide IsTest, IsExpr, IsJump, IsOptional;
  }

  lemma NothingStated(m: Memory, at: nat, ss: seq<Stmt>)
    requires Below(m, at)
    ensures IsAll(m, ss[..0], at, Open(Elements([])), Open(Elements([]))) && AllSize(ss[..0]) == 0
    ensures Above(m, m, at) && Accounted(m, at, [] + []) && New([], [], at)
  {
  }

  lemma {:induction false} AllSnoc(m: Memory, ss: seq<Stmt>, i: nat, at: nat, brk: Dest, ret: Dest)
    requires i < |ss| && IsAll(m, ss[..i], at, brk, ret) && IsCode(m, ss[i], at + AllSize(ss[..i]), brk, ret)
    ensures IsAll(m, ss[..i + 1], at, brk, ret) && AllSize(ss[..i + 1]) == AllSize(ss[..i]) + StmtSize(ss[i])
    decreases i
  {
    hide IsCode, StmtSize;
    if i > 0 {
      assert ss[..i][1..] == ss[1..][..i - 1] && ss[..i + 1][1..] == ss[1..][..i];
      AllSnoc(m, ss[1..], i - 1, at + StmtSize(ss[0]), brk, ret);
    } else {
      assert ss[..1][1..] == [];
    }
  }

  lemma StatementAdded(
      m: Memory, m1: Memory, n: Memory, ss: seq<Stmt>, i: nat, start: nat, nb: seq<nat>, nr: seq<nat>, nb2: seq<nat>, nr2: seq<nat>)
    requires i < |ss| && IsAll(m1, ss[..i], start, Open(Elements(nb)), Open(Elements(nr)))
    requires Above(m, m1, start) && Accounted(m1, start, nb + nr) && New(nb, nr, start)
    requires var i1 := start + AllSize(ss[..i]); Compiled(m1, n, ss[i], i1, nb2, nr2) && Under(nb, i1) && Under(nr, i1)
    ensures var b, r := nb2 + nb, nr2 + nr;
      && IsAll(n, ss[..i + 1], start, Open(Elements(b)), Open(Elements(r)))
      && AllSize(ss[..i + 1]) == AllSize(ss[..i]) + StmtSize(ss[i])
      && Above(m, n, start) && Accounted(n, start, b + r) && New(b, r, start)
  {
    hide Above, Accounted, IsCode, IsAll, New, Elements, StmtSize, AllSize, Becomes, Grows, Under;
    var i1 := start + AllSize(ss[..i]);
    var b, r := Open(Elements(nb2 + nb)), Open(Elements(nr2 + nr));
    AboveTrans(m, m1, n, start, i1);
    AboveGrows(m1, n, i1);
    GrowsSelf(n);
    JoinedBecomes(n, nb2, nb);
    JoinedBecomes(n, nr2, nr);
    AllLater(m1, n, ss[..i], start, Open(Elements(nb)), Open(Elements(nr)), b, r);
    CodeLater(n, n, ss[i], i1, Open(Elements(nb2)), Open(Elements(nr2)), b, r);
    AllSnoc(n, ss, i, start, b, r);
    AccountedMore(m1, n, start, i1, nb + nr, nb2 + nr2);
    AccountedSub(n, start, (nb2 + nr2) + (nb + nr), (nb2 + nb) + (nr2 + nr));
    NewJoin(nb2, nr2, nb, nr, i1, start);
  }

  lemma FunctionDone(
      m: Memory, m1: Memory, m2: Memory, m3: Memory, n: Memory, body: Stmt, base: nat, start: nat, end: nat,
      prologue: Atom, epilogue: Atom, nr: seq<nat>)
    requires start == base + prologue.length && start <= end
    requires m1 == Emitted(m, base, AtomOp(prologue)) && Above(m, m1, base) && Accounted(m1, base, []) && Holds(m1, base, AtomOp(prologue))
    requires Compiled(m1, m2, body, start, [], nr) && m3 == PatchedTo(m2, nr, end) && Above(m2, m3, start)
    requires forall h :: h in nr ==> Goes(m3, h, At(end))
    requires n == Emitted(m3, end, AtomOp(epilogue)) && Above(m3, n, end) && Holds(n, end, AtomOp(epilogue))
    ensures forall x :: IsCode(n, body, start, At(x), At(end))
    ensures forall h :: h in n.words && h >= base ==> h in n.landed
    ensures Above(m, n, base) && Holds(n, base, AtomOp(prologue))
  {
    FunctionAccounts(m1, m2, m3, base, start, end, nr);
    hide Above, Grows, Accounted, Goes, PatchedTo, New, Elements, Becomes, Holds, IsCode;
    AboveTrans(m2, m3, n, start, end);
    AboveTrans(m1, m2, n, start, start);
    AboveTrans(m, m1, n, base, start);
    AboveGrows(m1, n, start);
    AboveGrows(m2, n, start);
    AboveGrows(m3, n, end);
    HoldsLater(m1, n, base, AtomOp(prologue));
    BecomesPatched(m3, n, nr, end);
    forall x ensures IsCode(n, body, start, At(x), At(end)) {
      BecomesNothing(n, x);
      CodeLater(m2, n, body, start, Open(Elements([])), Open(Elements(nr)), At(x), At(end));
    }
  }

  lemma BecomesNothing(m: Memory, x: nat)
    ensures Becomes(m, Open(Elements([])), At(x))
  {
  }

  lemma FunctionAccounts(m1: Memory, m2: Memory, m3: Memory, base: nat, start: nat, end: nat, nr: seq<nat>)
    requires Accounted(m1, base, []) && Above(m1, m2, start) && Accounted(m2, start, [] + nr) && base <= start
    requires m3 == PatchedTo(m2, nr, end)
    ensures forall h :: h in m3.words && h >= base ==> h in m3.landed
  {
    AccountedMore(m1, m2, base, start, [], [] + nr);
  }

  /** Breaks inside loops stay inside. */
  lemma {:induction false} NoStrayBreak<S>(sem: Meaning<S>, fuel: nat, s: Stmt, m: Machine<S>)
    requires StmtParsed(s, false) && Run(sem, fuel, s, m).Outcome?
    ensures !Run(sem, fuel, s, m).exit.Broke?
    decreases fuel, s, 1
  {
    match s
    case If(c, yes, no) =>
      var r := EvalExpr(sem, c, m);
      if r.acc != 0 { NoStrayBreak(sem, fuel, yes, r); } else if no.Some? { NoStrayBreak(sem, fuel, no.value, r); }
    case While(c, body) =>
      var r := EvalExpr(sem, c, m);
      if r.acc != 0 {
        var o := Run(sem, fuel, body, r);
        if o.exit.Through? { NoStrayBreak(sem, fuel - 1, s, o.m); }
      }
    case For(init, test, step, body) => NoStrayFor(sem, fuel, test, step, body, Optional(sem, init, m));
    case Block(ss) => NoStrayAll(sem, fuel, ss, m);
    case _ =>
  }

  lemma {:induction false} NoStrayFor<S>(sem: Meaning<S>, fuel: nat, test: Option<Expr>, step: Option<Expr>, body: Stmt, m: Machine<S>)
    requires RunFor(sem, fuel, test, step, body, m).Outcome?
    ensures !RunFor(sem, fuel, test, step, body, m).exit.Broke?
    decreases fuel, body, 2
  {
    var r := Optional(sem, test, m);
    if !(test.Some? && r.acc == 0) {
      var o := Run(sem, fuel, body, r);
      if o.exit.Through? { NoStrayFor(sem, fuel - 1, test, step, body, Optional(sem, step, o.m)); }
    }
  }

  lemma {:induction false} NoStrayAll<S>(sem: Meaning<S>, fuel: nat, ss: seq<Stmt>, m: Machine<S>)
    requires (forall i :: 0 <= i < |ss| ==> StmtParsed(ss[i], false)) && RunAll(sem, fuel, ss, m).Outcome?
    ensures !RunAll(sem, fuel, ss, m).exit.Broke?
    decreases fuel, ss
  {
    hide StmtParsed;
    if ss != [] {
      NoStrayBreak(sem, fuel, ss[0], m);
      var o := Run(sem, fuel, ss[0], m);
      if o.exit.Through? { NoStrayAll(sem, fuel, ss[1..], o.m); }
    }
  }

  /**
    One function from start to end: whenever the body, run as C runs it, comes to an end, the
    code emitted in one pass and patched comes to the epilogue in the same state.
   */
  lemma FunctionCorrect<S(!new)>(mem: Memory, sem: Meaning<S>, fuel: nat, body: Stmt, start: nat, m: Machine<S>)
    requires StmtParsed(body, false) && Run(sem, fuel, body, m).Outcome?
    requires IsCode(mem, body, start, At(0), At(start + StmtSize(body)))
    ensures Reaches(mem, sem, Cpu(start, m), Cpu(start + StmtSize(body), Run(sem, fuel, body, m).m))
  {
    hide Reaches, IsCode;
    NoStrayBreak(sem, fuel, body, m);
    StmtRuns(mem, sem, fuel, body, start, 0, start + StmtSize(body), m);
  }
}
