/**
  The source semantics without its fuel: what an expression, a statement or a call does is one
  outcome, however much fuel it is given, and obeys the usual rules of the language.
 */
module M2Rules {
  import opened Options
  import opened M2Word
  import opened M2Source

  // ----- more fuel changes no outcome -----

  lemma {:induction false} MoreExpr(fuel: nat, p: Program, fr: Frame, g: Globals, e: Expr)
    requires EvalExpr(fuel, p, fr, g, e).Value?
    ensures EvalExpr(fuel + 1, p, fr, g, e) == EvalExpr(fuel, p, fr, g, e)
    decreases fuel, e, 1
  {
    hide Apply, Read, Write, Unary, CallFun;
    match e
    case Paren(e1) => MoreExpr(fuel, p, fr, g, e1);
    case Assign(target, value) => MoreExpr(fuel, p, fr, g, value);
    case Un(op, e1) => MoreExpr(fuel, p, fr, g, e1);
    case Bin(op, l, r) =>
      MoreExpr(fuel, p, fr, g, l);
      var a := EvalExpr(fuel, p, fr, g, l);
      MoreExpr(fuel, p, a.fr, a.g, r);
    case Call(f, args) =>
      MoreArgs(fuel, p, fr, g, args);
      var a := EvalArgs(fuel, p, fr, g, args);
      MoreCall(fuel - 1, p, f, a.vs, a.g);
    case _ =>
  }

  lemma {:induction false} MoreArgs(fuel: nat, p: Program, fr: Frame, g: Globals, es: seq<Expr>)
    requires EvalArgs(fuel, p, fr, g, es).Values?
    ensures EvalArgs(fuel + 1, p, fr, g, es) == EvalArgs(fuel, p, fr, g, es)
    decreases fuel, es, 0
  {
    hide EvalExpr;
    if es != [] {
      MoreExpr(fuel, p, fr, g, es[0]);
      var a := EvalExpr(fuel, p, fr, g, es[0]);
      MoreArgs(fuel, p, a.fr, a.g, es[1..]);
    }
  }

  lemma {:induction false} MoreCall(fuel: nat, p: Program, f: string, vs: seq<Num>, g: Globals)
    requires CallFun(fuel, p, f, vs, g).Result?
    ensures CallFun(fuel + 1, p, f, vs, g) == CallFun(fuel, p, f, vs, g)
    decreases fuel, p, 2
  {
    hide ExecStmt;
    var d := FindFun(p, f).value;
    MoreStmt(fuel - 1, p, Frame(d.scope, M2Source.Bind(d.params, vs), [], None), g, d.body);
  }

  lemma {:induction false} MoreStmt(fuel: nat, p: Program, fr: Frame, g: Globals, s: Stmt)
    requires fr.pending.None? && ExecStmt(fuel, p, fr, g, s).Done?
    ensures ExecStmt(fuel + 1, p, fr, g, s) == ExecStmt(fuel, p, fr, g, s)
    decreases fuel, s, 1
  {
    hide ExecSeq, ExecExpr, ExecOpt, ExecWhile, ExecDo, ExecFor;
    match s
    case ExprS(e) => MoreExec(fuel, p, fr, g, e);
    case Block(body) => MoreSeq(fuel, p, fr, g, body);
    case Decl(x, init) => MoreOpt(fuel, p, fr.(pending := Some(x)), g, init);
    case If(c, t, e) =>
      MoreExec(fuel, p, fr, g, c);
      var a := ExecExpr(fuel, p, fr, g, c);
      if a.v.value != 0 {
        MoreStmt(fuel, p, a.fr, a.g, t);
      } else if e.Some? {
        MoreStmt(fuel, p, a.fr, a.g, e.value);
      }
    case While(_, _) => MoreWhile(fuel, p, fr, g, s);
    case DoWhile(_, _) => MoreDo(fuel, p, fr, g, s);
    case For(start, _, _, _) =>
      MoreOpt(fuel, p, fr, g, start);
      var a := ExecOpt(fuel, p, fr, g, start);
      MoreFor(fuel, p, a.fr, a.g, s);
    case Return(e) => MoreOpt(fuel, p, fr, g, e);
    case Break =>
  }

  lemma {:induction false} MoreExec(fuel: nat, p: Program, fr: Frame, g: Globals, e: Expr)
    requires ExecExpr(fuel, p, fr, g, e).Done?
    ensures ExecExpr(fuel + 1, p, fr, g, e) == ExecExpr(fuel, p, fr, g, e)
    decreases fuel, e, 2
  {
    hide EvalExpr;
    MoreExpr(fuel, p, fr, g, e);
  }

  lemma {:induction false} MoreOpt(fuel: nat, p: Program, fr: Frame, g: Globals, e: Option<Expr>)
    requires ExecOpt(fuel, p, fr, g, e).Done?
    ensures ExecOpt(fuel + 1, p, fr, g, e) == ExecOpt(fuel, p, fr, g, e)
    decreases fuel, e, 3
  {
    hide ExecExpr;
    if e.Some? { MoreExec(fuel, p, fr, g, e.value); }
  }

  lemma {:induction false} MoreWhile(fuel: nat, p: Program, fr: Frame, g: Globals, s: Stmt)
    requires s.While? && fr.pending.None? && ExecWhile(fuel, p, fr, g, s).Done?
    ensures ExecWhile(fuel + 1, p, fr, g, s) == ExecWhile(fuel, p, fr, g, s)
    decreases fuel, s, 0
  {
    hide ExecExpr, ExecStmt;
    MoreExec(fuel, p, fr, g, s.cond);
    var a := ExecExpr(fuel, p, fr, g, s.cond);
    if a.v.value != 0 {
      MoreStmt(fuel, p, a.fr, a.g, s.loop);
      var b := ExecStmt(fuel, p, a.fr, a.g, s.loop);
      if b.exit.Normal? { MoreWhile(fuel - 1, p, b.fr, b.g, s); }
    }
  }

  lemma {:induction false} MoreDo(fuel: nat, p: Program, fr: Frame, g: Globals, s: Stmt)
    requires s.DoWhile? && fr.pending.None? && ExecDo(fuel, p, fr, g, s).Done?
    ensures ExecDo(fuel + 1, p, fr, g, s) == ExecDo(fuel, p, fr, g, s)
    decreases fuel, s, 0
  {
    hide ExecExpr, ExecStmt;
    MoreStmt(fuel, p, fr, g, s.loop);
    var b := ExecStmt(fuel, p, fr, g, s.loop);
    if b.exit.Normal? {
      MoreExec(fuel, p, b.fr, b.g, s.cond);
      var a := ExecExpr(fuel, p, b.fr, b.g, s.cond);
      if a.v.value != 0 { MoreDo(fuel - 1, p, a.fr, a.g, s); }
    }
  }

  lemma {:induction false} MoreFor(fuel: nat, p: Program, fr: Frame, g: Globals, s: Stmt)
    requires s.For? && fr.pending.None? && ExecFor(fuel, p, fr, g, s).Done?
    ensures ExecFor(fuel + 1, p, fr, g, s) == ExecFor(fuel, p, fr, g, s)
    decreases fuel, s, 0
  {
    hide ExecExpr, ExecStmt;
    MoreExec(fuel, p, fr, g, s.cond);
    var a := ExecExpr(fuel, p, fr, g, s.cond);
    if a.v.value != 0 {
      MoreStmt(fuel, p, a.fr, a.g, s.loop);
      var b := ExecStmt(fuel, p, a.fr, a.g, s.loop);
      if b.exit.Normal? {
        MoreExec(fuel, p, b.fr, b.g, s.iter);
        var c := ExecExpr(fuel, p, b.fr, b.g, s.iter);
        MoreFor(fuel - 1, p, c.fr, c.g, s);
      }
    }
  }

  lemma {:induction false} MoreSeq(fuel: nat, p: Program, fr: Frame, g: Globals, ss: seq<Stmt>)
    requires fr.pending.None? && ExecSeq(fuel, p, fr, g, ss).Done?
    ensures ExecSeq(fuel + 1, p, fr, g, ss) == ExecSeq(fuel, p, fr, g, ss)
    decreases fuel, ss, 0
  {
    hide ExecStmt;
    if ss != [] {
      MoreStmt(fuel, p, fr, g, ss[0]);
      var a := ExecStmt(fuel, p, fr, g, ss[0]);
      if a.exit.Normal? { MoreSeq(fuel, p, a.fr, a.g, ss[1..]); }
    }
  }

  lemma {:induction false} RaiseExpr(a: nat, b: nat, p: Program, fr: Frame, g: Globals, e: Expr)
    requires a <= b && EvalExpr(a, p, fr, g, e).Value?
    ensures EvalExpr(b, p, fr, g, e) == EvalExpr(a, p, fr, g, e)
    ensures ExecExpr(b, p, fr, g, e) == Done(Normal, EvalExpr(a, p, fr, g, e).fr, EvalExpr(a, p, fr, g, e).g, EvalExpr(a, p, fr, g, e).v)
    decreases b - a
  {
    hide EvalExpr;
    if a < b {
      MoreExpr(a, p, fr, g, e);
      RaiseExpr(a + 1, b, p, fr, g, e);
    }
  }

  lemma {:induction false} RaiseStmt(a: nat, b: nat, p: Program, fr: Frame, g: Globals, s: Stmt)
    requires a <= b && fr.pending.None? && ExecStmt(a, p, fr, g, s).Done?
    ensures ExecStmt(b, p, fr, g, s) == ExecStmt(a, p, fr, g, s)
    decreases b - a
  {
    hide ExecStmt;
    if a < b {
      MoreStmt(a, p, fr, g, s);
      RaiseStmt(a + 1, b, p, fr, g, s);
    }
  }

  lemma {:induction false} RaiseSeq(a: nat, b: nat, p: Program, fr: Frame, g: Globals, ss: seq<Stmt>)
    requires a <= b && fr.pending.None? && ExecSeq(a, p, fr, g, ss).Done?
    ensures ExecSeq(b, p, fr, g, ss) == ExecSeq(a, p, fr, g, ss)
    decreases b - a
  {
    hide ExecSeq;
    if a < b {
      MoreSeq(a, p, fr, g, ss);
      RaiseSeq(a + 1, b, p, fr, g, ss);
    }
  }

  lemma {:induction false} RaiseCall(a: nat, b: nat, p: Program, f: string, vs: seq<Num>, g: Globals)
    requires a <= b && CallFun(a, p, f, vs, g).Result?
    ensures CallFun(b, p, f, vs, g) == CallFun(a, p, f, vs, g)
    decreases b - a
  {
    hide CallFun;
    if a < b {
      MoreCall(a, p, f, vs, g);
      RaiseCall(a + 1, b, p, f, vs, g);
    }
  }

  // ----- outcomes -----

  /** Evaluating e in fr and g gives v and leaves fr1 and g1. */
  ghost predicate Yields(p: Program, fr: Frame, g: Globals, e: Expr, v: Num, fr1: Frame, g1: Globals) {
    exists fuel: nat :: EvalExpr(fuel, p, fr, g, e) == Value(v, fr1, g1)
  }

  /** Running s in fr and g ends with o. */
  ghost predicate Runs(p: Program, fr: Frame, g: Globals, s: Stmt, o: Outcome)
    requires fr.pending.None?
  {
    o.Done? && exists fuel: nat :: ExecStmt(fuel, p, fr, g, s) == o
  }

  ghost predicate RunsAll(p: Program, fr: Frame, g: Globals, ss: seq<Stmt>, o: Outcome)
    requires fr.pending.None?
  {
    o.Done? && exists fuel: nat :: ExecSeq(fuel, p, fr, g, ss) == o
  }

  /** Calling f with the arguments vs ends with r. */
  ghost predicate Returns(p: Program, f: string, vs: seq<Num>, g: Globals, r: CallResult) {
    r.Result? && exists fuel: nat :: CallFun(fuel, p, f, vs, g) == r
  }

  function Max(a: nat, b: nat): (m: nat)
    ensures m >= a && m >= b
  {
    if a < b then b else a
  }

  /** Nothing has two outcomes. */
  lemma OneOutcome(p: Program, fr: Frame, g: Globals, s: Stmt, o: Outcome, q: Outcome)
    requires fr.pending.None? && Runs(p, fr, g, s, o) && Runs(p, fr, g, s, q)
    ensures o == q
  {
    hide ExecStmt;
    var a: nat :| ExecStmt(a, p, fr, g, s) == o;
    var b: nat :| ExecStmt(b, p, fr, g, s) == q;
    RaiseStmt(a, Max(a, b), p, fr, g, s);
    RaiseStmt(b, Max(a, b), p, fr, g, s);
  }

  // ----- the rules -----

  lemma VariableRule(p: Program, fr: Frame, g: Globals, x: string, v: Num)
    requires Read(fr, g, x) == Some(v)
    ensures Yields(p, fr, g, Var(x), v, fr, g)
  {
    assert EvalExpr(0, p, fr, g, Var(x)) == Value(v, fr, g);
  }

  lemma ConstantRule(p: Program, fr: Frame, g: Globals, n: Word)
    ensures Yields(p, fr, g, Const(n), Some(n), fr, g)
  {
    assert EvalExpr(0, p, fr, g, Const(n)) == Value(Some(n), fr, g);
  }

  /** The value of an assignment is what was stored. */
  lemma AssignRule(p: Program, fr: Frame, g: Globals, x: string, e: Expr, v: Num, fr1: Frame, g1: Globals, fr2: Frame, g2: Globals)
    requires Yields(p, fr, g, e, v, fr1, g1) && Write(fr1, g1, x, v) == Some((fr2, g2))
    ensures Yields(p, fr, g, Assign(LVal(x), e), v, fr2, g2)
  {
    hide Write;
    var a: nat :| EvalExpr(a, p, fr, g, e) == Value(v, fr1, g1);
    assert EvalExpr(a, p, fr, g, Assign(LVal(x), e)) == Value(v, fr2, g2);
  }

  /** The left operand is evaluated before the right one. */
  lemma BinaryRule(p: Program, fr: Frame, g: Globals, op: BinOp, l: Expr, r: Expr,
                   x: Word, fr1: Frame, g1: Globals, y: Word, fr2: Frame, g2: Globals, z: Word)
    requires Yields(p, fr, g, l, Some(x), fr1, g1) && Yields(p, fr1, g1, r, Some(y), fr2, g2)
    requires Apply(op, x, y) == Some(z)
    ensures Yields(p, fr, g, Bin(op, l, r), Some(z), fr2, g2)
  {
    hide Apply, EvalExpr;
    var a: nat :| EvalExpr(a, p, fr, g, l) == Value(Some(x), fr1, g1);
    var b: nat :| EvalExpr(b, p, fr1, g1, r) == Value(Some(y), fr2, g2);
    var m := Max(a, b);
    RaiseExpr(a, m, p, fr, g, l);
    RaiseExpr(b, m, p, fr1, g1, r);
    BinaryUnfold(m, p, fr, g, op, l, r, x, fr1, g1, y, fr2, g2, z);
  }

  lemma BinaryUnfold(fuel: nat, p: Program, fr: Frame, g: Globals, op: BinOp, l: Expr, r: Expr,
                     x: Word, fr1: Frame, g1: Globals, y: Word, fr2: Frame, g2: Globals, z: Word)
    requires EvalExpr(fuel, p, fr, g, l) == Value(Some(x), fr1, g1)
    requires EvalExpr(fuel, p, fr1, g1, r) == Value(Some(y), fr2, g2) && Apply(op, x, y) == Some(z)
    ensures EvalExpr(fuel, p, fr, g, Bin(op, l, r)) == Value(Some(z), fr2, g2)
  {
    hide Apply, Read, Write, Unary, EvalArgs, CallFun;
  }

  /** Two arguments, from left to right; the callee changes the globals only. */
  lemma CallRule(p: Program, fr: Frame, g: Globals, f: string, e0: Expr, e1: Expr,
                 x: Num, fr1: Frame, g1: Globals, y: Num, fr2: Frame, g2: Globals, r: CallResult)
    requires Yields(p, fr, g, e0, x, fr1, g1) && Yields(p, fr1, g1, e1, y, fr2, g2) && Returns(p, f, [x, y], g2, r)
    ensures Yields(p, fr, g, Call(f, [e0, e1]), r.v, fr2, r.g)
  {
    hide CallFun, EvalExpr, EvalArgs;
    var a: nat :| EvalExpr(a, p, fr, g, e0) == Value(x, fr1, g1);
    var b: nat :| EvalExpr(b, p, fr1, g1, e1) == Value(y, fr2, g2);
    var c: nat :| CallFun(c, p, f, [x, y], g2) == r;
    var m := Max(Max(a, b), c + 1);
    RaiseExpr(a, m, p, fr, g, e0);
    RaiseExpr(b, m, p, fr1, g1, e1);
    RaiseCall(c, m - 1, p, f, [x, y], g2);
    TwoArguments(m, p, fr, g, e0, e1);
    CallUnfold(m, p, fr, g, f, [e0, e1], [x, y], fr2, g2);
  }

  lemma TwoArguments(fuel: nat, p: Program, fr: Frame, g: Globals, e0: Expr, e1: Expr)
    requires EvalExpr(fuel, p, fr, g, e0).Value?
    requires var a := EvalExpr(fuel, p, fr, g, e0); EvalExpr(fuel, p, a.fr, a.g, e1).Value?
    ensures var a := EvalExpr(fuel, p, fr, g, e0); var b := EvalExpr(fuel, p, a.fr, a.g, e1);
      EvalArgs(fuel, p, fr, g, [e0, e1]) == Values([a.v, b.v], b.fr, b.g)
  {
    hide EvalExpr;
    var a := EvalExpr(fuel, p, fr, g, e0);
    var b := EvalExpr(fuel, p, a.fr, a.g, e1);
    assert [e0, e1][1..] == [e1] && [e1][1..] == [];
    assert EvalArgs(fuel, p, b.fr, b.g, []) == Values([], b.fr, b.g);
    assert EvalArgs(fuel, p, a.fr, a.g, [e1]) == Values([b.v] + [], b.fr, b.g);
    assert EvalArgs(fuel, p, fr, g, [e0, e1]) == Values([a.v] + [b.v], b.fr, b.g);
    assert [a.v] + [b.v] == [a.v, b.v];
  }

  lemma CallUnfold(fuel: nat, p: Program, fr: Frame, g: Globals, f: string, es: seq<Expr>, vs: seq<Num>, fr1: Frame, g1: Globals)
    requires fuel > 0 && EvalArgs(fuel, p, fr, g, es) == Values(vs, fr1, g1) && CallFun(fuel - 1, p, f, vs, g1).Result?
    ensures var r := CallFun(fuel - 1, p, f, vs, g1); EvalExpr(fuel, p, fr, g, Call(f, es)) == Value(r.v, fr1, r.g)
  {
    hide CallFun, EvalArgs, Read, Write, Unary, Apply;
  }

  /** A call runs the body with the arguments bound in order and no locals. */
  lemma BodyRule(p: Program, f: string, vs: seq<Num>, g: Globals, d: Fun, o: Outcome)
    requires FindFun(p, f) == Some(d) && |d.params| == |vs| && f != "main"
    requires Runs(p, Frame(d.scope, M2Source.Bind(d.params, vs), [], None), g, d.body, o) && !o.exit.Broke?
    ensures Returns(p, f, vs, g, Result(if o.exit.Returned? then o.v else None, o.g, o.fr.args))
  {
    hide ExecStmt, FindFun;
    var fr := Frame(d.scope, M2Source.Bind(d.params, vs), [], None);
    var a: nat :| ExecStmt(a, p, fr, g, d.body) == o;
    Shape(a, p, fr, g, d.body);
    assert CallFun(a + 1, p, f, vs, g) == Result(if o.exit.Returned? then o.v else None, o.g, o.fr.args);
  }

  lemma Shape(fuel: nat, p: Program, fr: Frame, g: Globals, s: Stmt)
    requires fr.pending.None? && ExecStmt(fuel, p, fr, g, s).Done?
    ensures Extends(fr, ExecStmt(fuel, p, fr, g, s).fr)
  {
  }

  lemma ExpressionRule(p: Program, fr: Frame, g: Globals, e: Expr, v: Num, fr1: Frame, g1: Globals)
    requires fr.pending.None? && Yields(p, fr, g, e, v, fr1, g1)
    ensures Runs(p, fr, g, ExprS(e), Done(Normal, fr1, g1, v))
  {
    hide EvalExpr;
    var a: nat :| EvalExpr(a, p, fr, g, e) == Value(v, fr1, g1);
    assert ExecStmt(a, p, fr, g, ExprS(e)) == Done(Normal, fr1, g1, v);
  }

  lemma ReturnRule(p: Program, fr: Frame, g: Globals, e: Expr, v: Num, fr1: Frame, g1: Globals)
    requires fr.pending.None? && Yields(p, fr, g, e, v, fr1, g1)
    ensures Runs(p, fr, g, Return(Some(e)), Done(Returned, fr1, g1, v))
  {
    hide EvalExpr;
    var a: nat :| EvalExpr(a, p, fr, g, e) == Value(v, fr1, g1);
    assert ExecOpt(a, p, fr, g, Some(e)) == Done(Normal, fr1, g1, v);
    assert ExecStmt(a, p, fr, g, Return(Some(e))) == Done(Returned, fr1, g1, v);
  }

  lemma BreakRule(p: Program, fr: Frame, g: Globals)
    requires fr.pending.None?
    ensures Runs(p, fr, g, Break, Done(Broke, fr, g, None))
  {
    assert ExecStmt(0, p, fr, g, Break) == Done(Broke, fr, g, None);
  }

  /** A declared variable has no value yet. */
  lemma DeclarationRule(p: Program, fr: Frame, g: Globals, x: string)
    requires fr.pending.None?
    ensures Runs(p, fr, g, Decl(x, None), Done(Normal, fr.(locals := fr.locals + [Cell(x, None)]), g, None))
  {
    assert ExecOpt(0, p, fr.(pending := Some(x)), g, None) == Done(Normal, fr.(pending := Some(x)), g, None);
    assert fr.(locals := fr.locals + [Cell(x, None)], pending := None) == fr.(locals := fr.locals + [Cell(x, None)]);
    assert ExecStmt(0, p, fr, g, Decl(x, None)) == Done(Normal, fr.(locals := fr.locals + [Cell(x, None)]), g, None);
  }

  lemma NothingRule(p: Program, fr: Frame, g: Globals)
    requires fr.pending.None?
    ensures RunsAll(p, fr, g, [], Done(Normal, fr, g, None))
  {
    assert ExecSeq(0, p, fr, g, []) == Done(Normal, fr, g, None);
  }

  /** The next statement runs where the one before it ended, and only if that ended normally. */
  lemma SequenceRule(p: Program, fr: Frame, g: Globals, s: Stmt, ss: seq<Stmt>, o1: Outcome, o: Outcome)
    requires fr.pending.None? && Runs(p, fr, g, s, o1) && o1.fr.pending.None?
    requires if o1.exit.Normal? then RunsAll(p, o1.fr, o1.g, ss, o) else o == o1
    ensures RunsAll(p, fr, g, [s] + ss, o)
  {
    hide ExecStmt;
    var a: nat :| ExecStmt(a, p, fr, g, s) == o1;
    assert ([s] + ss)[1..] == ss;
    if o1.exit.Normal? {
      var b: nat :| ExecSeq(b, p, o1.fr, o1.g, ss) == o;
      var m := Max(a, b);
      RaiseStmt(a, m, p, fr, g, s);
      RaiseSeq(b, m, p, o1.fr, o1.g, ss);
      assert ExecSeq(m, p, fr, g, [s] + ss) == o;
    } else {
      assert ExecSeq(a, p, fr, g, [s] + ss) == o;
    }
  }

  /** The locals of a block are gone behind it. */
  lemma BlockRule(p: Program, fr: Frame, g: Globals, ss: seq<Stmt>, o: Outcome)
    requires fr.pending.None? && RunsAll(p, fr, g, ss, o) && |fr.locals| <= |o.fr.locals|
    ensures Runs(p, fr, g, Block(ss), o.(fr := o.fr.(locals := o.fr.locals[..|fr.locals|])))
  {
    hide ExecSeq;
    var a: nat :| ExecSeq(a, p, fr, g, ss) == o;
    assert ExecStmt(a, p, fr, g, Block(ss)) == o.(fr := o.fr.(locals := o.fr.locals[..|fr.locals|]));
  }

  /** A branch is taken by whether the condition is nonzero. */
  lemma IfRule(p: Program, fr: Frame, g: Globals, s: Stmt, v: Word, fr1: Frame, g1: Globals, o: Outcome)
    requires s.If? && fr.pending.None? && Yields(p, fr, g, s.cond, Some(v), fr1, g1) && fr1.pending.None?
    requires if v != 0 then Runs(p, fr1, g1, s.thn, o)
      else if s.els.Some? then Runs(p, fr1, g1, s.els.value, o)
      else o == Done(Normal, fr1, g1, None)
    ensures Runs(p, fr, g, s, o)
  {
    hide EvalExpr, ExecExpr;
    var a: nat :| EvalExpr(a, p, fr, g, s.cond) == Value(Some(v), fr1, g1);
    if v == 0 && s.els.None? {
      RaiseExpr(a, a, p, fr, g, s.cond);
      assert ExecStmt(a, p, fr, g, s) == o;
    } else {
      var t := if v != 0 then s.thn else s.els.value;
      var b: nat :| ExecStmt(b, p, fr1, g1, t) == o;
      var m := Max(a, b);
      RaiseExpr(a, m, p, fr, g, s.cond);
      RaiseStmt(b, m, p, fr1, g1, t);
      assert ExecStmt(m, p, fr, g, s) == o;
    }
  }

  /** How a body that ends with b leaves its loop: break ends the loop normally, return ends the function too. */
  ghost predicate Leaves(b: Outcome, o: Outcome) {
    b.Done? && ((b.exit.Broke? && o == Done(Normal, b.fr, b.g, None)) || (b.exit.Returned? && o == b))
  }

  /** While the condition is nonzero the body runs, and then the loop again. */
  lemma WhileRule(p: Program, fr: Frame, g: Globals, s: Stmt, v: Word, fr1: Frame, g1: Globals, b: Outcome, o: Outcome)
    requires s.While? && fr.pending.None? && Yields(p, fr, g, s.cond, Some(v), fr1, g1) && fr1.pending.None?
    requires v != 0 ==> Runs(p, fr1, g1, s.loop, b) && b.fr.pending.None?
    requires if v == 0 then o == Done(Normal, fr1, g1, None)
      else Leaves(b, o) || (b.exit.Normal? && Runs(p, b.fr, b.g, s, o))
    ensures Runs(p, fr, g, s, o)
  {
    hide EvalExpr, ExecExpr;
    var x: nat :| EvalExpr(x, p, fr, g, s.cond) == Value(Some(v), fr1, g1);
    var y: nat := if v == 0 then 0 else var y: nat :| ExecStmt(y, p, fr1, g1, s.loop) == b; y;
    var z: nat := if v == 0 || !b.exit.Normal? then 0 else var z: nat :| ExecStmt(z, p, b.fr, b.g, s) == o; z;
    var m := Max(Max(x, y), z) + 1;
    RaiseExpr(x, m, p, fr, g, s.cond);
    if v != 0 {
      RaiseStmt(y, m, p, fr1, g1, s.loop);
      if b.exit.Normal? { RaiseStmt(z, m - 1, p, b.fr, b.g, s); }
    }
    assert ExecWhile(m, p, fr, g, s) == o;
    assert ExecStmt(m, p, fr, g, s) == o;
  }

  /** The body runs before the condition is looked at. */
  lemma DoRule(p: Program, fr: Frame, g: Globals, s: Stmt, b: Outcome, v: Word, fr1: Frame, g1: Globals, o: Outcome)
    requires s.DoWhile? && fr.pending.None? && Runs(p, fr, g, s.loop, b) && b.fr.pending.None?
    requires b.exit.Normal? ==> Yields(p, b.fr, b.g, s.cond, Some(v), fr1, g1) && fr1.pending.None?
    requires if !b.exit.Normal? then Leaves(b, o)
      else if v == 0 then o == Done(Normal, fr1, g1, None)
      else Runs(p, fr1, g1, s, o)
    ensures Runs(p, fr, g, s, o)
  {
    hide EvalExpr, ExecExpr;
    var x: nat :| ExecStmt(x, p, fr, g, s.loop) == b;
    var y: nat := if !b.exit.Normal? then 0 else var y: nat :| EvalExpr(y, p, b.fr, b.g, s.cond) == Value(Some(v), fr1, g1); y;
    var z: nat := if !b.exit.Normal? || v == 0 then 0 else var z: nat :| ExecStmt(z, p, fr1, g1, s) == o; z;
    var m := Max(Max(x, y), z) + 1;
    RaiseStmt(x, m, p, fr, g, s.loop);
    if b.exit.Normal? {
      RaiseExpr(y, m, p, b.fr, b.g, s.cond);
      if v != 0 { RaiseStmt(z, m - 1, p, fr1, g1, s); }
    }
    assert ExecDo(m, p, fr, g, s) == o;
    assert ExecStmt(m, p, fr, g, s) == o;
  }

  /** A for loop without an initialisation: condition, body, step, and again. */
  lemma ForRule(p: Program, fr: Frame, g: Globals, s: Stmt, v: Word, fr1: Frame, g1: Globals, b: Outcome,
                w: Num, fr2: Frame, g2: Globals, o: Outcome)
    requires s.For? && s.start.None? && fr.pending.None? && Yields(p, fr, g, s.cond, Some(v), fr1, g1) && fr1.pending.None?
    requires v != 0 ==> Runs(p, fr1, g1, s.loop, b) && b.fr.pending.None?
    requires v != 0 && b.exit.Normal? ==> Yields(p, b.fr, b.g, s.iter, w, fr2, g2) && fr2.pending.None?
    requires if v == 0 then o == Done(Normal, fr1, g1, None)
      else Leaves(b, o) || (b.exit.Normal? && Runs(p, fr2, g2, s, o))
    ensures Runs(p, fr, g, s, o)
  {
    hide EvalExpr, ExecExpr;
    var x: nat :| EvalExpr(x, p, fr, g, s.cond) == Value(Some(v), fr1, g1);
    var y: nat := if v == 0 then 0 else var y: nat :| ExecStmt(y, p, fr1, g1, s.loop) == b; y;
    var z: nat := if v == 0 || !b.exit.Normal? then 0 else var z: nat :| EvalExpr(z, p, b.fr, b.g, s.iter) == Value(w, fr2, g2); z;
    var k: nat := if v == 0 || !b.exit.Normal? then 0 else var k: nat :| ExecStmt(k, p, fr2, g2, s) == o; k;
    var m := Max(Max(x, y), Max(z, k)) + 1;
    RaiseExpr(x, m, p, fr, g, s.cond);
    if v != 0 {
      RaiseStmt(y, m, p, fr1, g1, s.loop);
      if b.exit.Normal? {
        RaiseExpr(z, m, p, b.fr, b.g, s.iter);
        RaiseStmt(k, m - 1, p, fr2, g2, s);
        ForUnfold(m - 1, p, fr2, g2, s);
      }
    }
    assert ExecFor(m, p, fr, g, s) == o;
    ForUnfold(m, p, fr, g, s);
  }

  lemma ForUnfold(fuel: nat, p: Program, fr: Frame, g: Globals, s: Stmt)
    requires s.For? && s.start.None? && fr.pending.None?
    ensures ExecStmt(fuel, p, fr, g, s) == ExecFor(fuel, p, fr, g, s)
  {
    hide ExecFor;
    assert ExecOpt(fuel, p, fr, g, s.start) == Done(Normal, fr, g, None);
  }

  /** The initialisation runs once. */
  lemma ForStartRule(p: Program, fr: Frame, g: Globals, s: Stmt, v: Num, fr1: Frame, g1: Globals, o: Outcome)
    requires s.For? && s.start.Some? && fr.pending.None? && Yields(p, fr, g, s.start.value, v, fr1, g1) && fr1.pending.None?
    requires Runs(p, fr1, g1, s.(start := None), o)
    ensures Runs(p, fr, g, s, o)
  {
    hide EvalExpr, ExecExpr, ExecFor;
    var x: nat :| EvalExpr(x, p, fr, g, s.start.value) == Value(v, fr1, g1);
    var y: nat :| ExecStmt(y, p, fr1, g1, s.(start := None)) == o;
    var m := Max(x, y);
    RaiseExpr(x, m, p, fr, g, s.start.value);
    RaiseStmt(y, m, p, fr1, g1, s.(start := None));
    ForUnfold(m, p, fr1, g1, s.(start := None));
    StartIrrelevant(m, p, fr1, g1, s);
    assert ExecOpt(m, p, fr, g, s.start) == Done(Normal, fr1, g1, v);
    assert ExecStmt(m, p, fr, g, s) == o;
  }

  lemma {:induction false} StartIrrelevant(fuel: nat, p: Program, fr: Frame, g: Globals, s: Stmt)
    requires s.For? && fr.pending.None?
    ensures ExecFor(fuel, p, fr, g, s) == ExecFor(fuel, p, fr, g, s.(start := None))
    decreases fuel
  {
    hide EvalExpr, ExecExpr, ExecStmt;
    var c := ExecExpr(fuel, p, fr, g, s.cond);
    if c.Done? && c.v.Some? && c.v.value != 0 {
      var b := ExecStmt(fuel, p, c.fr, c.g, s.loop);
      if b.Done? && b.exit.Normal? {
        var i := ExecExpr(fuel, p, b.fr, b.g, s.iter);
        if i.Done? && fuel > 0 { StartIrrelevant(fuel - 1, p, i.fr, i.g, s); }
      }
    }
  }
}
