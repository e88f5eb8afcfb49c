/**
  The one-pass compiler of m2min/M2_tcc.c: parsing functions that consume tokens and append
  to the output as they go. Each is proved to accept exactly what the grammar accepts and to
  emit exactly the code of what it has read.
 */
module M2Compiler {
  import opened Options
  import opened M2Word
  import opened M2Machine
  import opened M2Codegen
  import G = M2Grammar
  import Src = M2Source

  /** A list read so far, put before what a parse of the rest yields. */
  function Join<T>(xs: seq<T>, r: G.Parse<seq<T>>): G.Parse<seq<T>> {
    match r
    case Fail => G.Fail
    case Ok(ys, j) => G.Ok(xs + ys, j)
  }

  lemma JoinNil<T>(r: G.Parse<seq<T>>)
    ensures Join([], r) == r
  {
    if r.Ok? { assert [] + r.v == r.v; }
  }

  lemma JoinNext<T>(xs: seq<T>, x: T, r: G.Parse<seq<T>>)
    ensures Join(xs, G.Prepend(x, r)) == Join(xs + [x], r)
  {
    if r.Ok? { assert xs + ([x] + r.v) == xs + [x] + r.v; }
  }

  lemma {:induction false} ArgsCodeSnoc(env: Env, es: seq<Src.Expr>, e: Src.Expr)
    ensures ArgsCode(env, es + [e]) == ArgsCode(env, es) + ExprCode(env, e) + [PushEax]
    decreases es
  {
    if es != [] {
      assert (es + [e])[1..] == es[1..] + [e];
      ArgsCodeSnoc(env, es[1..], e);
    }
  }

  lemma StatementsStep(env: Env, ts: seq<G.Token>, i: nat, inLoop: bool)
    requires i < |ts| && ts[i] != G.Sym("}")
    ensures G.Statements(env, ts, i, inLoop)
         == match G.Statement(env, ts, i, inLoop)
            case Fail => G.Fail
            case Ok(s, j) => G.Prepend(s, G.Statements(After(env, s), ts, j, inLoop))
  {
  }

  lemma StatementsEnd(env: Env, ts: seq<G.Token>, i: nat, inLoop: bool)
    requires i < |ts| ==> ts[i] == G.Sym("}")
    ensures G.Statements(env, ts, i, inLoop) == if i < |ts| then G.Ok([], i + 1) else G.Fail
  {
  }

  /** One more statement at the end of a list. */
  lemma {:induction false} SeqSnoc(env: Env, n: nat, brk: Target, ret: bool, ss: seq<Src.Stmt>, s: Src.Stmt)
    ensures SeqCode(env, n, brk, ret, ss + [s])
         == SeqCode(env, n, brk, ret, ss)
            + StmtCode(AfterSeq(env, ss), n + CountSeq(ss), brk, EndsInRet(ret, SeqCode(env, n, brk, ret, ss)), s)
    ensures AfterSeq(env, ss + [s]) == After(AfterSeq(env, ss), s) && CountSeq(ss + [s]) == CountSeq(ss) + Count(s)
    decreases ss
  {
    hide StmtCode, SeqCode, AfterSeq, CountSeq, Count, EndsInRet, After;
    if ss == [] {
      assert [] + [s] == [s];
      SeqNil(env, n, brk, ret);
      SeqCons(env, n, brk, ret, s, []);
      assert [s] + [] == [s];
      SeqNil(After(env, s), n + Count(s), brk, EndsInRet(ret, StmtCode(env, n, brk, ret, s)));
      RetNil(ret);
    } else {
      var first, rest := ss[0], ss[1..];
      assert ss == [first] + rest && ss + [s] == [first] + (rest + [s]);
      var c := StmtCode(env, n, brk, ret, first);
      var env1, n1, ret1 := After(env, first), n + Count(first), EndsInRet(ret, c);
      SeqCons(env, n, brk, ret, first, rest);
      SeqCons(env, n, brk, ret, first, rest + [s]);
      SeqSnoc(env1, n1, brk, ret1, rest, s);
      RetTwice(ret, c, SeqCode(env1, n1, brk, ret1, rest));
    }
  }

  lemma SeqNil(env: Env, n: nat, brk: Target, ret: bool)
    ensures SeqCode(env, n, brk, ret, []) == [] && AfterSeq(env, []) == env && CountSeq([]) == 0
  {
  }

  lemma SeqCons(env: Env, n: nat, brk: Target, ret: bool, s: Src.Stmt, ss: seq<Src.Stmt>)
    ensures var c := StmtCode(env, n, brk, ret, s);
      SeqCode(env, n, brk, ret, [s] + ss) == c + SeqCode(After(env, s), n + Count(s), brk, EndsInRet(ret, c), ss)
    ensures AfterSeq(env, [s] + ss) == AfterSeq(After(env, s), ss) && CountSeq([s] + ss) == Count(s) + CountSeq(ss)
  {
    hide StmtCode, Count, EndsInRet, After;
    assert ([s] + ss)[0] == s && ([s] + ss)[1..] == ss;
  }

  lemma RetNil(ret: bool)
    ensures EndsInRet(ret, []) == ret
  {
  }

  lemma RetTwice(ret: bool, a: Code, b: Code)
    ensures EndsInRet(ret, a + b) == EndsInRet(EndsInRet(ret, a), b)
  {
    if b == [] { assert a + b == a; }
  }

  lemma Assoc(a: Code, b: Code, c: Code, d: Code)
    ensures a + b + c + d == a + (b + c + d)
  {
  }

  lemma IfAssoc(a: Code, b: Code, c: Code, d: Code, e: Code, f: Code)
    ensures a + b + c + d + e + f == a + (b + c + d + e + f)
  {
  }

  lemma Assoc5(a: Code, b: Code, c: Code, d: Code, e: Code)
    ensures a + b + c + d + e == a + (b + c + d + e)
  {
  }

  function ForJumps(env: Env, n: nat): Code {
    [TestEaxEax, Je(Lbl(env, ForEndL, n)), Jmp(Lbl(env, ForThenL, n)), Mark(Lbl(env, ForIterL, n))]
  }

  function ForBack(env: Env, n: nat): Code { [Jmp(Lbl(env, ForL, n)), Mark(Lbl(env, ForThenL, n))] }

  lemma ForHeadIs(a: Code, env: Env, n: nat, c: Src.Expr, i: Src.Expr)
    ensures a + [Mark(Lbl(env, ForL, n))] + ExprCode(env, c) + ForJumps(env, n) + ExprCode(env, i) + ForBack(env, n)
         == a + ForHead(env, n, c, i)
    ensures !EndsInRet(false, a + ForHead(env, n, c, i))
  {
    hide ExprCode;
    IfAssoc(a, [Mark(Lbl(env, ForL, n))], ExprCode(env, c), ForJumps(env, n), ExprCode(env, i), ForBack(env, n));
  }

  lemma DoHeadEnds(a: Code, env: Env, n: nat)
    ensures !EndsInRet(false, a + DoHead(env, n))
  {
  }

  /** The end of a function: a `ret` unless its body has just emitted one. */
  lemma FunctionCode(a: Code, name: string, args: seq<string>, body: Src.Stmt, sc: Src.Scope)
    ensures var c := a + [Mark(FunctionL(name))] + StmtCode(Env(name, sc, args, []), 0, NoTarget, false, body);
      a + FunCode(Src.Fun(name, args, body, sc)) == if EndsInRet(false, c) then c else c + [Ret]
  {
    hide StmtCode;
    var head, b := [Mark(FunctionL(name))], StmtCode(Env(name, sc, args, []), 0, NoTarget, false, body);
    RetTwice(false, a + head, b);
    var tail := if EndsInRet(false, b) then [] else [Ret];
    Assoc(a, head, b, tail);
  }

  lemma {:induction false} ProgramSnoc(p: Src.Program, d: Src.Fun)
    ensures ProgramCode(p + [d]) == ProgramCode(p) + FunCode(d)
    decreases p
  {
    hide FunCode;
    if p == [] {
      assert p + [d] == [d] && [d][1..] == [];
    } else {
      assert (p + [d])[0] == p[0] && (p + [d])[1..] == p[1..] + [d];
      ProgramSnoc(p[1..], d);
    }
  }

  // One level of the code of each compound statement.

  lemma IfCode(a: Code, env: Env, n: nat, brk: Target, ret: bool, c: Src.Expr, t: Src.Stmt, e: Option<Src.Stmt>)
    ensures var else_ := if e.Some? then StmtCode(env, n + 1 + Count(t), brk, false, e.value) else [];
      a + IfHead(env, n, c) + StmtCode(env, n + 1, brk, false, t) + IfMiddle(env, n) + else_ + IfEnd(env, n)
      == a + StmtCode(env, n, brk, ret, Src.If(c, t, e))
    ensures Count(Src.If(c, t, e)) == 1 + Count(t) + (if e.Some? then Count(e.value) else 0)
  {
    hide IfHead, IfMiddle, IfEnd;
    var then_ := StmtCode(env, n + 1, brk, false, t);
    var else_ := if e.Some? then StmtCode(env, n + 1 + Count(t), brk, false, e.value) else [];
    IfAssoc(a, IfHead(env, n, c), then_, IfMiddle(env, n), else_, IfEnd(env, n));
  }

  lemma WhileCode(env: Env, n: nat, brk: Target, ret: bool, c: Src.Expr, b: Src.Stmt)
    ensures StmtCode(env, n, brk, ret, Src.While(c, b))
         == WhileHead(env, n, c) + StmtCode(env, n + 1, WhileTarget(env, n), false, b) + WhileTail(env, n)
    ensures Count(Src.While(c, b)) == 1 + Count(b)
  {
  }

  lemma DoCode(a: Code, env: Env, n: nat, brk: Target, ret: bool, b: Src.Stmt, c: Src.Expr)
    ensures a + DoHead(env, n) + StmtCode(env, n + 1, DoTarget(env, n), false, b) + DoTail(env, n, c)
         == a + StmtCode(env, n, brk, ret, Src.DoWhile(b, c))
    ensures Count(Src.DoWhile(b, c)) == 1 + Count(b)
  {
  }

  lemma ForCode(env: Env, n: nat, brk: Target, ret: bool, start: Option<Src.Expr>, c: Src.Expr, i: Src.Expr, b: Src.Stmt)
    ensures StmtCode(env, n, brk, ret, Src.For(start, c, i, b))
         == OptCode(env, start) + ForHead(env, n, c, i) + StmtCode(env, n + 1, ForTarget(env, n), false, b) + ForTail(env, n)
    ensures Count(Src.For(start, c, i, b)) == 1 + Count(b)
  {
  }

  class Compiler {
    const tokens: seq<G.Token>
    var pos: nat                  // global_token
    var out: seq<Instr>           // output_list, oldest first
    var count: nat                // current_count
    var scope: Src.Scope          // constant, function and global lists
    var fname: string             // function->s
    var args: seq<string>         // function->arguments, first parameter first
    var locals: seq<string>       // function->locals, oldest first
    var brk: Target               // break_target_* and break_frame

    constructor (toks: seq<G.Token>)
      ensures tokens == toks && pos == 0 && out == [] && scope == Src.Scope(map[], {}, {})
    {
      tokens, pos, out, count := toks, 0, [], 0;
      scope, fname, args, locals, brk := Src.Scope(map[], {}, {}), "", [], [], NoTarget;
    }

    function Here(): Env
      reads this
    {
      Env(fname, scope, args, locals)
    }

    method Emit(code: Code)
      modifies `out
      ensures out == old(out) + code
    {
      out := out + code;
    }

    /** The parse r was found and the code emitted for it, or neither. */
    twostate predicate Emitted(r: G.Parse<Src.Expr>, ok: bool)
      reads this
    {
      && (ok <==> r.Ok?)
      && (ok ==> pos == r.at && out == old(out) + ExprCode(old(Here()), r.v))
    }

    /** require_match: the next token must be t. */
    method Skip(t: G.Token) returns (ok: bool)
      modifies `pos
      ensures ok <==> G.Is(tokens, old(pos), t)
      ensures pos == old(pos) + (if ok then 1 else 0)
    {
      ok := pos < |tokens| && tokens[pos] == t;
      if ok { pos := pos + 1; }
    }

    method PrimaryExpr() returns (ok: bool)
      requires pos <= |tokens|
      modifies `pos, `out
      ensures Emitted(G.Primary(old(Here()), tokens, old(pos)), ok)
      decreases |tokens| - pos, 0
    {
      hide Src.Locate, AddressCode, G.Operator, UnaryHead, UnaryCode, Pops, ArgsCode;
      var env := Here();
      if pos >= |tokens| { return false; }
      match tokens[pos]
      case Num(n) =>
        Emit([MovEaxImm(n)]);
        pos := pos + 1;
        return true;
      case Name(x) =>
        pos := pos + 1;
        if G.Is(tokens, pos, G.Sym("(")) {
          if !Locate(env, x).FunctionName? { return false; }
          ok := FunctionCall(x);
        } else {
          ok := pos < |tokens| && G.Usable(env, x);
          if ok { VariableLoad(x); }
        }
      case Sym(s) =>
        if G.Starts(s, '-') {
          ok := UnaryExpr(Src.Neg);
        } else if G.Starts(s, '!') {
          ok := UnaryExpr(Src.Not);
        } else if G.Starts(s, '~') {
          ok := UnaryExpr(Src.Compl);
        } else if G.Starts(s, '(') {
          pos := pos + 1;
          ok := Expression();
          if ok { ok := Skip(G.Sym(")")); }
        } else {
          ok := false;
        }
    }

    /** common_recursion for the prefix operators: the minus sign takes a primary expression. */
    method UnaryExpr(op: Src.UnOp) returns (ok: bool)
      requires pos < |tokens|
      modifies `pos, `out
      ensures Emitted(G.Unary(op, if op.Neg? then G.Primary(old(Here()), tokens, old(pos) + 1)
                                  else G.Operand(0, old(Here()), tokens, old(pos) + 1)), ok)
      decreases |tokens| - pos - 1, 3
    {
      hide G.Primary, G.Operand, UnaryCode;
      Emit(UnaryHead(op));
      Emit([PushEax]);
      pos := pos + 1;
      if op.Neg? { ok := PrimaryExpr(); } else { ok := Operand(0); }
      Emit([PopEbx]);
      Emit(UnaryCode(op));
    }

    /** variable_load, constant_load and global_load: only the address when '=' follows. */
    method VariableLoad(x: string)
      requires 0 < pos <= |tokens| && G.Usable(Here(), x)
      modifies `out
      ensures out == old(out) + ExprCode(Here(), if G.Is(tokens, pos, G.Sym("=")) then Src.LVal(x) else Src.Var(x))
    {
      Emit(AddressCode(Here(), x));
      if !Locate(Here(), x).Constant? && !G.Is(tokens, pos, G.Sym("=")) { Emit([LoadEax]); }
    }

    method FunctionCall(f: string) returns (ok: bool)
      requires pos < |tokens| && tokens[pos] == G.Sym("(")
      modifies `pos, `out
      ensures ok <==> G.Arguments(old(Here()), tokens, old(pos) + 1).Ok?
      ensures ok ==> pos == G.Arguments(old(Here()), tokens, old(pos) + 1).at
      ensures ok ==> out == old(out) + ExprCode(old(Here()), Src.Call(f, G.Arguments(old(Here()), tokens, old(pos) + 1).v))
      decreases |tokens| - pos, 0
    {
      hide G.Arguments, G.MoreArguments, ArgsCode;
      pos := pos + 1;
      if pos >= |tokens| { NoArguments(Here(), tokens, pos); return false; }
      Emit(SAVE_FRAME);
      var passed;
      ok, passed := PushArguments();
      if ok {
        Emit([MovEbpEdi, Instr.Call(f)]);
        EmitPops(passed);
        Emit(RESTORE_FRAME);
      }
    }

    lemma NoArguments(env: Env, ts: seq<G.Token>, i: nat)
      requires i >= |ts|
      ensures G.Arguments(env, ts, i).Fail?
    {
    }

    /** The loop that discards the arguments after a call. */
    method EmitPops(passed: nat)
      modifies `out
      ensures out == old(out) + Pops(passed)
    {
      var left := passed;
      while left > 0
        invariant 0 <= left <= passed && out == old(out) + Pops(passed - left)
      {
        assert Pops(passed - left) + [PopEbx] == Pops(passed - left + 1);
        Emit([PopEbx]);
        left := left - 1;
      }
    }

    /** Arguments up to and including the closing parenthesis, each pushed as soon as it is computed. */
    method PushArguments() returns (ok: bool, passed: nat)
      requires pos < |tokens|
      modifies `pos, `out
      ensures ok <==> G.Arguments(old(Here()), tokens, old(pos)).Ok?
      ensures ok ==> pos == G.Arguments(old(Here()), tokens, old(pos)).at
      ensures ok ==> passed == |G.Arguments(old(Here()), tokens, old(pos)).v|
      ensures ok ==> out == old(out) + ArgsCode(old(Here()), G.Arguments(old(Here()), tokens, old(pos)).v)
      decreases |tokens| - pos, 2 * G.LEVELS + 2
    {
      hide ExprCode, G.Expression;
      ghost var env, at := Here(), pos;
      ghost var es: seq<Src.Expr> := [];
      passed := 0;
      if tokens[pos] != G.Sym(")") {
        ok := Expression();
        if !ok { return; }
        Emit([PushEax]);
        passed := 1;
        ArgsCodeSnoc(env, [], G.Expression(env, tokens, at).v);
        assert [] + [G.Expression(env, tokens, at).v] == [G.Expression(env, tokens, at).v];
        es := [G.Expression(env, tokens, at).v];
        assert G.Arguments(env, tokens, at) == G.Prepend(es[0], G.MoreArguments(env, tokens, pos));
        JoinNil(G.MoreArguments(env, tokens, pos));
        JoinNext([], es[0], G.MoreArguments(env, tokens, pos));
        JoinNil(G.Prepend(es[0], G.MoreArguments(env, tokens, pos)));
        while tokens[pos] == G.Sym(",")
          invariant at <= pos < |tokens| && passed == |es| && Here() == env
          invariant G.Arguments(env, tokens, at) == Join(es, G.MoreArguments(env, tokens, pos))
          invariant out == old(out) + ArgsCode(env, es)
          decreases |tokens| - pos
        {
          ghost var i := pos + 1;
          pos := pos + 1;
          if pos >= |tokens| { return false, 0; }
          ok := Expression();
          if !ok { return; }
          Emit([PushEax]);
          passed := passed + 1;
          ghost var e := G.Expression(env, tokens, i).v;
          ArgsCodeSnoc(env, es, e);
          JoinNext(es, e, G.MoreArguments(env, tokens, pos));
          es := es + [e];
        }
      }
      assert es + [] == es;
      ok := Skip(G.Sym(")"));
    }

    method Operand(level: nat) returns (ok: bool)
      requires pos <= |tokens| && level < G.LEVELS
      modifies `pos, `out
      ensures Emitted(G.Operand(level, old(Here()), tokens, old(pos)), ok)
      decreases |tokens| - pos, 2 * level + 1
    {
      if level > 0 {
        ok := Chain(level - 1);
      } else {
        ok := PrimaryExpr();
        if ok { ok := pos < |tokens| && tokens[pos] != G.Sym("["); }
      }
    }

    method Chain(level: nat) returns (ok: bool)
      requires pos <= |tokens| && level < G.LEVELS
      modifies `pos, `out
      ensures Emitted(G.Chain(level, old(Here()), tokens, old(pos)), ok)
      decreases |tokens| - pos, 2 * level + 2
    {
      ghost var left := G.Operand(level, Here(), tokens, pos);
      ghost var start := out;
      ok := Operand(level);
      if ok { ok := Stub(level, left.v, start); }
    }

    /** The stub functions: operators of one level after a left operand already compiled. */
    method Stub(level: nat, ghost left: Src.Expr, ghost start: Code) returns (ok: bool)
      requires pos < |tokens| && level < G.LEVELS
      requires out == start + ExprCode(Here(), left)
      modifies `pos, `out
      ensures ok <==> G.Tail(level, old(Here()), tokens, old(pos), left).Ok?
      ensures ok ==> pos == G.Tail(level, old(Here()), tokens, old(pos), left).at
      ensures ok ==> out == start + ExprCode(old(Here()), G.Tail(level, old(Here()), tokens, old(pos), left).v)
      decreases |tokens| - pos, 2 * level + 1
    {
      hide G.Operator, OperatorCode, G.Operand;
      var op := G.Operator(level, tokens[pos]);
      if op.None? { return true; }
      ghost var right := G.Operand(level, Here(), tokens, pos + 1);
      Emit([PushEax]);
      pos := pos + 1;
      ok := Operand(level);
      if ok {
        Emit([PopEbx]);
        Emit(OperatorCode(op.value));
        ok := Stub(level, Src.Bin(op.value, left, right.v), start);
      }
    }

    method Expression() returns (ok: bool)
      requires pos <= |tokens|
      modifies `pos, `out
      ensures Emitted(G.Expression(old(Here()), tokens, old(pos)), ok)
      decreases |tokens| - pos, 2 * G.LEVELS + 1
    {
      ok := Chain(G.LEVELS - 1);
      if ok && tokens[pos] == G.Sym("=") {
        Emit([PushEax]);
        pos := pos + 1;
        ok := Expression();
        Emit([PopEbx, StoreEbx]);
      }
    }

    // ----- statements -----

    /** The statement r was found and compiled, or neither; a failure may leave anything behind. */
    twostate predicate Compiled(r: G.Parse<Src.Stmt>, ok: bool)
      reads this
    {
      && (ok <==> r.Ok?)
      && (ok ==>
            && pos == r.at && count == old(count) + Count(r.v)
            && Here() == After(old(Here()), r.v) && brk == old(brk)
            && out == old(out) + StmtCode(old(Here()), old(count), old(brk), EndsInRet(false, old(out)), r.v))
    }

    method ExpressionThen(t: G.Token) returns (ok: bool)
      requires pos <= |tokens|
      modifies `pos, `out
      ensures Emitted(G.Followed(old(Here()), tokens, old(pos), t), ok)
    {
      ok := Expression();
      if ok { ok := Skip(t); }
    }

    method Statement() returns (ok: bool)
      requires pos <= |tokens|
      modifies this
      ensures Compiled(G.Statement(old(Here()), tokens, old(pos), old(brk).Target?), ok)
      decreases |tokens| - pos, 1
    {
      hide G.Followed, G.Declaration, G.IfStatement, G.WhileStatement, G.DoStatement, G.ForStatement, G.Statements;
      hide BlockCode, ExprCode, Pops;
      if pos >= |tokens| { return false; }
      var t := tokens[pos];
      if t == G.Sym("{") {
        ok := RecursiveStatement();
      } else if t == G.Name("int") {
        ok := CollectLocal();
      } else if t == G.Name("if") {
        ok := ProcessIf();
      } else if t == G.Name("do") {
        ok := ProcessDo();
      } else if t == G.Name("while") {
        ok := ProcessWhile();
      } else if t == G.Name("for") {
        ok := ProcessFor();
      } else if t == G.Name("return") {
        ok := ReturnResult();
      } else if t == G.Name("break") {
        ok := ProcessBreak();
      } else {
        ok := ExpressionThen(G.Sym(";"));
      }
    }

    method ReturnResult() returns (ok: bool)
      requires pos < |tokens| && tokens[pos] == G.Name("return")
      modifies `pos, `out
      ensures Compiled(G.Statement(old(Here()), tokens, old(pos), old(brk).Target?), ok)
    {
      hide ExprCode;
      pos := pos + 1;
      if !G.Is(tokens, pos, G.Sym(";")) {
        ok := ExpressionThen(G.Sym(";"));
        if !ok { return; }
      } else {
        pos := pos + 1;
      }
      EmitPops(|locals|);
      Emit([Ret]);
      ok := true;
    }

    method ProcessBreak() returns (ok: bool)
      requires pos < |tokens| && tokens[pos] == G.Name("break")
      modifies `pos, `out
      ensures Compiled(G.Statement(old(Here()), tokens, old(pos), old(brk).Target?), ok)
    {
      if brk.NoTarget? { return false; }
      EmitPops(if |locals| >= brk.frame then |locals| - brk.frame else |locals|);
      pos := pos + 1;
      Emit([Jmp(brk.l)]);
      ok := Skip(G.Sym(";"));
    }

    /** collect_local: the name is in scope, but its slot not yet pushed, while it is initialised. */
    method CollectLocal() returns (ok: bool)
      requires pos < |tokens| && tokens[pos] == G.Name("int")
      modifies `pos, `out, `locals
      ensures Compiled(G.Declaration(old(Here()), tokens, old(pos) + 1), ok)
    {
      hide ExprCode, G.Expression;
      pos := pos + 1;
      if pos >= |tokens| || !tokens[pos].Name? || tokens[pos].s in G.KEYWORDS { return false; }
      var x := tokens[pos].s;
      locals := locals + [x];
      pos := pos + 1;
      if G.Is(tokens, pos, G.Sym("=")) {
        pos := pos + 1;
        ok := ExpressionThen(G.Sym(";"));
      } else {
        ok := Skip(G.Sym(";"));
      }
      Emit([PushEax]);
    }

    method Body() returns (ok: bool)
      requires pos <= |tokens|
      modifies this
      ensures Compiled(G.Body(old(Here()), tokens, old(pos), old(brk).Target?), ok)
      decreases |tokens| - pos, 2
    {
      hide G.Statement, StmtCode;
      if G.Is(tokens, pos, G.Name("int")) { return false; }
      ok := Statement();
      if ok { ok := pos < |tokens|; }
    }

    lemma EndsIn(code: Code, i: Instr)
      requires code != [] && code[|code| - 1] == i && i != Ret
      ensures !EndsInRet(false, code)
    {
    }

    /** A parenthesised condition, followed by the code that tests it. */
    method Condition(test: Code) returns (ok: bool)
      requires pos <= |tokens|
      modifies `pos, `out
      ensures var r := G.Condition(old(Here()), tokens, old(pos));
        && (ok <==> r.Ok?)
        && (ok ==> pos == r.at && out == old(out) + (ExprCode(old(Here()), r.v) + test))
    {
      hide G.Followed, ExprCode;
      ok := Skip(G.Sym("("));
      if ok { ok := ExpressionThen(G.Sym(")")); }
      Emit(test);
    }

    method IfTest(n: nat) returns (ok: bool)
      requires pos <= |tokens|
      modifies `pos, `out
      ensures var r := G.Condition(old(Here()), tokens, old(pos));
        && (ok <==> r.Ok?)
        && (ok ==> pos == r.at && !EndsInRet(false, out) && out == old(out) + IfHead(old(Here()), n, r.v))
    {
      hide G.Condition, ExprCode;
      ok := Condition([TestEaxEax, Je(Lbl(Here(), ElseL, n))]);
      if ok { EndsIn(out, Je(Lbl(Here(), ElseL, n))); }
    }

    method ProcessIf() returns (ok: bool)
      requires pos < |tokens| && tokens[pos] == G.Name("if")
      modifies this
      ensures Compiled(G.IfStatement(old(Here()), tokens, old(pos) + 1, old(brk).Target?), ok)
      decreases |tokens| - pos, 0
    {
      hide G.Condition, G.Body, G.ElseBranch, ExprCode, StmtCode, Count, IfHead, IfMiddle, IfEnd;
      var n := count;
      ghost var env := Here();
      ghost var c := G.Condition(env, tokens, pos + 1);
      count := count + 1;
      pos := pos + 1;
      ok := IfTest(n);
      if !ok { return; }
      ghost var t := G.Body(env, tokens, pos, brk.Target?);
      ok := Body();
      if !ok { return; }
      ghost var then_ := StmtCode(env, n + 1, brk, false, t.v);
      assert out == old(out) + IfHead(env, n, c.v) + then_;
      ghost var e := G.ElseBranch(env, tokens, pos, brk.Target?);
      ok := ElseBranch(n);
      if !ok { return; }
      IfCode(old(out), env, n, brk, EndsInRet(false, old(out)), c.v, t.v, e.v);
    }

    /** From the end of the first branch to the end of the statement. */
    method ElseBranch(n: nat) returns (ok: bool)
      requires pos < |tokens|
      modifies this
      ensures var r := G.ElseBranch(old(Here()), tokens, old(pos), old(brk).Target?);
        && (ok <==> r.Ok?)
        && (ok ==> pos == r.at && Here() == old(Here()) && brk == old(brk)
                   && count == old(count) + (if r.v.Some? then Count(r.v.value) else 0))
        && (ok ==> out == old(out) + IfMiddle(old(Here()), n)
                          + (if r.v.Some? then StmtCode(old(Here()), old(count), old(brk), false, r.v.value) else [])
                          + IfEnd(old(Here()), n))
      decreases |tokens| - pos, 3
    {
      hide G.Body, StmtCode, Count;
      Emit(IfMiddle(Here(), n));
      EndsIn(out, Mark(Lbl(Here(), ElseL, n)));
      ok := true;
      if tokens[pos] == G.Name("else") {
        pos := pos + 1;
        ok := Body();
        if !ok { return; }
      }
      Emit(IfEnd(Here(), n));
    }

    /** From the label that starts a while loop to its conditional exit. */
    method WhileTest(n: nat) returns (ok: bool)
      requires pos <= |tokens|
      modifies `pos, `out
      ensures var r := G.Condition(old(Here()), tokens, old(pos));
        && (ok <==> r.Ok?)
        && (ok ==> pos == r.at && !EndsInRet(false, out) && out == old(out) + WhileHead(old(Here()), n, r.v))
    {
      hide G.Condition, ExprCode;
      Emit([Mark(Lbl(Here(), WhileL, n))]);
      ok := Condition([TestEaxEax, Je(Lbl(Here(), EndWhileL, n))]);
      if ok { EndsIn(out, Je(Lbl(Here(), EndWhileL, n))); }
    }

    method ProcessWhile() returns (ok: bool)
      requires pos < |tokens| && tokens[pos] == G.Name("while")
      modifies this
      ensures Compiled(G.WhileStatement(old(Here()), tokens, old(pos) + 1), ok)
      decreases |tokens| - pos, 0
    {
      hide G.Condition, G.Body, ExprCode, StmtCode, Count, WhileHead, WhileTail;
      var nested := brk;
      var n := count;
      ghost var env := Here();
      ghost var c := G.Condition(env, tokens, pos + 1);
      count := count + 1;
      brk := Target(Lbl(Here(), EndWhileL, n), |locals|);
      pos := pos + 1;
      ok := WhileTest(n);
      if !ok { return; }
      ghost var b := G.Body(env, tokens, pos, true);
      ok := Body();
      if !ok { return; }
      ghost var body := StmtCode(env, n + 1, WhileTarget(env, n), false, b.v);
      assert out == old(out) + WhileHead(env, n, c.v) + body;
      Emit(WhileTail(Here(), n));
      brk := nested;
      Assoc(old(out), WhileHead(env, n, c.v), body, WhileTail(env, n));
      WhileCode(env, n, brk, EndsInRet(false, old(out)), c.v, b.v);
    }

    method ProcessDo() returns (ok: bool)
      requires pos < |tokens| && tokens[pos] == G.Name("do")
      modifies this
      ensures Compiled(G.DoStatement(old(Here()), tokens, old(pos) + 1), ok)
      decreases |tokens| - pos, 0
    {
      hide G.DoTest, G.Body, ExprCode, StmtCode, Count, DoHead, DoTail, EndsInRet;
      var nested := brk;
      var n := count;
      ghost var env := Here();
      ghost var b := G.Body(env, tokens, pos + 1, true);
      count := count + 1;
      brk := Target(Lbl(Here(), DoEndL, n), |locals|);
      Emit(DoHead(Here(), n));
      DoHeadEnds(old(out), Here(), n);
      pos := pos + 1;
      ok := Body();
      if !ok { return; }
      ghost var body := StmtCode(env, n + 1, DoTarget(env, n), false, b.v);
      assert out == old(out) + DoHead(env, n) + body;
      ghost var c := G.DoTest(env, tokens, pos);
      ok := DoTest(n);
      brk := nested;
      if !ok { return; }
      DoCode(old(out), env, n, brk, EndsInRet(false, old(out)), b.v, c.v);
    }

    /** From the end of a do loop's body on. */
    method DoTest(n: nat) returns (ok: bool)
      requires pos <= |tokens|
      modifies `pos, `out
      ensures var r := G.DoTest(old(Here()), tokens, old(pos));
        (ok <==> r.Ok?) && (ok ==> pos == r.at && out == old(out) + DoTail(old(Here()), n, r.v))
    {
      hide G.Condition, ExprCode;
      Emit([Mark(Lbl(Here(), DoTestL, n))]);
      ok := Skip(G.Name("while"));
      if !ok { return; }
      ok := Condition([TestEaxEax, Jne(Lbl(Here(), DoL, n)), Mark(Lbl(Here(), DoEndL, n))]);
      if ok { ok := Skip(G.Sym(";")); }
    }

    method ProcessFor() returns (ok: bool)
      requires pos < |tokens| && tokens[pos] == G.Name("for")
      modifies this
      ensures Compiled(G.ForStatement(old(Here()), tokens, old(pos) + 1), ok)
      decreases |tokens| - pos, 0
    {
      hide G.ForStart, G.ForControl, G.Body, ExprCode, OptCode, ForHead, ForTail, StmtCode, Count, EndsInRet;
      var nested := brk;
      var n := count;
      ghost var env := Here();
      ghost var start := G.ForStart(env, tokens, pos + 1);
      count := count + 1;
      brk := Target(Lbl(Here(), ForEndL, n), |locals|);
      pos := pos + 1;
      ok := ForStart();
      if !ok { return; }
      ghost var ci := G.ForControl(env, tokens, pos);
      ok := ForControl(n);
      if !ok { return; }
      ghost var b := G.Body(env, tokens, pos, true);
      ok := Body();
      if !ok { return; }
      ghost var body := StmtCode(env, n + 1, ForTarget(env, n), false, b.v);
      assert out == old(out) + OptCode(env, start.v) + ForHead(env, n, ci.v.0, ci.v.1) + body;
      Emit(ForTail(Here(), n));
      brk := nested;
      Assoc5(old(out), OptCode(env, start.v), ForHead(env, n, ci.v.0, ci.v.1), body, ForTail(env, n));
      ForCode(env, n, brk, EndsInRet(false, old(out)), start.v, ci.v.0, ci.v.1, b.v);
    }

    method ForStart() returns (ok: bool)
      requires pos <= |tokens|
      modifies `pos, `out
      ensures var r := G.ForStart(old(Here()), tokens, old(pos));
        (ok <==> r.Ok?) && (ok ==> pos == r.at && out == old(out) + OptCode(old(Here()), r.v))
    {
      hide G.Followed, ExprCode;
      ok := Skip(G.Sym("("));
      if !ok { return; }
      if !G.Is(tokens, pos, G.Sym(";")) {
        ok := ExpressionThen(G.Sym(";"));
      } else {
        pos := pos + 1;
      }
    }

    method ForControl(n: nat) returns (ok: bool)
      requires pos <= |tokens|
      modifies `pos, `out
      ensures var r := G.ForControl(old(Here()), tokens, old(pos));
        && (ok <==> r.Ok?)
        && (ok ==> pos == r.at && !EndsInRet(false, out) && out == old(out) + ForHead(old(Here()), n, r.v.0, r.v.1))
    {
      hide G.Followed, ExprCode;
      ghost var env, c := Here(), G.Followed(Here(), tokens, pos, G.Sym(";"));
      Emit([Mark(Lbl(Here(), ForL, n))]);
      ok := ExpressionThen(G.Sym(";"));
      if !ok { return; }
      ok := ForStep(n);
      if ok { ForHeadIs(old(out), env, n, c.v, G.Followed(env, tokens, c.at, G.Sym(")")).v); }
    }

    /** From the test's jumps to the end of the step. */
    method ForStep(n: nat) returns (ok: bool)
      requires pos <= |tokens|
      modifies `pos, `out
      ensures var r := G.Followed(old(Here()), tokens, old(pos), G.Sym(")"));
        && (ok <==> r.Ok?)
        && (ok ==> pos == r.at && out == old(out) + ForJumps(old(Here()), n) + ExprCode(old(Here()), r.v) + ForBack(old(Here()), n))
    {
      hide G.Followed, ExprCode, ForJumps, ForBack;
      Emit(ForJumps(Here(), n));
      ok := ExpressionThen(G.Sym(")"));
      Emit(ForBack(Here(), n));
    }

    method RecursiveStatement() returns (ok: bool)
      requires pos < |tokens| && tokens[pos] == G.Sym("{")
      modifies this
      ensures var r := G.Statements(old(Here()), tokens, old(pos) + 1, old(brk).Target?);
        && (ok <==> r.Ok?)
        && (ok ==> pos == r.at && count == old(count) + CountSeq(r.v) && Here() == old(Here()) && brk == old(brk))
        && (ok ==> out == old(out) + BlockCode(old(Here()), old(count), old(brk), EndsInRet(false, old(out)), r.v))
      decreases |tokens| - pos, 0
    {
      hide G.Statements, SeqCode;
      ghost var start, n, env := out, count, Here();
      var frame := |locals|;
      pos := pos + 1;
      ok := StatementList();
      if !ok { return; }
      ghost var ss := G.Statements(env, tokens, old(pos) + 1, old(brk).Target?).v;
      RetTwice(false, start, SeqCode(env, n, brk, EndsInRet(false, start), ss));
      if !(out != [] && out[|out| - 1] == Ret) { EmitPops(|locals| - frame); }
      locals := locals[..frame];
    }

    /** The loop over the statements of a block; leaves the block's locals in scope. */
    method StatementList() returns (ok: bool)
      requires pos <= |tokens|
      modifies this
      ensures var r := G.Statements(old(Here()), tokens, old(pos), old(brk).Target?);
        && (ok <==> r.Ok?)
        && (ok ==> pos == r.at && count == old(count) + CountSeq(r.v) && Here() == AfterSeq(old(Here()), r.v) && brk == old(brk))
        && (ok ==> out == old(out) + SeqCode(old(Here()), old(count), old(brk), EndsInRet(false, old(out)), r.v))
      decreases |tokens| - pos, 3
    {
      hide StmtCode, SeqCode, AfterSeq, CountSeq, Count, G.Statement, G.Statements, EndsInRet, After;
      SeqNil(Here(), count, brk, EndsInRet(false, out));
      JoinNil(G.Statements(Here(), tokens, pos, brk.Target?));
      ghost var env, n, i, inLoop := Here(), count, pos, brk.Target?;
      ghost var done: seq<Src.Stmt> := [];
      while pos < |tokens| && tokens[pos] != G.Sym("}")
        invariant i <= pos <= |tokens| && brk == old(brk)
        invariant Here() == AfterSeq(env, done) && count == n + CountSeq(done)
        invariant out == old(out) + SeqCode(env, n, brk, EndsInRet(false, old(out)), done)
        invariant G.Statements(env, tokens, i, inLoop) == Join(done, G.Statements(Here(), tokens, pos, inLoop))
        decreases |tokens| - pos
      {
        ghost var r := G.Statement(Here(), tokens, pos, inLoop);
        RetTwice(false, old(out), SeqCode(env, n, brk, EndsInRet(false, old(out)), done));
        StatementsStep(Here(), tokens, pos, inLoop);
        ok := Statement();
        if !ok { return; }
        SeqSnoc(env, n, brk, EndsInRet(false, old(out)), done, r.v);
        JoinNext(done, r.v, G.Statements(Here(), tokens, pos, inLoop));
        done := done + [r.v];
      }
      StatementsEnd(Here(), tokens, pos, inLoop);
      assert done + [] == done;
      ok := pos < |tokens|;
      if ok { pos := pos + 1; }
    }

    // ----- functions and programs -----

    /** collect_arguments, after the opening parenthesis. */
    method CollectArguments() returns (ok: bool)
      requires pos <= |tokens|
      modifies `pos, `args
      ensures var r := G.Parameters(tokens, old(pos));
        (ok <==> r.Ok?) && (ok ==> pos == r.at && args == r.v)
    {
      args := [];
      ghost var i := pos;
      JoinNil(G.Parameters(tokens, pos));
      while pos < |tokens| && tokens[pos] != G.Sym(")")
        invariant i <= pos <= |tokens|
        invariant G.Parameters(tokens, i) == Join(args, G.Parameters(tokens, pos))
        decreases |tokens| - pos
      {
        if tokens[pos] != G.Name("int") || pos + 1 >= |tokens| { return false; }
        pos := pos + 1;
        if tokens[pos] != G.Sym(")") {
          if tokens[pos] != G.Sym(",") {
            if !tokens[pos].Name? || tokens[pos].s in G.KEYWORDS { return false; }
            JoinNext(args, tokens[pos].s, G.Parameters(tokens, if G.Is(tokens, pos + 1, G.Sym(",")) then pos + 2 else pos + 1));
            args := args + [tokens[pos].s];
            pos := pos + 1;
          }
          if G.Is(tokens, pos, G.Sym(",")) { pos := pos + 1; }
        }
      }
      assert args + [] == args;
      ok := pos < |tokens|;
      if ok { pos := pos + 1; }
    }

    /** declare_function for a definition: the label, the body and a `ret` unless one was just emitted. */
    method DefineFunction(name: string) returns (ok: bool)
      requires pos < |tokens|
      modifies this
      ensures var r := G.Statement(Env(name, old(scope), old(args), []), tokens, old(pos), false);
        && (ok <==> r.Ok? && tokens[old(pos)] != G.Name("int"))
        && (ok ==> pos == r.at && scope == old(scope))
        && (ok ==> out == old(out) + FunCode(Src.Fun(name, old(args), r.v, old(scope))))
    {
      hide G.Statement, StmtCode;
      count, fname, locals, brk := 0, name, [], NoTarget;
      if tokens[pos] == G.Name("int") { return false; }
      Emit([Mark(FunctionL(name))]);
      EndsIn(out, Mark(FunctionL(name)));
      ghost var env := Here();
      ghost var r := G.Statement(env, tokens, pos, false);
      ok := Statement();
      if !ok { return; }
      FunctionCode(old(out), name, old(args), r.v, old(scope));
      if !(out != [] && out[|out| - 1] == Ret) { Emit([Ret]); }
    }

    /** program: the whole file, from an empty scope. */
    method Program() returns (ok: bool)
      requires pos == 0 && out == [] && scope == Src.Scope(map[], {}, {})
      modifies this
      ensures var r := G.Declarations(Src.Scope(map[], {}, {}), tokens, 0);
        (ok <==> r.Ok?) && (ok ==> out == ProgramCode(r.v))
    {
      hide FunCode;
      ghost var empty := Src.Scope(map[], {}, {});
      ghost var funs: Src.Program := [];
      JoinNil(G.Declarations(empty, tokens, 0));
      ok := true;
      while pos < |tokens|
        invariant pos <= |tokens| && ok
        invariant out == ProgramCode(funs)
        invariant G.Declarations(empty, tokens, 0) == Join(funs, G.Declarations(scope, tokens, pos))
        decreases |tokens| - pos
      {
        ghost var d;
        ok, d := Declaration();
        if !ok { return; }
        if d.Some? {
          JoinNext(funs, d.value, G.Declarations(scope, tokens, pos));
          ProgramSnoc(funs, d.value);
          funs := funs + [d.value];
        }
      }
      assert funs + [] == funs;
    }

    /** One declaration: a constant, a global, a prototype or a function definition. */
    method Declaration() returns (ok: bool, ghost d: Option<Src.Fun>)
      requires pos < |tokens|
      modifies this
      ensures !ok ==> G.Declarations(old(scope), tokens, old(pos)).Fail?
      ensures ok ==> old(pos) < pos <= |tokens|
      ensures ok && d.None? ==> out == old(out) && G.Declarations(old(scope), tokens, old(pos)) == G.Declarations(scope, tokens, pos)
      ensures ok && d.Some? ==> out == old(out) + FunCode(d.value)
      ensures ok && d.Some? ==> G.Declarations(old(scope), tokens, old(pos)) == G.Prepend(d.value, G.Declarations(scope, tokens, pos))
    {
      hide G.Parameters, G.Statement, FunCode;
      d := None;
      if tokens[pos] == G.Name("CONSTANT") {
        ok := pos + 2 < |tokens| && tokens[pos + 1].Name? && tokens[pos + 2].Num?;
        if !ok { return; }
        scope := scope.(consts := scope.consts[tokens[pos + 1].s := tokens[pos + 2].n]);
        pos := pos + 3;
        return;
      }
      ok := tokens[pos] == G.Name("int") && pos + 2 < |tokens| && tokens[pos + 1].Name?;
      if !ok { return; }
      var x := tokens[pos + 1].s;
      scope := scope.(globs := scope.globs + {x});
      pos := pos + 2;
      if tokens[pos] == G.Sym(";") {
        pos := pos + 1;
        return;
      }
      ok := tokens[pos] == G.Sym("(");
      if !ok { return; }
      pos := pos + 1;
      scope := scope.(funs := scope.funs + {x});
      ok := CollectArguments();
      if !ok { return; }
      ok := pos < |tokens|;
      if !ok { return; }
      if tokens[pos] == G.Sym(";") {
        pos := pos + 1;
        return;
      }
      ghost var body := G.Statement(Env(x, scope, args, []), tokens, pos, false);
      ghost var params, sc := args, scope;
      ok := DefineFunction(x);
      if ok { d := Some(Src.Fun(x, params, body.v, sc)); }
    }
  }
}
